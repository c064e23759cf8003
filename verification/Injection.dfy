/** The injection workflow: its activities as lists of effects on the torrent client and on the
    stored row, any of which may be cut short by a crash and executed again. */
module Injection {
  import opened Wrappers
  import opened Files
  import opened Decision
  import opened Pieces

  const MAX_FINAL_VERIFY_ATTEMPTS := 30

  // ----- What the workflow sees and stores -----

  datatype RowState =
    | Absent | AddedStopped | LinksPartial | LinksComplete | RecheckRequested | RecheckSettling | Checking
    | Finalizing | Completed | Failed

  datatype Choice = Resume | Stop

  /** The injection row of a plan; the state is Absent before the row is inserted. */
  datatype Row = Row(state: RowState, integritySafe: Option<bool>, choice: Option<Choice>, attempts: nat,
                     qbitState: string, amountLeft: nat)

  datatype Torrent = Torrent(state: string, amountLeft: nat, autoManaged: bool, samePath: bool)

  predicate IsStopped(t: Torrent) {
    StartsWith(t.state, "stopped")
  }

  predicate IsChecking(t: Torrent) {
    StartsWith(t.state, "checking")
  }

  predicate IsQueued(t: Torrent) {
    t.state == "queuedDL" || t.state == "queuedUP"
  }

  predicate IsStarted(t: Torrent) {
    t.state in ["downloading", "forcedDL", "queuedDL", "stalledDL", "metaDL", "uploading", "forcedUP", "queuedUP", "stalledUP"]
  }

  datatype Combination = And | Or

  datatype ResumePolicy = Never | CompleteOnly | Always | Threshold(maxMissing: Option<nat>, minRatio: Option<nat>, combine: Combination)

  /** What a plan fixes: the torrent, which of its files were linked, and when it may resume. */
  datatype Plan = Plan(manifest: Manifest, mapped: set<nat>, policy: ResumePolicy)

  datatype Links = Unmapped | Unopened(reason: string) | Stopped(reason: string) | AllLinked

  /** What the client, the filesystem and the network answer during one activity. */
  datatype Observation = Observation(configured: bool, conflict: bool, torrent: Option<Torrent>, links: Links, pieces: seq<nat>)

  /** Whether the thresholds that are set hold, all of them or any of them. */
  predicate ResumeAllowed(policy: ResumePolicy, amountLeft: nat, report: PieceInspection) {
    match policy
    case Never => false
    case CompleteOnly => amountLeft == 0 && report.missingBytes == 0
    case Always => true
    case Threshold(maxMissing, minRatio, combine) =>
      var checks :=
        (if maxMissing.Some? then [report.missingBytes <= maxMissing.value] else []) +
        (if minRatio.Some? then [report.presentRatio >= minRatio.value] else []);
      match combine
      case And => forall c :: c in checks ==> c
      case Or => exists c :: c in checks && c
  }

  /** The policy's own words: never; only when the client lacks nothing and no byte is missing; always;
      or within the limits that are set, all of them or at least one. */
  ghost predicate PolicyMet(policy: ResumePolicy, amountLeft: nat, report: PieceInspection) {
    && policy != Never
    && (policy == CompleteOnly ==> amountLeft == 0 && report.missingBytes == 0)
    && (policy.Threshold? && policy.combine == And ==>
          && (policy.maxMissing.Some? ==> report.missingBytes <= policy.maxMissing.value)
          && (policy.minRatio.Some? ==> report.presentRatio >= policy.minRatio.value))
    && (policy.Threshold? && policy.combine == Or ==>
          || (policy.maxMissing.Some? && report.missingBytes <= policy.maxMissing.value)
          || (policy.minRatio.Some? && report.presentRatio >= policy.minRatio.value))
  }

  lemma AllowedIsMet(policy: ResumePolicy, amountLeft: nat, report: PieceInspection)
    ensures ResumeAllowed(policy, amountLeft, report) <==> PolicyMet(policy, amountLeft, report)
  {
    if policy.Threshold? {
      var low := if policy.maxMissing.Some? then [report.missingBytes <= policy.maxMissing.value] else [];
      var high := if policy.minRatio.Some? then [report.presentRatio >= policy.minRatio.value] else [];
      assert forall c :: c in low + high <==> c in low || c in high;
    }
  }

  // ----- Effects -----

  datatype Place = PlanTable | CandidateTable | TaskProjection

  datatype Effect =
    | AddStopped
    | StopTorrent
    | StartTorrent
    | RequestRecheck
    | RecordPrepared(torrent: Torrent)
    | RecordLinks(complete: bool)
    | RecordRechecked
    | ResetAttempts
    | RecordObservation(torrent: Torrent, state: RowState)
    | Bump(torrent: Torrent)
    | RecordDecision(torrent: Torrent, pieces: seq<nat>, safe: bool, choice: Choice)
    | RecordCompleted(torrent: Torrent)
    | RecordFailed
    | Publish(place: Place, state: RowState)

  /** What an effect leaves of the row. An update of an absent row changes nothing. */
  function Apply(row: Row, e: Effect): Row {
    if e.RecordPrepared? then Row(AddedStopped, None, None, row.attempts, e.torrent.state, e.torrent.amountLeft)
    else if row.state == Absent then row
    else
      match e
      case RecordLinks(complete) => row.(state := if complete then LinksComplete else LinksPartial)
      case RecordRechecked => row.(state := RecheckRequested)
      case ResetAttempts => row.(attempts := 0)
      case RecordObservation(t, state) => row.(state := state, qbitState := t.state, amountLeft := t.amountLeft)
      case Bump(t) => row.(attempts := row.attempts + 1, qbitState := t.state, amountLeft := t.amountLeft)
      case RecordDecision(t, _, safe, choice) =>
        Row(Finalizing, Some(safe), Some(choice), 0, t.state, t.amountLeft)
      case RecordCompleted(t) => row.(state := Completed, qbitState := t.state, amountLeft := t.amountLeft)
      case RecordFailed => row.(state := Failed)
      case _ => row
  }

  // ----- Activities -----

  datatype StepResult = Ready | Waiting | Terminal(completed: bool, reason: string)

  /** What an activity does when nothing interrupts it. A script without result ends in an error,
      and the activity is tried again. */
  datatype Script = Script(effects: seq<Effect>, result: Option<StepResult>)

  function FailScript(first: seq<Effect>, reason: string): Script {
    Script(first + [Publish(PlanTable, Failed), RecordFailed, Publish(CandidateTable, Failed), Publish(TaskProjection, Failed)],
           Some(Terminal(false, reason)))
  }

  function PrepareScript(obs: Observation): Script {
    if !obs.configured then FailScript([], "qbittorrent_unconfigured")
    else if obs.conflict then FailScript([], "qbittorrent_identity_conflict")
    else
      match obs.torrent
      case None => Script([AddStopped], Some(Waiting))
      case Some(t) =>
        if !t.samePath || t.autoManaged then FailScript([], "qbittorrent_identity_conflict")
        else if !IsStopped(t) then Script([StopTorrent], Some(Waiting))
        else Script([RecordPrepared(t), Publish(PlanTable, AddedStopped)], Some(Ready))
  }

  function MaterializeScript(obs: Observation): Script {
    if !obs.configured then FailScript([], "qbittorrent_unconfigured")
    else if obs.torrent == None then FailScript([], "injected_torrent_missing")
    else
      var t := obs.torrent.value;
      if !IsStopped(t) || t.autoManaged || !t.samePath then FailScript([], "qbittorrent_not_stopped")
      else LinkScript(obs.links)
  }

  /** What is stored of the links, however far they came. */
  function LinkScript(links: Links): Script {
    match links
    case Unmapped => FailScript([], "unmapped_source_root")
    case Unopened(reason) => FailScript([], reason)
    case Stopped(reason) => FailScript([RecordLinks(false)], reason)
    case AllLinked => Script([RecordLinks(true)], Some(Ready))
  }

  function RecheckScript(obs: Observation): Script {
    if !obs.configured then FailScript([], "qbittorrent_unconfigured")
    else Script([RequestRecheck, RecordRechecked, ResetAttempts], Some(Waiting))
  }

  datatype RecheckObservation = SeesChecking | SeesSettling | SeesWaiting | SeesInspect

  function Observes(row: Row, t: Torrent): RecheckObservation {
    if IsChecking(t) then SeesChecking
    else if IsQueued(t) then SeesWaiting
    else
      match row.state
      case RecheckRequested => SeesSettling
      case RecheckSettling | Checking => SeesInspect
      case _ => SeesWaiting
  }

  /** Counts an observation, and gives up once too many were made. */
  function WaitScript(row: Row, t: Torrent, rest: seq<Effect>): Script {
    if row.attempts + 1 >= MAX_FINAL_VERIFY_ATTEMPTS then FailScript([Bump(t)], "ambiguous_qbittorrent_state")
    else Script([Bump(t)] + rest, Some(Waiting))
  }

  function Command(choice: Choice): Effect {
    if choice == Resume then StartTorrent else StopTorrent
  }

  ghost function InspectScript(plan: Plan, t: Torrent, pieces: seq<nat>): Script {
    match Swept(plan.manifest, plan.mapped, pieces)
    case Failure(_) => Script([], None)
    case Success(report) =>
      var choice := if report.integritySafe && ResumeAllowed(plan.policy, t.amountLeft, report) then Resume else Stop;
      Script([RecordDecision(t, pieces, report.integritySafe, choice), Command(choice)], Some(Waiting))
  }

  function VerifyScript(row: Row, t: Torrent): Script {
    var choice := if row.choice == Some(Resume) then Resume else Stop;
    if (choice == Resume && IsStarted(t)) || (choice == Stop && IsStopped(t)) then
      Script([RecordCompleted(t), Publish(PlanTable, Completed), Publish(CandidateTable, Completed), Publish(TaskProjection, Completed)],
             Some(Terminal(true, if choice == Resume then "resumed" else "left_stopped")))
    else WaitScript(row, t, [Command(choice)])
  }

  ghost function ObserveScript(plan: Plan, row: Row, obs: Observation): Script {
    if !obs.configured then FailScript([], "qbittorrent_unconfigured")
    else if obs.torrent == None then FailScript([], "injected_torrent_missing")
    else
      var t := obs.torrent.value;
      if row.state == Finalizing then VerifyScript(row, t)
      else
        match Observes(row, t)
        case SeesChecking => Script([RecordObservation(t, Checking)], Some(Waiting))
        case SeesSettling => Script([RecordObservation(t, RecheckSettling)], Some(Waiting))
        case SeesWaiting => WaitScript(row, t, [])
        case SeesInspect => InspectScript(plan, t, obs.pieces)
  }

  // ----- Runs -----

  datatype Stage = Preparing | Materializing | Rechecking | Observing | Ended

  datatype Entry = Entry(row: Row, effect: Effect)

  /** Where the workflow stands, the stored row, and every effect so far with the row it met. */
  datatype System = System(stage: Stage, row: Row, log: seq<Entry>)

  /** One event of a run: an activity that completes, one that is cut after some of its effects and
      will be executed again, the end of its retries, or a new pass of the workflow. */
  datatype Event = Complete(obs: Observation) | Cut(obs: Observation, after: nat) | GiveUp | Restart

  ghost function ScriptOf(plan: Plan, s: System, obs: Observation): Script {
    match s.stage
    case Preparing => PrepareScript(obs)
    case Materializing => MaterializeScript(obs)
    case Rechecking => RecheckScript(obs)
    case Observing => ObserveScript(plan, s.row, obs)
    case Ended => Script([], None)
  }

  function NextStage(stage: Stage, result: Option<StepResult>): Stage {
    if result == None then stage
    else if result.value.Terminal? then Ended
    else
      match stage
      case Preparing => if result.value == Ready then Materializing else Preparing
      case Materializing => if result.value == Ready then Rechecking else Ended
      case Rechecking => Observing
      case Observing => if result.value == Waiting then Observing else Ended
      case Ended => Ended
  }

  function Perform(s: System, e: Effect): System {
    s.(row := Apply(s.row, e), log := s.log + [Entry(s.row, e)])
  }

  function Play(s: System, effects: seq<Effect>): System
    decreases |effects|
  {
    if effects == [] then s else Play(Perform(s, effects[0]), effects[1..])
  }

  ghost function Step(plan: Plan, s: System, event: Event): System {
    match event
    case Complete(obs) =>
      var script := ScriptOf(plan, s, obs);
      var played := Play(s, script.effects);
      played.(stage := NextStage(s.stage, script.result))
    case Cut(obs, after) =>
      var effects := ScriptOf(plan, s, obs).effects;
      if after <= |effects| then Play(s, effects[..after]) else s
    case GiveUp => s.(stage := Ended)
    case Restart => s.(stage := Preparing)
  }

  ghost function Run(plan: Plan, s: System, events: seq<Event>): System
    decreases |events|
  {
    if events == [] then s else Run(plan, Step(plan, s, events[0]), events[1..])
  }

  /** The workflow before anything happened. */
  predicate Initial(s: System) {
    s.stage == Preparing && s.log == [] && s.row == Row(Absent, None, None, 0, "", 0)
  }

  // ----- Starting only what was inspected -----

  /** An effect that opens a new pass or asks for a new recheck. */
  predicate Reopens(e: Effect) {
    e.RequestRecheck? || e.RecordPrepared?
  }

  /** A recheck was requested in this pass, at entry r, and nothing was reopened since. */
  ghost predicate RecheckedAt(log: seq<Entry>, r: nat) {
    r < |log| && log[r].effect == RequestRecheck && forall k :: r < k < |log| ==> !Reopens(log[k].effect)
  }

  /** Entry j records what an inspection after that recheck decided. */
  ghost predicate DecidedAt(log: seq<Entry>, r: nat, j: nat, safe: bool, choice: Choice) {
    && RecheckedAt(log, r) && r < j < |log|
    && log[j].effect.RecordDecision? && log[j].effect.safe == safe && log[j].effect.choice == choice
  }

  ghost predicate Rechecked(log: seq<Entry>) {
    exists r :: RecheckedAt(log, r)
  }

  ghost predicate Decided(log: seq<Entry>, safe: bool, choice: Choice) {
    exists r, j :: DecidedAt(log, r, j, safe, choice)
  }

  /** The inspection of some piece states reports that the linked files are safe. */
  ghost predicate Cleared(plan: Plan, pieces: seq<nat>) {
    var report := Swept(plan.manifest, plan.mapped, pieces);
    report.Success? && report.value.integritySafe
  }

  /** A decision follows from its piece states, its torrent and the plan: safety is what the sweep
      reports, and the torrent is to resume exactly when it is safe and the policy is met. */
  ghost predicate FollowsPolicy(plan: Plan, t: Torrent, pieces: seq<nat>, safe: bool, choice: Choice) {
    var report := Swept(plan.manifest, plan.mapped, pieces);
    && report.Success? && safe == report.value.integritySafe
    && (choice == Resume <==> safe && PolicyMet(plan.policy, t.amountLeft, report.value))
  }

  /** Every byte of every linked file lies in a present piece. */
  ghost predicate Intact(plan: Plan, pieces: seq<nat>) {
    && plan.manifest.pieceLength.Some? && plan.manifest.pieceLength.value > 0
    && LinkedBytesPresent(Extents(plan.manifest, plan.manifest.pieceLength.value), plan.mapped, pieces, plan.manifest.pieceLength.value)
  }

  /** For linked files in order, a torrent that was cleared is intact. */
  lemma ClearedIsIntact(plan: Plan, pieces: seq<nat>)
    requires Cleared(plan, pieces) && WellLaid(plan.manifest, plan.mapped)
    ensures Intact(plan, pieces)
  {
    hide Extents, LinkedBytesPresent, WellLaid;
    SweptIsInspected(plan.manifest, plan.mapped, pieces);
  }

  predicate Agrees(choice: Option<Choice>, t: Torrent) {
    (choice == Some(Resume) && IsStarted(t)) || (choice == Some(Stop) && IsStopped(t))
  }

  /** What must hold when an effect happens: a start needs a stored decision to resume that an
      inspection after this pass's recheck made, and completion an observation that agrees. */
  ghost predicate Justified(plan: Plan, log: seq<Entry>, i: nat)
    requires i < |log|
  {
    var row := log[i].row;
    match log[i].effect
    case StartTorrent =>
      row.state == Finalizing && row.choice == Some(Resume) && row.integritySafe == Some(true) && Decided(log[..i], true, Resume)
    case RecordCompleted(t) => row.state == Finalizing && Agrees(row.choice, t)
    case RecordDecision(t, pieces, safe, choice) => FollowsPolicy(plan, t, pieces, safe, choice)
    case _ => true
  }

  ghost predicate Sound(plan: Plan, s: System) {
    && (forall i :: 0 <= i < |s.log| ==> Justified(plan, s.log, i))
    && (s.row.choice == Some(Resume) ==> s.row.integritySafe == Some(true))
    && (s.stage == Materializing || s.stage == Rechecking || s.stage == Observing ==> s.row.state != Absent)
    && (s.stage == Observing ==> Rechecked(s.log))
    && (s.stage == Observing && s.row.state == Finalizing ==>
          s.row.choice.Some? && s.row.integritySafe.Some? && Decided(s.log, s.row.integritySafe.value, s.row.choice.value))
  }

  /** The effects an activity of a stage may have on a row. */
  ghost predicate Permitted(plan: Plan, stage: Stage, row: Row, e: Effect) {
    match e
    case StartTorrent => stage == Observing && row.state == Finalizing && row.choice == Some(Resume)
    case RecordCompleted(t) => stage == Observing && row.state == Finalizing && Agrees(row.choice, t)
    case RecordDecision(t, pieces, safe, choice) =>
      && stage == Observing && row.state != Absent && row.state != Finalizing
      && FollowsPolicy(plan, t, pieces, safe, choice)
    case RecordObservation(_, state) =>
      stage == Observing && row.state != Finalizing && (state == Checking || state == RecheckSettling)
    case RecordLinks(_) => stage == Materializing
    case RequestRecheck => stage == Rechecking
    case RecordPrepared(_) => stage == Preparing
    case RecordRechecked => stage == Rechecking
    case ResetAttempts => stage == Rechecking
    case _ => true
  }

  ghost predicate AllPermitted(plan: Plan, stage: Stage, row: Row, effects: seq<Effect>)
    decreases |effects|
  {
    effects == [] || (Permitted(plan, stage, row, effects[0]) && AllPermitted(plan, stage, Apply(row, effects[0]), effects[1..]))
  }

  lemma RecheckKept(log: seq<Entry>, x: Entry)
    requires !Reopens(x.effect)
    ensures Rechecked(log) ==> Rechecked(log + [x])
    ensures forall safe, choice :: Decided(log, safe, choice) ==> Decided(log + [x], safe, choice)
  {
    if Rechecked(log) {
      var r :| RecheckedAt(log, r);
      assert RecheckedAt(log + [x], r);
    }
    forall safe, choice | Decided(log, safe, choice) ensures Decided(log + [x], safe, choice) {
      var r, j :| DecidedAt(log, r, j, safe, choice);
      assert RecheckedAt(log + [x], r);
      assert DecidedAt(log + [x], r, j, safe, choice);
    }
  }

  lemma DecisionMade(log: seq<Entry>, x: Entry)
    requires Rechecked(log) && x.effect.RecordDecision?
    ensures Decided(log + [x], x.effect.safe, x.effect.choice)
  {
    var r :| RecheckedAt(log, r);
    assert RecheckedAt(log + [x], r);
    assert DecidedAt(log + [x], r, |log|, x.effect.safe, x.effect.choice);
  }

  lemma JustifiedKept(plan: Plan, log: seq<Entry>, x: Entry)
    requires forall i :: 0 <= i < |log| ==> Justified(plan, log, i)
    ensures forall i :: 0 <= i < |log| ==> Justified(plan, log + [x], i)
  {
    hide Decided, Agrees, FollowsPolicy;
    forall i | 0 <= i < |log| ensures Justified(plan, log + [x], i) {
      assert Justified(plan, log, i) && (log + [x])[..i] == log[..i];
    }
  }

  lemma FollowsSafely(plan: Plan, e: Effect)
    ensures e.RecordDecision? && FollowsPolicy(plan, e.torrent, e.pieces, e.safe, e.choice) ==>
              (e.safe ==> Cleared(plan, e.pieces)) && (e.choice == Resume ==> e.safe)
  {
  }

  /** One permitted effect keeps a system sound. */
  lemma EffectKeepsSound(plan: Plan, s: System, e: Effect)
    requires Sound(plan, s) && Permitted(plan, s.stage, s.row, e)
    ensures Sound(plan, Perform(s, e))
  {
    FollowsSafely(plan, e);
    hide Decided, Rechecked, Agrees, FollowsPolicy;
    var x := Entry(s.row, e);
    var log := s.log + [x];
    JustifiedKept(plan, s.log, x);
    assert log[..|s.log|] == s.log;
    assert Justified(plan, log, |s.log|);
    if !Reopens(e) {
      RecheckKept(s.log, x);
    }
    if e.RecordDecision? {
      DecisionMade(s.log, x);
    }
  }

  lemma {:induction false} PlayKeepsSound(plan: Plan, s: System, effects: seq<Effect>)
    requires Sound(plan, s) && AllPermitted(plan, s.stage, s.row, effects)
    ensures Sound(plan, Play(s, effects)) && Play(s, effects).stage == s.stage
    decreases |effects|
  {
    hide Sound, Permitted, Apply;
    if effects != [] {
      EffectKeepsSound(plan, s, effects[0]);
      PlayKeepsSound(plan, Perform(s, effects[0]), effects[1..]);
    }
  }

  lemma {:induction false} PrefixPermitted(plan: Plan, stage: Stage, row: Row, effects: seq<Effect>, k: nat)
    requires k <= |effects| && AllPermitted(plan, stage, row, effects)
    ensures AllPermitted(plan, stage, row, effects[..k])
    decreases k
  {
    hide Permitted, Apply;
    if k > 0 {
      PrefixPermitted(plan, stage, Apply(row, effects[0]), effects[1..], k - 1);
      assert effects[..k][0] == effects[0] && effects[..k][1..] == effects[1..][..k - 1];
    }
  }

  lemma PermittedFirst(plan: Plan, stage: Stage, row: Row, e: Effect, rest: seq<Effect>)
    requires Permitted(plan, stage, row, e) && AllPermitted(plan, stage, Apply(row, e), rest)
    ensures AllPermitted(plan, stage, row, [e] + rest)
  {
    hide Permitted, Apply;
    assert ([e] + rest)[1..] == rest;
  }

  /** Effects that every stage may have, whatever the row. */
  predicate Harmless(e: Effect) {
    e.AddStopped? || e.StopTorrent? || e.Bump? || e.RecordFailed? || e.Publish?
  }

  lemma {:induction false} HarmlessPermitted(plan: Plan, stage: Stage, row: Row, effects: seq<Effect>)
    requires forall e :: e in effects ==> Harmless(e)
    ensures AllPermitted(plan, stage, row, effects)
    decreases |effects|
  {
    hide Apply;
    if effects != [] {
      assert Harmless(effects[0]);
      HarmlessPermitted(plan, stage, Apply(row, effects[0]), effects[1..]);
    }
  }

  lemma SingletonPermitted(plan: Plan, stage: Stage, row: Row, e: Effect)
    requires Permitted(plan, stage, row, e)
    ensures AllPermitted(plan, stage, row, [e])
  {
  }

  /** What the inspection decides is permitted, and so is the command that follows. */
  lemma InspectPermitted(plan: Plan, row: Row, t: Torrent, pieces: seq<nat>)
    requires row.state != Absent && row.state != Finalizing
    ensures AllPermitted(plan, Observing, row, InspectScript(plan, t, pieces).effects)
  {
    var script := InspectScript(plan, t, pieces);
    if script.effects != [] {
      var decision := script.effects[0];
      AllowedIsMet(plan.policy, t.amountLeft, Swept(plan.manifest, plan.mapped, pieces).value);
      hide ResumeAllowed, PolicyMet, Swept;
      assert Permitted(plan, Observing, row, decision);
      SingletonPermitted(plan, Observing, Apply(row, decision), Command(decision.choice));
      PermittedFirst(plan, Observing, row, decision, [Command(decision.choice)]);
    }
  }

  lemma VerifyFinalPermitted(plan: Plan, row: Row, t: Torrent)
    requires row.state == Finalizing && row.choice.Some?
    ensures AllPermitted(plan, Observing, row, VerifyScript(row, t).effects)
  {
    var effects := VerifyScript(row, t).effects;
    var choice := row.choice.value;
    assert row.choice == Some(choice) && (choice == Resume || choice == Stop);
    hide AllPermitted, IsStarted, IsStopped;
    if Agrees(row.choice, t) {
      HarmlessPermitted(plan, Observing, Apply(row, effects[0]), effects[1..]);
      PermittedFirst(plan, Observing, row, effects[0], effects[1..]);
      assert effects == [effects[0]] + effects[1..];
    } else if row.attempts + 1 >= MAX_FINAL_VERIFY_ATTEMPTS {
      HarmlessPermitted(plan, Observing, row, effects);
    } else {
      SingletonPermitted(plan, Observing, Apply(row, Bump(t)), Command(choice));
      PermittedFirst(plan, Observing, row, Bump(t), [Command(choice)]);
    }
  }

  lemma ObservePermitted(plan: Plan, row: Row, obs: Observation)
    requires row.state == Finalizing ==> row.choice.Some?
    ensures AllPermitted(plan, Observing, row, ObserveScript(plan, row, obs).effects)
  {
    hide AllPermitted, IsStarted, IsStopped, IsChecking, IsQueued, VerifyScript, InspectScript;
    var effects := ObserveScript(plan, row, obs).effects;
    if forall e :: e in effects ==> Harmless(e) {
      HarmlessPermitted(plan, Observing, row, effects);
    } else {
      var t := obs.torrent.value;
      if row.state == Finalizing {
        VerifyFinalPermitted(plan, row, t);
      } else if Observes(row, t) == SeesInspect {
        InspectPermitted(plan, row, t, obs.pieces);
      } else {
        SingletonPermitted(plan, Observing, row, effects[0]);
      }
    }
  }

  lemma FirstPermitted(plan: Plan, stage: Stage, row: Row, effects: seq<Effect>)
    requires effects != [] && Permitted(plan, stage, row, effects[0]) && forall k :: 1 <= k < |effects| ==> Harmless(effects[k])
    ensures AllPermitted(plan, stage, row, effects)
  {
    hide Permitted, Apply, Harmless;
    HarmlessPermitted(plan, stage, Apply(row, effects[0]), effects[1..]);
  }

  lemma ScriptPermitted(plan: Plan, s: System, obs: Observation)
    requires Sound(plan, s)
    ensures AllPermitted(plan, s.stage, s.row, ScriptOf(plan, s, obs).effects)
  {
    hide AllPermitted, IsStopped, ObserveScript, Decided, Rechecked;
    var effects := ScriptOf(plan, s, obs).effects;
    if forall e :: e in effects ==> Harmless(e) {
      HarmlessPermitted(plan, s.stage, s.row, effects);
    } else if s.stage == Observing {
      ObservePermitted(plan, s.row, obs);
    } else if s.stage == Preparing {
      FirstPermitted(plan, s.stage, s.row, effects);
    } else if s.stage == Materializing {
      FirstPermitted(plan, s.stage, s.row, effects);
    } else {
      RecheckPermitted(plan, s.row);
    }
  }

  lemma RecheckPermitted(plan: Plan, row: Row)
    ensures AllPermitted(plan, Rechecking, row, [RequestRecheck, RecordRechecked, ResetAttempts])
  {
    var row' := Apply(row, RequestRecheck);
    SingletonPermitted(plan, Rechecking, Apply(row', RecordRechecked), ResetAttempts);
    PermittedFirst(plan, Rechecking, row', RecordRechecked, [ResetAttempts]);
    PermittedFirst(plan, Rechecking, row, RequestRecheck, [RecordRechecked, ResetAttempts]);
    assert [RequestRecheck] + ([RecordRechecked] + [ResetAttempts]) == [RequestRecheck, RecordRechecked, ResetAttempts];
  }

  /** A completed recheck opens the observation of this pass. */
  lemma RecheckOpens(plan: Plan, s: System)
    requires Sound(plan, s) && s.stage == Rechecking
    ensures var s' := Play(s, [RequestRecheck, RecordRechecked, ResetAttempts]);
      && Rechecked(s'.log)
      && (s.row.state != Absent ==> s'.row == s.row.(state := RecheckRequested, attempts := 0))
      && (s.row.state == Absent ==> s'.row == s.row)
  {
    var s1 := Perform(s, RequestRecheck);
    var s2 := Perform(s1, RecordRechecked);
    var s3 := Perform(s2, ResetAttempts);
    assert Play(s, [RequestRecheck, RecordRechecked, ResetAttempts]) == Play(s1, [RecordRechecked, ResetAttempts]) == Play(s2, [ResetAttempts]) == s3;
    assert RecheckedAt(s3.log, |s.log|);
  }

  lemma PrepareOpens(s: System, obs: Observation)
    requires PrepareScript(obs).result == Some(Ready)
    ensures Play(s, PrepareScript(obs).effects).row.state == AddedStopped
  {
    var effects := PrepareScript(obs).effects;
    PlayTwo(s, effects[0], effects[1]);
    assert effects == [effects[0], effects[1]];
  }

  /** Every event, a crash between any two effects included, keeps a system sound. */
  lemma StepKeepsSound(plan: Plan, s: System, event: Event)
    requires Sound(plan, s)
    ensures Sound(plan, Step(plan, s, event))
  {
    hide AllPermitted, Play, ObserveScript, PrepareScript, MaterializeScript, Decided, Rechecked, Justified;
    match event
    case Complete(obs) =>
      var script := ScriptOf(plan, s, obs);
      ScriptPermitted(plan, s, obs);
      PlayKeepsSound(plan, s, script.effects);
      if s.stage == Preparing && script.result == Some(Ready) {
        PrepareOpens(s, obs);
      }
      if s.stage == Rechecking && script.result == Some(Waiting) {
        RecheckOpens(plan, s);
      }
    case Cut(obs, after) =>
      var effects := ScriptOf(plan, s, obs).effects;
      if after <= |effects| {
        ScriptPermitted(plan, s, obs);
        PrefixPermitted(plan, s.stage, s.row, effects, after);
        PlayKeepsSound(plan, s, effects[..after]);
      }
    case GiveUp =>
    case Restart =>
  }

  lemma {:induction false} RunKeepsSound(plan: Plan, s: System, events: seq<Event>)
    requires Sound(plan, s)
    ensures Sound(plan, Run(plan, s, events))
    decreases |events|
  {
    hide Sound, Step;
    if events != [] {
      StepKeepsSound(plan, s, events[0]);
      RunKeepsSound(plan, Step(plan, s, events[0]), events[1..]);
    }
  }

  /** In every run, a start is sent only when the row already stores the decision to resume and its
      safety, written by an inspection after this pass's recheck request that cleared the links; for
      linked files in order, every byte of them was then present. */
  lemma NeverStartsUnsafely(plan: Plan, s: System, events: seq<Event>, i: nat) returns (r: nat, j: nat)
    requires Initial(s) && i < |Run(plan, s, events).log|
    requires Run(plan, s, events).log[i].effect == StartTorrent
    ensures var log := Run(plan, s, events).log;
      && log[i].row.state == Finalizing && log[i].row.choice == Some(Resume) && log[i].row.integritySafe == Some(true)
      && r < j < i && log[r].effect == RequestRecheck && (forall k :: r < k < i ==> !Reopens(log[k].effect))
      && log[j].effect.RecordDecision? && log[j].effect.choice == Resume && Cleared(plan, log[j].effect.pieces)
      && PolicyMet(plan.policy, log[j].effect.torrent.amountLeft, Swept(plan.manifest, plan.mapped, log[j].effect.pieces).value)
      && (WellLaid(plan.manifest, plan.mapped) ==> Intact(plan, log[j].effect.pieces))
  {
    hide Run, Intact, PolicyMet, Swept, Reopens, WellLaid;
    RunKeepsSound(plan, s, events);
    var log := Run(plan, s, events).log;
    assert Justified(plan, log, i);
    r, j :| DecidedAt(log[..i], r, j, true, Resume);
    assert Justified(plan, log, j);
    if WellLaid(plan.manifest, plan.mapped) {
      ClearedIsIntact(plan, log[j].effect.pieces);
    }
    forall k | r < k < i ensures !Reopens(log[k].effect) {
      assert log[..i][k] == log[k];
    }
  }

  /** In every run, each decision is the one the plan asks for: a safe report that meets the policy is
      resumed, and nothing else is. */
  lemma DecisionsFollowPolicy(plan: Plan, s: System, events: seq<Event>, i: nat)
    requires Initial(s) && i < |Run(plan, s, events).log| && Run(plan, s, events).log[i].effect.RecordDecision?
    ensures var e := Run(plan, s, events).log[i].effect; var report := Swept(plan.manifest, plan.mapped, e.pieces);
      && report.Success? && e.safe == report.value.integritySafe
      && (e.choice == Resume <==> e.safe && PolicyMet(plan.policy, e.torrent.amountLeft, report.value))
  {
    hide Run, PolicyMet, Swept;
    RunKeepsSound(plan, s, events);
    assert Justified(plan, Run(plan, s, events).log, i);
  }

  /** Under the policy never to resume, no run starts the torrent. */
  lemma NeverStartsUnderNever(plan: Plan, s: System, events: seq<Event>, i: nat)
    requires Initial(s) && plan.policy == Never && i < |Run(plan, s, events).log|
    ensures Run(plan, s, events).log[i].effect != StartTorrent
  {
    hide Run, Swept, Cleared, Intact, WellLaid, Reopens;
    if Run(plan, s, events).log[i].effect == StartTorrent {
      var r, j := NeverStartsUnsafely(plan, s, events, i);
      assert false;
    }
  }

  /** Under the policy to resume only what is complete, a torrent is started only after the client reported
      nothing left to download and every piece was present. */
  lemma StartsOnlyComplete(plan: Plan, s: System, events: seq<Event>, i: nat) returns (j: nat)
    requires Initial(s) && plan.policy == CompleteOnly && i < |Run(plan, s, events).log|
    requires Run(plan, s, events).log[i].effect == StartTorrent
    ensures j < i && Run(plan, s, events).log[j].effect.RecordDecision?
    ensures var e := Run(plan, s, events).log[j].effect;
      e.torrent.amountLeft == 0 && forall k :: 0 <= k < |e.pieces| ==> e.pieces[k] == 2
  {
    hide Run, Swept, Intact, WellLaid, Reopens;
    var r, d := NeverStartsUnsafely(plan, s, events, i);
    j := d;
    NoneMissing(plan.manifest, plan.mapped, Run(plan, s, events).log[j].effect.pieces);
  }

  /** In every run, completion is recorded only when the observed torrent agrees with the stored
      decision. */
  lemma CompletesOnlyInAgreement(plan: Plan, s: System, events: seq<Event>, i: nat)
    requires Initial(s) && i < |Run(plan, s, events).log|
    requires Run(plan, s, events).log[i].effect.RecordCompleted?
    ensures var x := Run(plan, s, events).log[i]; x.row.state == Finalizing && Agrees(x.row.choice, x.effect.torrent)
  {
    hide Run, Agrees;
    RunKeepsSound(plan, s, events);
    assert Justified(plan, Run(plan, s, events).log, i);
  }

  // ----- Playing effects -----

  lemma PlayOne(s: System, a: Effect)
    ensures Play(s, [a]) == Perform(s, a)
  {
  }

  lemma PlayTwo(s: System, a: Effect, b: Effect)
    ensures Play(s, [a]) == Perform(s, a) && Play(s, [a, b]) == Perform(Perform(s, a), b)
  {
    hide Apply;
    PlayOne(s, a);
    PlayOne(Perform(s, a), b);
    assert [a, b][1..] == [b];
  }

  lemma NothingPlayed(s: System)
    ensures Play(s, []) == s
  {
  }

  lemma {:induction false} LogGrows(s: System, effects: seq<Effect>)
    ensures s.log <= Play(s, effects).log
    decreases |effects|
  {
    hide Apply;
    if effects != [] {
      LogGrows(Perform(s, effects[0]), effects[1..]);
    }
  }

  lemma {:induction false} RunAppend(plan: Plan, s: System, a: seq<Event>, b: seq<Event>)
    ensures Run(plan, s, a + b) == Run(plan, Run(plan, s, a), b)
    decreases |a|
  {
    hide Step;
    if a == [] {
      assert a + b == b;
    } else {
      assert (a + b)[1..] == a[1..] + b;
      RunAppend(plan, Step(plan, s, a[0]), a[1..], b);
    }
  }

  lemma RunOne(plan: Plan, s: System, event: Event)
    ensures Run(plan, s, [event]) == Step(plan, s, event)
  {
    hide Step;
  }
}
