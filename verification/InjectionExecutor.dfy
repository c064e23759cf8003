/** The injection activities and the workflow that drives them, on the stored row. */
module InjectionExecutor {
  import opened Wrappers
  import opened Files
  import opened Decision
  import opened Pieces
  import opened Injection

  /** The part of a list of effects that happens before a crash. */
  function Happening(effects: seq<Effect>, budget: nat): seq<Effect> {
    if budget < |effects| then effects[..budget] else effects
  }

  lemma HappeningAfter(e: Effect, rest: seq<Effect>, budget: nat)
    ensures budget > 0 ==> Happening([e] + rest, budget) == [e] + Happening(rest, budget - 1)
    ensures budget == 0 ==> Happening([e] + rest, budget) == []
  {
  }

  lemma HappeningOfFour(a: Effect, b: Effect, c: Effect, d: Effect, budget: nat)
    ensures Happening([a, b, c, d], budget) ==
      if budget == 0 then [] else if budget == 1 then [a] else if budget == 2 then [a] + [b]
      else if budget == 3 then [a] + [b] + [c] else [a] + [b] + [c] + [d]
  {
  }

  lemma {:induction false} PlayMore(s: System, effects: seq<Effect>, e: Effect)
    ensures Play(s, effects + [e]) == Perform(Play(s, effects), e)
    decreases |effects|
  {
    hide Apply;
    if effects == [] {
      PlayOne(s, e);
      assert effects + [e] == [e];
    } else {
      assert (effects + [e])[1..] == effects[1..] + [e];
      PlayMore(Perform(s, effects[0]), effects[1..], e);
    }
  }

  /** One execution of an activity: what it is shown, how many effects it lives for, whether its result is
      lost although it lived for all of them, and whether its retries end with it when it fails. */
  datatype Turn = Turn(obs: Observation, budget: nat, lost: bool, giveUp: bool)

  lemma RunNothing(plan: Plan, s: System)
    ensures Run(plan, s, []) == s
  {
  }

  lemma RunFurther(plan: Plan, s: System, events: seq<Event>, s': System, event: Event)
    requires s' == Run(plan, s, events) && Sound(plan, s')
    ensures Run(plan, s, events + [event]) == Step(plan, s', event) && Sound(plan, Step(plan, s', event))
  {
    hide *;
    RunAppend(plan, s, events, [event]);
    RunOne(plan, s', event);
    StepKeepsSound(plan, s', event);
  }

  lemma RunOn(plan: Plan, s: System, events: seq<Event>, s1: System, more: seq<Event>, s2: System)
    requires s1 == Run(plan, s, events) && s2 == Run(plan, s1, more) && Sound(plan, s1)
    ensures s2 == Run(plan, s, events + more) && Sound(plan, s2)
  {
    hide *;
    RunAppend(plan, s, events, more);
    RunKeepsSound(plan, s1, more);
  }

  lemma NextStages(r: StepResult)
    ensures r.Terminal? ==> forall stage :: NextStage(stage, Some(r)) == Ended
    ensures !r.Terminal? ==> NextStage(Preparing, Some(r)) == if r == Ready then Materializing else Preparing
    ensures !r.Terminal? ==> NextStage(Materializing, Some(r)) == if r == Ready then Rechecking else Ended
    ensures !r.Terminal? ==> NextStage(Rechecking, Some(r)) == Observing
    ensures !r.Terminal? ==> NextStage(Observing, Some(r)) == if r == Waiting then Observing else Ended
  {
  }

  lemma PresentWhenObserving(plan: Plan, s: System)
    requires Sound(plan, s)
    ensures s.stage == Observing ==> s.row.state != Absent
  {
  }

  lemma StaysWithout(stage: Stage, r: Option<StepResult>)
    ensures r == None ==> NextStage(stage, r) == stage
  {
  }

  lemma GivesUpEnds(plan: Plan, s: System)
    ensures Step(plan, s, GiveUp) == s.(stage := Ended)
  {
  }

  /** Executes the activities of one plan. After `budget` more effects the process crashes. */
  class Executor {
    const plan: Plan
    var row: Row
    var log: seq<Entry>
    var budget: nat
    ghost var start: System
    ghost var performed: seq<Effect>

    /** The row and the log are what the effects performed so far made of the start. */
    ghost predicate Valid()
      reads this
    {
      start.(row := row, log := log) == Play(start, performed)
    }

    constructor (plan: Plan, s: System, budget: nat)
      ensures Valid() && this.plan == plan && start == s && row == s.row && log == s.log && this.budget == budget && performed == []
    {
      this.plan := plan;
      row, log, this.budget := s.row, s.log, budget;
      start, performed := s, [];
    }

    method Do(e: Effect) returns (ok: bool)
      requires Valid()
      modifies this
      ensures Valid() && start == old(start)
      ensures ok <==> old(budget) > 0
      ensures ok ==> row == Apply(old(row), e) && performed == old(performed) + [e] && budget == old(budget) - 1
      ensures !ok ==> row == old(row) && performed == old(performed) && budget == 0
    {
      hide Apply, Play;
      if budget == 0 {
        return false;
      }
      PlayMore(start, performed, e);
      row, log, budget := Apply(row, e), log + [Entry(row, e)], budget - 1;
      performed := performed + [e];
      return true;
    }

    method Fail(reason: string) returns (r: Option<StepResult>)
      requires Valid()
      modifies this
      ensures Valid() && start == old(start)
      ensures performed == old(performed) + Happening(FailScript([], reason).effects, old(budget))
      ensures r == if old(budget) >= 4 then FailScript([], reason).result else None
    {
      hide Apply, Play, Happening;
      HappeningOfFour(Publish(PlanTable, Failed), RecordFailed, Publish(CandidateTable, Failed), Publish(TaskProjection, Failed), budget);
      assert FailScript([], reason).effects ==
             [Publish(PlanTable, Failed), RecordFailed, Publish(CandidateTable, Failed), Publish(TaskProjection, Failed)];
      var ok := Do(Publish(PlanTable, Failed));
      if !ok {
        return None;
      }
      ok := Do(RecordFailed);
      if !ok {
        return None;
      }
      ok := Do(Publish(CandidateTable, Failed));
      if !ok {
        return None;
      }
      ok := Do(Publish(TaskProjection, Failed));
      return if ok then Some(Terminal(false, reason)) else None;
    }

    method Prepare(obs: Observation) returns (r: Option<StepResult>)
      requires Valid()
      modifies this
      ensures Valid() && start == old(start)
      ensures performed == old(performed) + Happening(PrepareScript(obs).effects, old(budget))
      ensures r == if old(budget) >= |PrepareScript(obs).effects| then PrepareScript(obs).result else None
    {
      hide Apply, Play, IsStopped;
      if !obs.configured {
        r := Fail("qbittorrent_unconfigured");
        return;
      }
      if obs.conflict {
        r := Fail("qbittorrent_identity_conflict");
        return;
      }
      if obs.torrent == None {
        var ok := Do(AddStopped);
        return if ok then Some(Waiting) else None;
      }
      var t := obs.torrent.value;
      if !t.samePath || t.autoManaged {
        r := Fail("qbittorrent_identity_conflict");
        return;
      }
      if !IsStopped(t) {
        var ok := Do(StopTorrent);
        return if ok then Some(Waiting) else None;
      }
      var ok := Do(RecordPrepared(t));
      if !ok {
        return None;
      }
      ok := Do(Publish(PlanTable, AddedStopped));
      return if ok then Some(Ready) else None;
    }

    method Materialize(obs: Observation) returns (r: Option<StepResult>)
      requires Valid()
      modifies this
      ensures Valid() && start == old(start)
      ensures performed == old(performed) + Happening(MaterializeScript(obs).effects, old(budget))
      ensures r == if old(budget) >= |MaterializeScript(obs).effects| then MaterializeScript(obs).result else None
    {
      hide Apply, Play, IsStopped, LinkScript, Happening;
      if !obs.configured {
        r := Fail("qbittorrent_unconfigured");
        return;
      }
      if obs.torrent == None {
        r := Fail("injected_torrent_missing");
        return;
      }
      var t := obs.torrent.value;
      if !IsStopped(t) || t.autoManaged || !t.samePath {
        r := Fail("qbittorrent_not_stopped");
        return;
      }
      r := StoreLinks(obs.links);
    }

    method StoreLinks(links: Links) returns (r: Option<StepResult>)
      requires Valid()
      modifies this
      ensures Valid() && start == old(start)
      ensures performed == old(performed) + Happening(LinkScript(links).effects, old(budget))
      ensures r == if old(budget) >= |LinkScript(links).effects| then LinkScript(links).result else None
    {
      hide Apply, Play;
      match links
      case Unmapped =>
        r := Fail("unmapped_source_root");
      case Unopened(reason) =>
        r := Fail(reason);
      case Stopped(reason) =>
        r := StoreSome(reason);
      case AllLinked =>
        var ok := Do(RecordLinks(true));
        return if ok then Some(Ready) else None;
    }

    /** Some links were made before one failed. */
    method StoreSome(reason: string) returns (r: Option<StepResult>)
      requires Valid()
      modifies this
      ensures Valid() && start == old(start)
      ensures performed == old(performed) + Happening(FailScript([RecordLinks(false)], reason).effects, old(budget))
      ensures r == if old(budget) >= 5 then FailScript([RecordLinks(false)], reason).result else None
    {
      hide Apply, Play, Happening;
      HappeningAfter(RecordLinks(false), FailScript([], reason).effects, budget);
      assert FailScript([RecordLinks(false)], reason).effects == [RecordLinks(false)] + FailScript([], reason).effects;
      var ok := Do(RecordLinks(false));
      if !ok {
        return None;
      }
      r := Fail(reason);
    }

    method Recheck(obs: Observation) returns (r: Option<StepResult>)
      requires Valid()
      modifies this
      ensures Valid() && start == old(start)
      ensures performed == old(performed) + Happening(RecheckScript(obs).effects, old(budget))
      ensures r == if old(budget) >= |RecheckScript(obs).effects| then RecheckScript(obs).result else None
    {
      hide Apply, Play;
      if !obs.configured {
        r := Fail("qbittorrent_unconfigured");
        return;
      }
      var ok := Do(RequestRecheck);
      if !ok {
        return None;
      }
      ok := Do(RecordRechecked);
      if !ok {
        return None;
      }
      ok := Do(ResetAttempts);
      return if ok then Some(Waiting) else None;
    }

    method Observe(obs: Observation) returns (r: Option<StepResult>)
      requires Valid() && row.state != Absent
      modifies this
      ensures Valid() && start == old(start)
      ensures performed == old(performed) + Happening(ObserveScript(plan, old(row), obs).effects, old(budget))
      ensures r == if old(budget) >= |ObserveScript(plan, old(row), obs).effects| then ObserveScript(plan, old(row), obs).result else None
    {
      hide Play, Apply, IsStopped, IsChecking, IsQueued, IsStarted, ResumeAllowed, Swept, VerifyScript, InspectScript, WaitScript;
      if !obs.configured {
        r := Fail("qbittorrent_unconfigured");
        return;
      }
      if obs.torrent == None {
        r := Fail("injected_torrent_missing");
        return;
      }
      var t := obs.torrent.value;
      if row.state == Finalizing {
        r := VerifyFinal(t);
        return;
      }
      match Observes(row, t)
      case SeesChecking =>
        var ok := Do(RecordObservation(t, Checking));
        return if ok then Some(Waiting) else None;
      case SeesSettling =>
        var ok := Do(RecordObservation(t, RecheckSettling));
        return if ok then Some(Waiting) else None;
      case SeesWaiting =>
        r := Wait(t, []);
      case SeesInspect =>
        r := InspectAndDecide(t, obs.pieces);
    }

    method InspectAndDecide(t: Torrent, pieces: seq<nat>) returns (r: Option<StepResult>)
      requires Valid()
      modifies this
      ensures Valid() && start == old(start)
      ensures performed == old(performed) + Happening(InspectScript(plan, t, pieces).effects, old(budget))
      ensures r == if old(budget) >= |InspectScript(plan, t, pieces).effects| then InspectScript(plan, t, pieces).result else None
    {
      hide Play, Apply, ResumeAllowed, Swept;
      var inspection := InspectPieces(plan.manifest, plan.mapped, pieces);
      if inspection.Failure? {
        return None;
      }
      var report := inspection.value;
      var resume := report.integritySafe && ResumeAllowed(plan.policy, t.amountLeft, report);
      var ok := Do(RecordDecision(t, pieces, report.integritySafe, if resume then Resume else Stop));
      if !ok {
        return None;
      }
      if resume {
        ok := Do(StartTorrent);
      } else {
        ok := Do(StopTorrent);
      }
      return if ok then Some(Waiting) else None;
    }

    method VerifyFinal(t: Torrent) returns (r: Option<StepResult>)
      requires Valid() && row.state == Finalizing
      modifies this
      ensures Valid() && start == old(start)
      ensures performed == old(performed) + Happening(VerifyScript(old(row), t).effects, old(budget))
      ensures r == if old(budget) >= |VerifyScript(old(row), t).effects| then VerifyScript(old(row), t).result else None
    {
      hide Play, Apply, IsStopped, IsStarted, WaitScript;
      var resume := row.choice == Some(Resume);
      if (resume && IsStarted(t)) || (!resume && IsStopped(t)) {
        r := Finish(t, resume);
        return;
      }
      r := Wait(t, [if resume then StartTorrent else StopTorrent]);
    }

    /** Counts an observation; the command that may follow is sent while attempts remain. */
    method Wait(t: Torrent, next: seq<Effect>) returns (r: Option<StepResult>)
      requires Valid() && row.state != Absent && |next| <= 1
      modifies this
      ensures Valid() && start == old(start)
      ensures performed == old(performed) + Happening(WaitScript(old(row), t, next).effects, old(budget))
      ensures r == if old(budget) >= |WaitScript(old(row), t, next).effects| then WaitScript(old(row), t, next).result else None
    {
      hide Play;
      HappeningAfter(Bump(t), FailScript([], "ambiguous_qbittorrent_state").effects, budget);
      var ok := Do(Bump(t));
      if !ok {
        return None;
      }
      if row.attempts >= MAX_FINAL_VERIFY_ATTEMPTS {
        r := Fail("ambiguous_qbittorrent_state");
        return;
      }
      if next != [] {
        ok := Do(next[0]);
      }
      return if ok then Some(Waiting) else None;
    }

    method Finish(t: Torrent, resumed: bool) returns (r: Option<StepResult>)
      requires Valid()
      modifies this
      ensures Valid() && start == old(start)
      ensures performed == old(performed) + Happening(
                [RecordCompleted(t), Publish(PlanTable, Completed), Publish(CandidateTable, Completed), Publish(TaskProjection, Completed)], old(budget))
      ensures r == if old(budget) >= 4 then Some(Terminal(true, if resumed then "resumed" else "left_stopped")) else None
    {
      hide Apply, Play, Happening;
      HappeningOfFour(RecordCompleted(t), Publish(PlanTable, Completed), Publish(CandidateTable, Completed), Publish(TaskProjection, Completed), budget);
      var ok := Do(RecordCompleted(t));
      if !ok {
        return None;
      }
      ok := Do(Publish(PlanTable, Completed));
      if !ok {
        return None;
      }
      ok := Do(Publish(CandidateTable, Completed));
      if !ok {
        return None;
      }
      ok := Do(Publish(TaskProjection, Completed));
      return if ok then Some(Terminal(true, if resumed then "resumed" else "left_stopped")) else None;
    }

    /** Executes the activity of a stage once: it completes, fails, crashes with its budget, or loses its result. */
    method Execute(stage: Stage, turn: Turn) returns (r: Option<StepResult>, ghost event: Event)
      requires stage != Ended && (stage == Observing ==> row.state != Absent)
      modifies this
      ensures event.Complete? || event.Cut?
      ensures turn.lost ==> r == None
      ensures System(NextStage(stage, r), row, log) == Step(plan, System(stage, old(row), old(log)), event)
    {
      hide Play, Apply, PrepareScript, MaterializeScript, RecheckScript, ObserveScript;
      budget := turn.budget;
      start, performed := System(stage, row, log), [];
      NothingPlayed(start);
      ghost var script := ScriptOf(plan, start, turn.obs);
      match stage {
        case Preparing =>
          r := Prepare(turn.obs);
        case Materializing =>
          r := Materialize(turn.obs);
        case Rechecking =>
          r := Recheck(turn.obs);
        case Observing =>
          r := Observe(turn.obs);
      }
      assert performed == Happening(script.effects, turn.budget);
      event := if turn.budget < |script.effects| then Cut(turn.obs, turn.budget) else Complete(turn.obs);
      if turn.lost {
        r, event := None, Cut(turn.obs, |performed|);
        assert script.effects[..|performed|] == performed;
      }
    }

    /** An activity with its retries, as long as there are turns: it ends with a result, or the
        workflow gives up. */
    method Attempt(stage: Stage, turns: seq<Turn>, from: nat) returns (r: Option<StepResult>, next: nat, ghost s: System, ghost events: seq<Event>)
      requires from <= |turns| && stage != Ended && Sound(plan, System(stage, row, log))
      modifies this
      ensures from <= next <= |turns| && (r.Some? ==> from < next)
      ensures s.row == row && s.log == log && s == Run(plan, System(stage, old(row), old(log)), events) && Restart !in events
      ensures r.Some? ==> s.stage == NextStage(stage, r)
      ensures r.None? ==> s.stage == stage || s.stage == Ended
    {
      hide *;
      next, events, r := from, [], None;
      s := System(stage, row, log);
      RunNothing(plan, s);
      while next < |turns|
        invariant from <= next <= |turns|
        invariant s == System(stage, row, log) && s == Run(plan, System(stage, old(row), old(log)), events) && Restart !in events
        invariant Sound(plan, s) && r == None
      {
        ghost var event;
        PresentWhenObserving(plan, s);
        r, event := Execute(stage, turns[next]);
        RunFurther(plan, System(stage, old(row), old(log)), events, s, event);
        s, events := Step(plan, s, event), events + [event];
        next := next + 1;
        StaysWithout(stage, r);
        if r.Some? {
          return;
        }
        if turns[next - 1].giveUp {
          RunFurther(plan, System(stage, old(row), old(log)), events, s, GiveUp);
          GivesUpEnds(plan, s);
          s, events := Step(plan, s, GiveUp), events + [GiveUp];
          return;
        }
      }
    }

    /** The workflow: prepare until ready, materialise, request the recheck, observe until the end.
        Whatever it is shown and wherever it is cut, what it leaves is a run of the state machine, so
        everything proved of every run holds of it. It returns only with a terminal result. */
    method RunWorkflow(turns: seq<Turn>) returns (r: Option<StepResult>, ghost s: System, ghost events: seq<Event>)
      requires Sound(plan, System(Preparing, row, log))
      modifies this
      ensures s.row == row && s.log == log && Restart !in events
      ensures s == Run(plan, System(Preparing, old(row), old(log)), events) && Sound(plan, s)
      ensures r.Some? ==> r.value.Terminal? && s.stage == Ended
    {
      hide *;
      ghost var first := System(Preparing, row, log);
      ghost var more: seq<Event>, last: System;
      var next: nat, stage, step: Option<StepResult> := 0, Preparing, None;
      s, events := first, [];
      RunNothing(plan, s);
      while stage == Preparing
        invariant next <= |turns| && (stage == Preparing || stage == Materializing)
        invariant s == System(stage, row, log) && s == Run(plan, first, events) && Sound(plan, s) && Restart !in events
        decreases stage == Preparing, |turns| - next
      {
        last := s;
        step, next, s, more := Attempt(Preparing, turns, next);
        RunOn(plan, first, events, last, more, s);
        events := events + more;
        if step == None {
          return None, s, events;
        }
        NextStages(step.value);
        if step.value.Terminal? {
          return step, s, events;
        }
        if step.value == Ready {
          stage := Materializing;
        }
      }
      last := s;
      step, next, s, more := Attempt(Materializing, turns, next);
      RunOn(plan, first, events, last, more, s);
      events := events + more;
      if step == None {
        return None, s, events;
      }
      NextStages(step.value);
      if step.value != Ready {
        return if step.value.Terminal? then step else None, s, events;
      }
      last := s;
      step, next, s, more := Attempt(Rechecking, turns, next);
      RunOn(plan, first, events, last, more, s);
      events := events + more;
      if step == None {
        return None, s, events;
      }
      NextStages(step.value);
      if step.value.Terminal? {
        return step, s, events;
      }
      while true
        invariant next <= |turns|
        invariant s == System(Observing, row, log) && s == Run(plan, first, events) && Sound(plan, s) && Restart !in events
        decreases |turns| - next
      {
        last := s;
        step, next, s, more := Attempt(Observing, turns, next);
        RunOn(plan, first, events, last, more, s);
        events := events + more;
        if step == None {
          return None, s, events;
        }
        NextStages(step.value);
        if step.value != Waiting {
          return if step.value.Terminal? then step else None, s, events;
        }
      }
    }
  }
}
