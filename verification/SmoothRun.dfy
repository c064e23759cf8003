/** The run in which nothing goes wrong, effect by effect, and what every end of the workflow leaves. */
module SmoothRun {
  import opened Wrappers
  import opened Files
  import opened Decision
  import opened Pieces
  import opened Injection
  import opened LongestRuns
  import Completion

  function Effects(log: seq<Entry>): (effects: seq<Effect>) {
    seq(|log|, k requires 0 <= k < |log| => log[k].effect)
  }

  lemma {:induction false} PlayedEffects(s: System, effects: seq<Effect>)
    ensures Effects(Play(s, effects).log) == Effects(s.log) + effects
    decreases |effects|
  {
    hide Apply;
    if effects != [] {
      PlayedEffects(Perform(s, effects[0]), effects[1..]);
      assert Effects(Perform(s, effects[0]).log) == Effects(s.log) + [effects[0]];
      assert effects == [effects[0]] + effects[1..];
    } else {
      assert effects == [];
    }
  }

  /** An event completes an activity that performs just these effects. */
  ghost predicate Does(plan: Plan, s: System, event: Event, effects: seq<Effect>, s': System) {
    Step(plan, s, event) == s' && Effects(s'.log) == Effects(s.log) + effects
  }

  /** A run leads here and has performed just these effects. */
  ghost predicate Came(plan: Plan, events: seq<Event>, effects: seq<Effect>, s: System) {
    Run(plan, Untouched(), events) == s && Effects(s.log) == effects
  }

  lemma Next(plan: Plan, events: seq<Event>, effects: seq<Effect>, s: System, event: Event, more: seq<Effect>, s': System)
    requires Came(plan, events, effects, s) && Does(plan, s, event, more, s')
    ensures Came(plan, events + [event], effects + more, s')
  {
    hide Run, Step, Effects;
    RunAppend(plan, Untouched(), events, [event]);
    RunOne(plan, s, event);
  }

  /** A client that does not know the torrent. */
  function Gone(): Observation {
    Observation(true, false, None, AllLinked, [])
  }

  lemma Adds(plan: Plan, s: System) returns (s': System)
    requires s.stage == Preparing
    ensures Does(plan, s, Complete(Gone()), [AddStopped], s') && s'.stage == Preparing && s'.row == s.row
  {
    PlayedEffects(s, [AddStopped]);
    PlayOne(s, AddStopped);
    s' := Step(plan, s, Complete(Gone()));
  }

  lemma Stops(plan: Plan, pieces: seq<nat>, s: System) returns (s': System)
    requires s.stage == Preparing
    ensures Does(plan, s, Complete(Seen("uploading", pieces)), [StopTorrent], s') && s'.stage == Preparing && s'.row == s.row
  {
    PlayedEffects(s, [StopTorrent]);
    PlayOne(s, StopTorrent);
    assert Seen("uploading", pieces).torrent.value.state[0] == 'u';
    assert !IsStopped(Seen("uploading", pieces).torrent.value);
    s' := Step(plan, s, Complete(Seen("uploading", pieces)));
  }

  lemma Records(plan: Plan, pieces: seq<nat>, s: System) returns (s': System)
    requires s.stage == Preparing
    ensures Does(plan, s, Complete(Seen("stoppedUP", pieces)),
                 [RecordPrepared(Seen("stoppedUP", pieces).torrent.value), Publish(PlanTable, AddedStopped)], s')
    ensures s'.stage == Materializing && s'.row.state == AddedStopped
  {
    var t := Seen("stoppedUP", pieces).torrent.value;
    assert IsStopped(t);
    PlayedEffects(s, [RecordPrepared(t), Publish(PlanTable, AddedStopped)]);
    PlayTwo(s, RecordPrepared(t), Publish(PlanTable, AddedStopped));
    s' := Step(plan, s, Complete(Seen("stoppedUP", pieces)));
  }

  lemma LinksAll(plan: Plan, pieces: seq<nat>, s: System) returns (s': System)
    requires s.stage == Materializing && s.row.state != Absent
    ensures Does(plan, s, Complete(Seen("stoppedUP", pieces)), [RecordLinks(true)], s')
    ensures s'.stage == Rechecking && s'.row.state == LinksComplete
  {
    assert IsStopped(Seen("stoppedUP", pieces).torrent.value);
    PlayedEffects(s, [RecordLinks(true)]);
    PlayOne(s, RecordLinks(true));
    s' := Step(plan, s, Complete(Seen("stoppedUP", pieces)));
  }

  lemma AsksRecheck(plan: Plan, pieces: seq<nat>, s: System) returns (s': System)
    requires s.stage == Rechecking && s.row.state != Absent
    ensures Does(plan, s, Complete(Seen("stoppedUP", pieces)), [RequestRecheck, RecordRechecked, ResetAttempts], s')
    ensures At(s', RecheckRequested, 0)
  {
    PlayedEffects(s, [RequestRecheck, RecordRechecked, ResetAttempts]);
    s' := Rechecks(plan, pieces, s);
  }

  lemma SettlesFirst(plan: Plan, pieces: seq<nat>, s: System) returns (s': System)
    requires At(s, RecheckRequested, 0)
    ensures Does(plan, s, Complete(Seen("moving", pieces)), [RecordObservation(Seen("moving", pieces).torrent.value, RecheckSettling)], s')
    ensures At(s', RecheckSettling, 0)
  {
    var t := Seen("moving", pieces).torrent.value;
    assert !IsChecking(t) && !IsQueued(t);
    PlayedEffects(s, [RecordObservation(t, RecheckSettling)]);
    s' := Settles(plan, pieces, s);
  }

  /** What the plan decides about a torrent that lacks nothing. */
  ghost function Decides(plan: Plan, pieces: seq<nat>): Choice
    requires Inspectable(plan, pieces)
  {
    var report := Swept(plan.manifest, plan.mapped, pieces).value;
    if report.integritySafe && PolicyMet(plan.policy, 0, report) then Resume else Stop
  }

  ghost function DecisionOf(plan: Plan, pieces: seq<nat>): Effect
    requires Inspectable(plan, pieces)
  {
    RecordDecision(Seen("moving", pieces).torrent.value, pieces, Swept(plan.manifest, plan.mapped, pieces).value.integritySafe, Decides(plan, pieces))
  }

  lemma InspectsOnce(plan: Plan, pieces: seq<nat>, s: System) returns (s': System)
    requires At(s, RecheckSettling, 0) && Inspectable(plan, pieces)
    ensures Does(plan, s, Complete(Seen("moving", pieces)),
                 [DecisionOf(plan, pieces), if Decides(plan, pieces) == Resume then StartTorrent else StopTorrent], s')
    ensures Verifying(s', 0)
    ensures s'.row == Row(Finalizing, Some(Swept(plan.manifest, plan.mapped, pieces).value.integritySafe), Some(Decides(plan, pieces)), 0, "moving", 0)
  {
    hide Swept, ResumeAllowed, PolicyMet;
    var t := Seen("moving", pieces).torrent.value;
    assert !IsChecking(t) && !IsQueued(t);
    var report := Swept(plan.manifest, plan.mapped, pieces).value;
    AllowedIsMet(plan.policy, t.amountLeft, report);
    var script := InspectScript(plan, t, pieces);
    var command := if Decides(plan, pieces) == Resume then StartTorrent else StopTorrent;
    assert script.effects == [DecisionOf(plan, pieces), command];
    PlayedEffects(s, script.effects);
    PlayTwo(s, script.effects[0], script.effects[1]);
    s' := Step(plan, s, Complete(Seen("moving", pieces)));
  }

  lemma Completes(plan: Plan, pieces: seq<nat>, s: System) returns (s': System)
    requires Verifying(s, 0)
    ensures Does(plan, s, Complete(Completion.Agreeing(s, pieces)),
                 [RecordCompleted(Completion.Agreeing(s, pieces).torrent.value), Publish(PlanTable, Completed), Publish(CandidateTable, Completed),
                  Publish(TaskProjection, Completed)], s')
    ensures s'.stage == Ended
    ensures s'.row == s.row.(state := Completed, qbitState := Completion.Agreeing(s, pieces).torrent.value.state, amountLeft := 0)
  {
    var obs := Completion.Agreeing(s, pieces);
    var t := obs.torrent.value;
    assert if s.row.choice == Some(Resume) then IsStarted(t) else IsStopped(t);
    var effects := [RecordCompleted(t), Publish(PlanTable, Completed), Publish(CandidateTable, Completed), Publish(TaskProjection, Completed)];
    assert ObserveScript(plan, s.row, obs).effects == effects;
    hide IsStarted, IsStopped;
    PlayedEffects(s, effects);
    Completion.CompletionPlayed(s, t);
    PublishingKeeps(s, effects);
    s' := Step(plan, s, Complete(obs));
  }

  lemma PublishingKeeps(s: System, effects: seq<Effect>)
    requires |effects| == 4 && effects[1].Publish? && effects[2].Publish? && effects[3].Publish?
    ensures Play(s, effects).row == Apply(s.row, effects[0]) && Play(s, effects).stage == s.stage
  {
    var s1 := Perform(s, effects[0]);
    var s2 := Perform(s1, effects[1]);
    PlayTwo(s2, effects[2], effects[3]);
    assert effects[1..][1..] == [effects[2], effects[3]];
    assert Play(s, effects) == Play(s1, effects[1..]) == Play(s2, [effects[2], effects[3]]);
  }

  /** What the client is shown when nothing goes wrong, up to the observations and during them. */
  function Opening(pieces: seq<nat>): seq<Event> {
    [Complete(Gone()), Complete(Seen("uploading", pieces)), Complete(Seen("stoppedUP", pieces)),
     Complete(Seen("stoppedUP", pieces)), Complete(Seen("stoppedUP", pieces))]
  }

  ghost function Closing(plan: Plan, pieces: seq<nat>): seq<Event>
    requires Inspectable(plan, pieces)
  {
    [Complete(Seen("moving", pieces)), Complete(Seen("moving", pieces)),
     Complete(Seen(if Decides(plan, pieces) == Resume then "uploading" else "stoppedUP", pieces))]
  }

  function OpeningEffects(stopped: Torrent): seq<Effect> {
    [AddStopped, StopTorrent, RecordPrepared(stopped), Publish(PlanTable, AddedStopped), RecordLinks(true),
     RequestRecheck, RecordRechecked, ResetAttempts]
  }

  ghost function ClosingEffects(plan: Plan, pieces: seq<nat>, moving: Torrent, last: Torrent): seq<Effect>
    requires Inspectable(plan, pieces)
  {
    [RecordObservation(moving, RecheckSettling), DecisionOf(plan, pieces),
     if Decides(plan, pieces) == Resume then StartTorrent else StopTorrent,
     RecordCompleted(last), Publish(PlanTable, Completed), Publish(CandidateTable, Completed), Publish(TaskProjection, Completed)]
  }

  lemma SmoothOpening(plan: Plan, pieces: seq<nat>) returns (s: System)
    ensures Came(plan, Opening(pieces), OpeningEffects(Seen("stoppedUP", pieces).torrent.value), s) && At(s, RecheckRequested, 0)
  {
    hide *;
    var gone, running, stopped := Complete(Gone()), Complete(Seen("uploading", pieces)), Complete(Seen("stoppedUP", pieces));
    CameNowhere(plan);
    UntouchedPrepares();
    var s1 := Adds(plan, Untouched());
    Next(plan, [], [], Untouched(), gone, [AddStopped], s1);
    var s2 := Stops(plan, pieces, s1);
    Next(plan, [] + [gone], [] + [AddStopped], s1, running, [StopTorrent], s2);
    var s3 := Records(plan, pieces, s2);
    var m := [RecordPrepared(Seen("stoppedUP", pieces).torrent.value), Publish(PlanTable, AddedStopped)];
    Next(plan, [] + [gone] + [running], [] + [AddStopped] + [StopTorrent], s2, stopped, m, s3);
    var s4 := LinksAll(plan, pieces, s3);
    Next(plan, [] + [gone] + [running] + [stopped], [] + [AddStopped] + [StopTorrent] + m, s3, stopped, [RecordLinks(true)], s4);
    s := AsksRecheck(plan, pieces, s4);
    Next(plan, [] + [gone] + [running] + [stopped] + [stopped], [] + [AddStopped] + [StopTorrent] + m + [RecordLinks(true)],
         s4, stopped, [RequestRecheck, RecordRechecked, ResetAttempts], s);
    OpeningIs(pieces);
  }

  lemma OpeningIs(pieces: seq<nat>)
    ensures var gone, running, stopped := Complete(Gone()), Complete(Seen("uploading", pieces)), Complete(Seen("stoppedUP", pieces));
      var t := Seen("stoppedUP", pieces).torrent.value;
      && Opening(pieces) == [] + [gone] + [running] + [stopped] + [stopped] + [stopped]
      && OpeningEffects(t) == [] + [AddStopped] + [StopTorrent] + [RecordPrepared(t), Publish(PlanTable, AddedStopped)] + [RecordLinks(true)]
                              + [RequestRecheck, RecordRechecked, ResetAttempts]
  {
    hide Seen;
  }

  lemma CameNowhere(plan: Plan)
    ensures Came(plan, [], [], Untouched())
  {
  }

  lemma UntouchedPrepares()
    ensures Initial(Untouched()) && Untouched().stage == Preparing
  {
  }

  /** For every plan and all piece states that can be inspected, the workflow adds the torrent stopped, stops
      it should it run, stores that it is added, links the files, requests the recheck, waits until it settled,
      stores the decision of the plan, sends the command for it, and completes: these effects, in this order,
      and no others. */
  lemma SmoothRunCompletes(plan: Plan, pieces: seq<nat>)
    requires Inspectable(plan, pieces)
    ensures Initial(Untouched())
    ensures var s := Run(plan, Untouched(), Opening(pieces) + Closing(plan, pieces));
      var stopped, moving := Seen("stoppedUP", pieces).torrent.value, Seen("moving", pieces).torrent.value;
      var last := Seen(if Decides(plan, pieces) == Resume then "uploading" else "stoppedUP", pieces).torrent.value;
      && s.stage == Ended
      && s.row == Row(Completed, Some(Swept(plan.manifest, plan.mapped, pieces).value.integritySafe), Some(Decides(plan, pieces)), 0, last.state, 0)
      && Effects(s.log) == OpeningEffects(stopped) + ClosingEffects(plan, pieces, moving, last)
  {
    hide *;
    UntouchedPrepares();
    var choice := Decides(plan, pieces);
    var moving, t := Complete(Seen("moving", pieces)), Seen("moving", pieces).torrent.value;
    var s5 := SmoothOpening(plan, pieces);
    var e, f := Opening(pieces), OpeningEffects(Seen("stoppedUP", pieces).torrent.value);
    var s6 := SettlesFirst(plan, pieces, s5);
    Next(plan, e, f, s5, moving, [RecordObservation(t, RecheckSettling)], s6);
    var s7 := InspectsOnce(plan, pieces, s6);
    var m := [DecisionOf(plan, pieces), if choice == Resume then StartTorrent else StopTorrent];
    Next(plan, e + [moving], f + [RecordObservation(t, RecheckSettling)], s6, moving, m, s7);
    var s8 := Completes(plan, pieces, s7);
    AgreeingIs(s7, pieces);
    var last := Seen(if choice == Resume then "uploading" else "stoppedUP", pieces);
    var m' := [RecordCompleted(last.torrent.value), Publish(PlanTable, Completed), Publish(CandidateTable, Completed), Publish(TaskProjection, Completed)];
    Next(plan, e + [moving] + [moving], f + [RecordObservation(t, RecheckSettling)] + m, s7, Complete(last), m', s8);
    ClosingIs(plan, pieces, e, f, t, last.torrent.value);
    CameMeans(plan, e + [moving] + [moving] + [Complete(last)], f + [RecordObservation(t, RecheckSettling)] + m + m', s8);
  }

  lemma AgreeingIs(s: System, pieces: seq<nat>)
    ensures Completion.Agreeing(s, pieces) == Seen(if s.row.choice == Some(Resume) then "uploading" else "stoppedUP", pieces)
  {
  }

  lemma ClosingIs(plan: Plan, pieces: seq<nat>, e: seq<Event>, f: seq<Effect>, t: Torrent, last: Torrent)
    requires Inspectable(plan, pieces)
    ensures var moving := Complete(Seen("moving", pieces)); var choice := Decides(plan, pieces);
      && e + Closing(plan, pieces) ==
         e + [moving] + [moving] + [Complete(Seen(if choice == Resume then "uploading" else "stoppedUP", pieces))]
      && f + ClosingEffects(plan, pieces, t, last) ==
         f + [RecordObservation(t, RecheckSettling)] + [DecisionOf(plan, pieces), if choice == Resume then StartTorrent else StopTorrent]
         + [RecordCompleted(last), Publish(PlanTable, Completed), Publish(CandidateTable, Completed), Publish(TaskProjection, Completed)]
  {
    hide Seen, Decides, DecisionOf, Inspectable;
  }

  lemma CameMeans(plan: Plan, events: seq<Event>, effects: seq<Effect>, s: System)
    requires Came(plan, events, effects, s)
    ensures Run(plan, Untouched(), events) == s && Effects(s.log) == effects
  {
  }

  // ----- What every end leaves -----

  lemma {:induction false} FailureAfter(s: System, first: seq<Effect>, reason: string)
    requires s.row.state != Absent && forall e :: e in first ==> !e.RecordObservation?
    ensures Play(s, FailScript(first, reason).effects).row.state == Failed
    decreases |first|
  {
    if first == [] {
      Completion.FailurePlayed(s, reason);
    } else {
      assert first[0] in first;
      assert FailScript(first, reason).effects[1..] == FailScript(first[1..], reason).effects;
      hide FailScript;
      FailureAfter(Perform(s, first[0]), first[1..], reason);
    }
  }

  ghost predicate Announces(effects: seq<Effect>, state: RowState) {
    && (forall place, x :: Publish(place, x) in effects ==> x == state)
    && Publish(PlanTable, state) in effects && Publish(CandidateTable, state) in effects && Publish(TaskProjection, state) in effects
  }

  lemma FailAnnounces(first: seq<Effect>, reason: string)
    requires forall e :: e in first ==> !e.Publish?
    ensures Announces(FailScript(first, reason).effects, Failed)
  {
    var effects := FailScript(first, reason).effects;
    var n := |first|;
    assert effects[n] == Publish(PlanTable, Failed) && effects[n + 2] == Publish(CandidateTable, Failed)
           && effects[n + 3] == Publish(TaskProjection, Failed);
  }

  /** A script that fails: what comes before, and why. */
  lemma TerminalScripts(plan: Plan, s: System, obs: Observation) returns (first: seq<Effect>, reason: string)
    requires ScriptOf(plan, s, obs).result.Some? && ScriptOf(plan, s, obs).result.value.Terminal?
    ensures !ScriptOf(plan, s, obs).result.value.completed ==> ScriptOf(plan, s, obs) == FailScript(first, reason)
    ensures forall e :: e in first ==> !e.Publish? && !e.RecordObservation?
    ensures ScriptOf(plan, s, obs).result.value.completed ==>
              && s.stage == Observing && obs.torrent.Some?
              && ScriptOf(plan, s, obs).effects == [RecordCompleted(obs.torrent.value), Publish(PlanTable, Completed), Publish(CandidateTable, Completed),
                                                    Publish(TaskProjection, Completed)]
  {
    hide IsStopped, IsStarted, IsChecking, IsQueued, Swept, ResumeAllowed;
    var script := ScriptOf(plan, s, obs);
    first, reason := [], script.result.value.reason;
    if !script.result.value.completed && script != FailScript([], reason) {
      if s.stage == Materializing {
        first := [RecordLinks(false)];
      } else {
        first := [Bump(obs.torrent.value)];
      }
    }
  }

  /** An activity that ends the workflow leaves the row completed or failed, as it says, if there is a row, and
      publishes just that in the plan, the candidate and the task. */
  lemma EndsAreAnnounced(plan: Plan, s: System, obs: Observation)
    requires s.row.state != Absent
    requires ScriptOf(plan, s, obs).result.Some? && ScriptOf(plan, s, obs).result.value.Terminal?
    ensures var state := if ScriptOf(plan, s, obs).result.value.completed then Completed else Failed;
      && Step(plan, s, Complete(obs)).stage == Ended
      && Step(plan, s, Complete(obs)).row.state == state
      && Announces(ScriptOf(plan, s, obs).effects, state)
  {
    var script := ScriptOf(plan, s, obs);
    var first, reason := TerminalScripts(plan, s, obs);
    hide ScriptOf, FailScript, Play;
    if script.result.value.completed {
      Completion.CompletionPlayed(s, obs.torrent.value);
      CompletionAnnounces(obs.torrent.value);
    } else {
      FailureAfter(s, first, reason);
      FailAnnounces(first, reason);
    }
  }

  lemma CompletionAnnounces(t: Torrent)
    ensures Announces([RecordCompleted(t), Publish(PlanTable, Completed), Publish(CandidateTable, Completed), Publish(TaskProjection, Completed)], Completed)
  {
  }

  // ----- When the activities go on -----

  /** The client's states, by name. */
  lemma StatesMean(t: Torrent)
    ensures IsStopped(t) <==> |t.state| >= 7 && t.state[..7] == "stopped"
    ensures IsChecking(t) <==> |t.state| >= 8 && t.state[..8] == "checking"
    ensures IsQueued(t) <==> t.state == "queuedDL" || t.state == "queuedUP"
    ensures IsStarted(t) <==>
              || t.state == "downloading" || t.state == "forcedDL" || t.state == "queuedDL" || t.state == "stalledDL" || t.state == "metaDL"
              || t.state == "uploading" || t.state == "forcedUP" || t.state == "queuedUP" || t.state == "stalledUP"
  {
  }

  /** The torrent is added when the client does not know it, stopped when it runs, and prepared when it is stopped;
      a client that is missing, a conflict of identities, another path or automatic management end the workflow. */
  lemma WhatPreparingDoes(obs: Observation)
    ensures var script := PrepareScript(obs);
      var usable := obs.configured && !obs.conflict && (obs.torrent.Some? ==> obs.torrent.value.samePath && !obs.torrent.value.autoManaged);
      && (usable && obs.torrent == None <==> script == Script([AddStopped], Some(Waiting)))
      && (usable && obs.torrent.Some? && !IsStopped(obs.torrent.value) <==> script == Script([StopTorrent], Some(Waiting)))
      && (usable && obs.torrent.Some? && IsStopped(obs.torrent.value) <==> script.result == Some(Ready))
      && (!usable <==> script.result.Some? && script.result.value.Terminal?)
      && (!usable ==> script.result == Some(Terminal(false, if obs.configured then "qbittorrent_identity_conflict" else "qbittorrent_unconfigured")))
  {
    hide IsStopped;
  }

  /** Links are stored as complete only for a stopped, unmanaged torrent at its path, when all of them were made. */
  lemma WhatMaterializingDoes(obs: Observation)
    ensures var script := MaterializeScript(obs);
      var usable := obs.configured && obs.torrent.Some? && IsStopped(obs.torrent.value) && !obs.torrent.value.autoManaged && obs.torrent.value.samePath;
      && (usable && obs.links == AllLinked <==> script == Script([RecordLinks(true)], Some(Ready)))
      && (!(usable && obs.links == AllLinked) <==> script.result.Some? && script.result.value.Terminal?)
      && (RecordLinks(false) in script.effects <==> usable && obs.links.Stopped?)
      && (!usable ==> script.result == Some(Terminal(false,
            if !obs.configured then "qbittorrent_unconfigured" else if obs.torrent == None then "injected_torrent_missing" else "qbittorrent_not_stopped")))
  {
    hide IsStopped;
  }

  /** An observation inspects the pieces exactly when the torrent is neither checking nor queued and the recheck has
      settled, or was seen checking; it ends the workflow when the client or the torrent is missing or the attempts
      are used up; a decision that was stored is verified instead. */
  lemma WhatObservingDoes(plan: Plan, row: Row, obs: Observation)
    requires obs.configured && obs.torrent.Some? && row.state != Absent
    ensures var t := obs.torrent.value; var script := ObserveScript(plan, row, obs);
      && (row.state != Finalizing && IsChecking(t) ==> script == Script([RecordObservation(t, Checking)], Some(Waiting)))
      && (row.state == RecheckRequested && !IsChecking(t) && !IsQueued(t) ==> script == Script([RecordObservation(t, RecheckSettling)], Some(Waiting)))
      && ((row.state == RecheckSettling || row.state == Checking) && !IsChecking(t) && !IsQueued(t) ==> script == InspectScript(plan, t, obs.pieces))
      && (row.state != Finalizing && !IsChecking(t) && (IsQueued(t) || row.state !in {RecheckRequested, RecheckSettling, Checking}) ==>
            script == if row.attempts + 1 < 30 then Script([Bump(t)], Some(Waiting)) else FailScript([Bump(t)], "ambiguous_qbittorrent_state"))
      && (row.state == Finalizing && !Agrees(row.choice, t) && row.choice.Some? ==>
            script == if row.attempts + 1 < 30 then Script([Bump(t), if row.choice == Some(Resume) then StartTorrent else StopTorrent], Some(Waiting))
                      else FailScript([Bump(t)], "ambiguous_qbittorrent_state"))
  {
    hide IsChecking, IsQueued, IsStopped, IsStarted, InspectScript;
    var t := obs.torrent.value;
    assert row.choice.Some? ==> row.choice == Some(Resume) || row.choice == Some(Stop) by {
      assert row.choice.Some? ==> row.choice == Some(row.choice.value) && (row.choice.value == Resume || row.choice.value == Stop);
    }
    assert [Bump(t)] + [] == [Bump(t)];
    assert [Bump(t)] + [StartTorrent] == [Bump(t), StartTorrent] && [Bump(t)] + [StopTorrent] == [Bump(t), StopTorrent];
  }
}
