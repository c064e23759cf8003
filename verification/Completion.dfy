/** When a recorded completion is final. */
module Completion {
  import opened Wrappers
  import opened Files
  import opened Decision
  import opened Pieces
  import opened Injection
  import opened ObservationBound
  import opened LongestRuns

  ghost predicate HasCompleted(log: seq<Entry>) {
    exists x :: x in log && x.effect.RecordCompleted?
  }

  lemma {:induction false} CompletedWhilePlaying(s: System, effects: seq<Effect>)
    requires !Closing(effects)
    ensures HasCompleted(Play(s, effects).log) ==> HasCompleted(s.log)
    ensures Play(s, effects).stage == s.stage
    decreases |effects|
  {
    hide Apply;
    if effects != [] {
      var e := effects[0];
      assert e in effects && !Closes(e);
      assert forall x :: x in effects[1..] ==> x in effects;
      CompletedWhilePlaying(Perform(s, e), effects[1..]);
      if HasCompleted(Perform(s, e).log) {
        var x :| x in s.log + [Entry(s.row, e)] && x.effect.RecordCompleted?;
        assert x in s.log;
      }
    }
  }

  lemma CompletionPlayed(s: System, t: Torrent)
    requires s.row.state != Absent
    ensures Play(s, [RecordCompleted(t), Publish(PlanTable, Completed), Publish(CandidateTable, Completed), Publish(TaskProjection, Completed)]).row.state == Completed
  {
    var effects := [RecordCompleted(t), Publish(PlanTable, Completed), Publish(CandidateTable, Completed), Publish(TaskProjection, Completed)];
    var s1 := Perform(s, effects[0]);
    var s2 := Perform(s1, effects[1]);
    PlayTwo(s2, effects[2], effects[3]);
    assert Play(s, effects) == Play(s1, effects[1..]) == Play(s2, effects[2..]);
    assert effects[2..] == [effects[2], effects[3]];
  }

  /** A failing script records no completion; a completing one leaves the row completed. */
  lemma ClosingScripts(plan: Plan, s: System, obs: Observation)
    requires s.row.state != Absent && s.stage == Observing && !HasCompleted(s.log)
    ensures var script := ObserveScript(plan, s.row, obs);
      Closing(script.effects) ==>
        && script.result.Some? && script.result.value.Terminal?
        && (HasCompleted(Play(s, script.effects).log) ==> Play(s, script.effects).row.state == Completed)
  {
    var script := ObserveScript(plan, s.row, obs);
    ObserveResults(plan, s.row, obs);
    hide IsStopped, IsStarted, IsChecking, IsQueued, ResumeAllowed, Swept, Play, Closing;
    if script.result.Some? && script.result.value.Terminal? {
      if script.result.value.completed {
        CompletionPlayed(s, obs.torrent.value);
      } else {
        NoCompletionIn(s, script.effects);
      }
    } else if script.result == None {
      NotClosing();
    }
  }

  lemma NotClosing()
    ensures !Closing([])
  {
  }

  lemma {:induction false} NoCompletionIn(s: System, effects: seq<Effect>)
    requires !HasCompleted(s.log) && forall e :: e in effects ==> !e.RecordCompleted?
    ensures !HasCompleted(Play(s, effects).log)
    decreases |effects|
  {
    hide Apply;
    if effects != [] {
      assert !effects[0].RecordCompleted?;
      NoCompletionIn(Perform(s, effects[0]), effects[1..]);
    }
  }

  /** A recorded completion is the end of the workflow and of the row. */
  ghost predicate Stands(s: System) {
    && s.row.state != Absent && (s.stage == Observing || s.stage == Ended)
    && (HasCompleted(s.log) ==> s.stage == Ended && s.row.state == Completed)
  }

  lemma StepKeepsCompletion(plan: Plan, s: System, event: Event)
    requires Sound(plan, s) && Stands(s) && event != Restart && !Spoils(plan, s, event)
    ensures Stands(Step(plan, s, event))
  {
    PotentialStep(plan, s, event);
    hide Sound, Play, ObserveScript, HasCompleted, Closing;
    if s.stage == Observing && (event.Complete? || event.Cut?) {
      var script := ObserveScript(plan, s.row, event.obs);
      match event
      case Complete(obs) =>
        ClosingScripts(plan, s, obs);
        if !Closing(script.effects) {
          CompletedWhilePlaying(s, script.effects);
        }
      case Cut(obs, after) =>
        if after <= |script.effects| {
          CompletedWhilePlaying(s, script.effects[..after]);
        }
    } else {
      NothingPlayed(s);
    }
  }

  /** Unless an observation is cut after closing the row, a recorded completion stands: nothing
      later replaces it. */
  lemma {:induction false} CompletionStands(plan: Plan, s: System, events: seq<Event>)
    requires Sound(plan, s) && Stands(s) && Restart !in events && SpoiledSteps(plan, s, events) == 0
    ensures Stands(Run(plan, s, events))
    decreases |events|
  {
    hide Sound, Step, Spoils, Stands;
    if events != [] {
      StepKeepsCompletion(plan, s, events[0]);
      StepKeepsSound(plan, s, events[0]);
      CompletionStands(plan, Step(plan, s, events[0]), events[1..]);
    }
  }

  lemma {:induction false} EndedForever(plan: Plan, s: System, events: seq<Event>)
    requires s.stage == Ended && Restart !in events
    ensures Run(plan, s, events) == s
    decreases |events|
  {
    if events != [] {
      assert events[0] != Restart;
      EndedStays(plan, s, events[0]);
      EndedForever(plan, s, events[1..]);
    }
  }

  lemma EndedStays(plan: Plan, s: System, event: Event)
    requires s.stage == Ended && event != Restart
    ensures Step(plan, s, event) == s
  {
    NothingPlayed(s);
  }

  /** No client is configured. */
  function Unconfigured(): Observation {
    Observation(false, false, None, AllLinked, [])
  }

  lemma FailurePlayed(s: System, reason: string)
    requires s.row.state != Absent
    ensures Play(s, FailScript([], reason).effects).row.state == Failed
  {
    var effects := FailScript([], reason).effects;
    var s1 := Perform(s, Publish(PlanTable, Failed));
    var s2 := Perform(s1, RecordFailed);
    PlayTwo(s2, Publish(CandidateTable, Failed), Publish(TaskProjection, Failed));
    assert effects == [Publish(PlanTable, Failed), RecordFailed, Publish(CandidateTable, Failed), Publish(TaskProjection, Failed)];
    assert Play(s, effects) == Play(s1, effects[1..]) == Play(s2, effects[2..]);
    assert effects[2..] == [Publish(CandidateTable, Failed), Publish(TaskProjection, Failed)];
  }

  /** As long as the workflow has not ended, one more activity can fail a stored completion. */
  lemma Overwritable(plan: Plan, s: System)
    requires s.row.state != Absent && s.stage != Ended
    ensures Run(plan, s, [Complete(Unconfigured())]).row.state == Failed
  {
    FailurePlayed(s, "qbittorrent_unconfigured");
    assert ScriptOf(plan, s, Unconfigured()) == FailScript([], "qbittorrent_unconfigured");
    hide ScriptOf, Play;
    RunOne(plan, s, Complete(Unconfigured()));
  }

  /** A stored completion survives every continuation within its pass exactly when the workflow has
      ended with it. */
  lemma CompletionSurvives(plan: Plan, s: System)
    requires s.row.state == Completed
    ensures (forall events :: Restart !in events ==> Run(plan, s, events).row.state == Completed) <==> s.stage == Ended
  {
    hide Run;
    if s.stage == Ended {
      forall events | Restart !in events ensures Run(plan, s, events).row.state == Completed {
        EndedForever(plan, s, events);
      }
    } else {
      Overwritable(plan, s);
      assert Restart !in [Complete(Unconfigured())];
    }
  }

  /** The torrent is in the state that was decided. */
  function Agreeing(s: System, pieces: seq<nat>): Observation {
    Seen(if s.row.choice == Some(Resume) then "uploading" else "stoppedUP", pieces)
  }

  lemma CompletesAndIsCut(plan: Plan, pieces: seq<nat>, s: System) returns (s': System)
    requires Verifying(s, 0)
    ensures Leads(plan, s, Cut(Agreeing(s, pieces), 1), s', 0, 1) && At(s', Completed, 0)
    ensures |s'.log| == |s.log| + 1 && s'.log[|s.log|].effect.RecordCompleted?
  {
    var obs := Agreeing(s, pieces);
    var t := obs.torrent.value;
    assert if s.row.choice == Some(Resume) then IsStarted(t) else IsStopped(t);
    var effects := ObserveScript(plan, s.row, obs).effects;
    assert effects[..1] == [RecordCompleted(t)];
    assert RecordCompleted(t) in effects[..1];
    PlayOne(s, RecordCompleted(t));
    s' := Step(plan, s, Cut(obs, 1));
  }

  lemma FindsNoClient(plan: Plan, s: System) returns (s': System)
    requires s.stage == Observing && s.row.state != Absent
    ensures Leads(plan, s, Complete(Unconfigured()), s', 1, 0) && s'.stage == Ended && s'.row.state == Failed && s.log <= s'.log
  {
    s' := Step(plan, s, Complete(Unconfigured()));
    hide Play;
    LogGrows(s, FailScript([], "qbittorrent_unconfigured").effects);
    FailurePlayed(s, "qbittorrent_unconfigured");
  }

  /** For every plan and all piece states that can be inspected, a run, from nothing, in which a recorded completion ends as a failure: the observation that
      recorded it is cut before its result is known, and executed again it finds no client. */
  lemma CompletionCanBeOverwritten(plan: Plan, pieces: seq<nat>) returns (events: seq<Event>, k: nat)
    requires Inspectable(plan, pieces)
    ensures Initial(Untouched()) && Restart !in events && GiveUp !in events
    ensures var s := Run(plan, Untouched(), events);
      k < |s.log| && s.log[k].effect.RecordCompleted? && s.stage == Ended && s.row.state == Failed
  {
    var opening, s := Opens(plan, pieces);
    var s1 := Settles(plan, pieces, s);
    var s2 := Inspects(plan, pieces, s1);
    var s3 := CompletesAndIsCut(plan, pieces, s2);
    AtNames(s3, Completed, 0);
    var s4 := FindsNoClient(plan, s3);
    k := |s2.log|;
    var event, cut, last := Complete(Seen("moving", pieces)), Cut(Agreeing(s2, pieces), 1), Complete(Unconfigured());
    assert Initial(Untouched());
    hide *;
    ThenOne(plan, Untouched(), opening, s, 0, 0, event, s1, 1, 0);
    ThenOne(plan, Untouched(), opening + [event], s1, 1, 0, event, s2, 1, 0);
    ThenOne(plan, Untouched(), opening + [event] + [event], s2, 2, 0, cut, s3, 0, 1);
    ThenOne(plan, Untouched(), opening + [event] + [event] + [cut], s3, 2, 1, last, s4, 1, 0);
    events := opening + [event] + [event] + [cut] + [last];
    ReachesMeans(plan, Untouched(), events, s4, 3, 1);
  }
}
