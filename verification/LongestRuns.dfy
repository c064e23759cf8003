/** Runs that need every observation the bound allows: 61, and 30 more for each observation that is
    cut after it closed the row. */
module LongestRuns {
  import opened Wrappers
  import opened Files
  import opened Decision
  import opened Pieces
  import opened Injection
  import opened ObservationBound

  lemma {:induction false} CountInTwo(plan: Plan, s: System, a: seq<Event>, b: seq<Event>)
    ensures CountedSteps(plan, s, a + b) == CountedSteps(plan, s, a) + CountedSteps(plan, Run(plan, s, a), b)
    ensures SpoiledSteps(plan, s, a + b) == SpoiledSteps(plan, s, a) + SpoiledSteps(plan, Run(plan, s, a), b)
    decreases |a|
  {
    hide Step, Counts, Spoils;
    if a == [] {
      assert a + b == b;
    } else {
      assert (a + b)[1..] == a[1..] + b;
      CountInTwo(plan, Step(plan, s, a[0]), a[1..], b);
    }
  }

  lemma CountOne(plan: Plan, s: System, event: Event)
    ensures CountedSteps(plan, s, [event]) == if Counts(plan, s, event) then 1 else 0
    ensures SpoiledSteps(plan, s, [event]) == if Spoils(plan, s, event) then 1 else 0
  {
    hide Step, Counts, Spoils;
  }

  /** A client that shows a complete torrent in some state, and what it says of its pieces. */
  function Seen(state: string, pieces: seq<nat>): (obs: Observation)
    ensures obs.torrent.Some?
  {
    Observation(true, false, Some(Torrent(state, 0, false, true)), AllLinked, pieces)
  }

  /** The pieces can be inspected. */
  ghost predicate Inspectable(plan: Plan, pieces: seq<nat>) {
    Swept(plan.manifest, plan.mapped, pieces).Success?
  }

  function Untouched(): System {
    System(Preparing, Row(Absent, None, None, 0, "", 0), [])
  }

  // ----- The steps these runs are made of -----

  /** An event, what it makes of a system, and what it counts for. */
  ghost predicate Leads(plan: Plan, s: System, event: Event, s': System, counted: nat, spoiled: nat) {
    && Step(plan, s, event) == s'
    && (if Counts(plan, s, event) then 1 else 0) == counted
    && (if Spoils(plan, s, event) then 1 else 0) == spoiled
  }

  /** A run, what it makes of a system, and what it counts for. */
  ghost predicate Reaches(plan: Plan, s: System, events: seq<Event>, s': System, counted: nat, spoiled: nat) {
    && Run(plan, s, events) == s' && Restart !in events && GiveUp !in events
    && CountedSteps(plan, s, events) == counted && SpoiledSteps(plan, s, events) == spoiled
  }

  lemma Stay(plan: Plan, s: System)
    ensures Reaches(plan, s, [], s, 0, 0)
  {
  }

  lemma Then(plan: Plan, s: System, events: seq<Event>, s1: System, n: nat, k: nat, more: seq<Event>, s2: System, n': nat, k': nat)
    requires Reaches(plan, s, events, s1, n, k) && Reaches(plan, s1, more, s2, n', k')
    ensures Reaches(plan, s, events + more, s2, n + n', k + k')
  {
    hide Run, CountedSteps, SpoiledSteps;
    RunAppend(plan, s, events, more);
    CountInTwo(plan, s, events, more);
  }

  lemma ThenOne(plan: Plan, s: System, events: seq<Event>, s1: System, n: nat, k: nat, event: Event, s2: System, n': nat, k': nat)
    requires Reaches(plan, s, events, s1, n, k) && Leads(plan, s1, event, s2, n', k') && event != Restart && event != GiveUp
    ensures Reaches(plan, s, events + [event], s2, n + n', k + k')
  {
    hide Run, CountedSteps, SpoiledSteps, Step, Counts, Spoils;
    RunOne(plan, s1, event);
    CountOne(plan, s1, event);
    RunAppend(plan, s, events, [event]);
    CountInTwo(plan, s, events, [event]);
  }

  /** Ready for the final checks of a decision. */
  ghost predicate Verifying(s: System, attempts: nat) {
    s.stage == Observing && s.row.state == Finalizing && s.row.choice.Some? && s.row.attempts == attempts
  }

  ghost predicate At(s: System, state: RowState, attempts: nat) {
    s.stage == Observing && s.row.state == state && s.row.attempts == attempts
  }

  lemma Prepares(plan: Plan, pieces: seq<nat>, s: System) returns (s': System)
    requires s.stage == Preparing && s.row.attempts == 0
    ensures Leads(plan, s, Complete(Seen("stoppedUP", pieces)), s', 0, 0)
    ensures s'.stage == Materializing && s'.row.state == AddedStopped && s'.row.attempts == 0
  {
    var t := Seen("stoppedUP", pieces).torrent.value;
    assert IsStopped(t);
    PlayTwo(s, RecordPrepared(t), Publish(PlanTable, AddedStopped));
    s' := Step(plan, s, Complete(Seen("stoppedUP", pieces)));
  }

  lemma Links(plan: Plan, pieces: seq<nat>, s: System) returns (s': System)
    requires s.stage == Materializing && s.row.state != Absent
    ensures Leads(plan, s, Complete(Seen("stoppedUP", pieces)), s', 0, 0)
    ensures s'.stage == Rechecking && s'.row.state == LinksComplete
  {
    assert IsStopped(Seen("stoppedUP", pieces).torrent.value);
    PlayOne(s, RecordLinks(true));
    s' := Step(plan, s, Complete(Seen("stoppedUP", pieces)));
  }

  lemma Rechecks(plan: Plan, pieces: seq<nat>, s: System) returns (s': System)
    requires s.stage == Rechecking && s.row.state != Absent
    ensures Leads(plan, s, Complete(Seen("stoppedUP", pieces)), s', 0, 0) && At(s', RecheckRequested, 0)
  {
    s' := Step(plan, s, Complete(Seen("stoppedUP", pieces)));
    var s1 := Perform(s, RequestRecheck);
    PlayTwo(s1, RecordRechecked, ResetAttempts);
    assert [RequestRecheck, RecordRechecked, ResetAttempts][1..] == [RecordRechecked, ResetAttempts];
  }

  /** From nothing to the first observation. */
  lemma Opens(plan: Plan, pieces: seq<nat>) returns (events: seq<Event>, s: System)
    ensures Reaches(plan, Untouched(), events, s, 0, 0) && At(s, RecheckRequested, 0)
  {
    var event, s0 := Complete(Seen("stoppedUP", pieces)), Untouched();
    var s1 := Prepares(plan, pieces, s0);
    var s2 := Links(plan, pieces, s1);
    s := Rechecks(plan, pieces, s2);
    hide *;
    Stay(plan, s0);
    ThenOne(plan, s0, [], s0, 0, 0, event, s1, 0, 0);
    ThenOne(plan, s0, [] + [event], s1, 0, 0, event, s2, 0, 0);
    ThenOne(plan, s0, [] + [event] + [event], s2, 0, 0, event, s, 0, 0);
    events := [] + [event] + [event] + [event];
  }

  lemma Settles(plan: Plan, pieces: seq<nat>, s: System) returns (s': System)
    requires At(s, RecheckRequested, 0)
    ensures Leads(plan, s, Complete(Seen("moving", pieces)), s', 1, 0) && At(s', RecheckSettling, 0)
  {
    var t := Seen("moving", pieces).torrent.value;
    assert !IsChecking(t);
    PlayOne(s, RecordObservation(t, RecheckSettling));
    s' := Step(plan, s, Complete(Seen("moving", pieces)));
  }

  lemma QueuesOnce(plan: Plan, pieces: seq<nat>, s: System) returns (s': System)
    requires At(s, RecheckSettling, s.row.attempts) && s.row.attempts + 1 < MAX_FINAL_VERIFY_ATTEMPTS
    ensures Leads(plan, s, Complete(Seen("queuedUP", pieces)), s', 1, 0) && At(s', RecheckSettling, s.row.attempts + 1)
  {
    var t := Seen("queuedUP", pieces).torrent.value;
    assert t.state[0] == 'q';
    assert !IsChecking(t) && IsQueued(t);
    PlayOne(s, Bump(t));
    assert [Bump(t)] + [] == [Bump(t)];
    s' := Step(plan, s, Complete(Seen("queuedUP", pieces)));
  }

  lemma {:induction false} Queues(plan: Plan, pieces: seq<nat>, s: System, n: nat) returns (events: seq<Event>, s': System)
    requires At(s, RecheckSettling, 0) && n <= 29
    ensures Reaches(plan, s, events, s', n, 0) && At(s', RecheckSettling, n)
    decreases n
  {
    if n == 0 {
      Stay(plan, s);
      events, s' := [], s;
    } else {
      var before, s1 := Queues(plan, pieces, s, n - 1);
      s' := QueuesOnce(plan, pieces, s1);
      hide *;
      ThenOne(plan, s, before, s1, n - 1, 0, Complete(Seen("queuedUP", pieces)), s', 1, 0);
      events := before + [Complete(Seen("queuedUP", pieces))];
    }
  }

  lemma Inspects(plan: Plan, pieces: seq<nat>, s: System) returns (s': System)
    requires s.stage == Observing && (s.row.state == RecheckSettling || s.row.state == Checking) && Inspectable(plan, pieces)
    ensures Leads(plan, s, Complete(Seen("moving", pieces)), s', 1, 0) && Verifying(s', 0)
  {
    hide Swept, ResumeAllowed;
    var t := Seen("moving", pieces).torrent.value;
    assert !IsChecking(t) && !IsQueued(t);
    var script := InspectScript(plan, t, pieces);
    PlayTwo(s, script.effects[0], script.effects[1]);
    assert script.effects == [script.effects[0], script.effects[1]];
    s' := Step(plan, s, Complete(Seen("moving", pieces)));
  }

  lemma ChecksOnce(plan: Plan, pieces: seq<nat>, s: System) returns (s': System)
    requires Verifying(s, s.row.attempts) && s.row.attempts + 1 < MAX_FINAL_VERIFY_ATTEMPTS
    ensures Leads(plan, s, Complete(Seen("moving", pieces)), s', 1, 0) && Verifying(s', s.row.attempts + 1)
  {
    var t := Seen("moving", pieces).torrent.value;
    assert !IsStopped(t) && !IsStarted(t) && !IsChecking(t);
    var command := Command(if s.row.choice == Some(Resume) then Resume else Stop);
    PlayTwo(s, Bump(t), command);
    assert [Bump(t)] + [command] == [Bump(t), command];
    s' := Step(plan, s, Complete(Seen("moving", pieces)));
  }

  lemma {:induction false} Checks(plan: Plan, pieces: seq<nat>, s: System, n: nat) returns (events: seq<Event>, s': System)
    requires Verifying(s, 0) && n <= 29
    ensures Reaches(plan, s, events, s', n, 0) && Verifying(s', n)
    decreases n
  {
    if n == 0 {
      Stay(plan, s);
      events, s' := [], s;
    } else {
      var before, s1 := Checks(plan, pieces, s, n - 1);
      s' := ChecksOnce(plan, pieces, s1);
      hide *;
      ThenOne(plan, s, before, s1, n - 1, 0, Complete(Seen("moving", pieces)), s', 1, 0);
      events := before + [Complete(Seen("moving", pieces))];
    }
  }

  /** The last final check stores the failure and is cut. */
  lemma FailsAndIsCut(plan: Plan, pieces: seq<nat>, s: System) returns (s': System)
    requires Verifying(s, 29)
    ensures Leads(plan, s, Cut(Seen("moving", pieces), 3), s', 0, 1) && At(s', Failed, 30)
  {
    LastCheckFails(plan, pieces, s);
    hide ObserveScript, Play;
    var t := Seen("moving", pieces).torrent.value;
    FailureCut(s, t, "ambiguous_qbittorrent_state");
    s' := Step(plan, s, Cut(Seen("moving", pieces), 3));
  }

  lemma LastCheckFails(plan: Plan, pieces: seq<nat>, s: System)
    requires Verifying(s, 29)
    ensures ObserveScript(plan, s.row, Seen("moving", pieces)) == FailScript([Bump(Seen("moving", pieces).torrent.value)], "ambiguous_qbittorrent_state")
  {
    var t := Seen("moving", pieces).torrent.value;
    assert !IsStopped(t) && !IsStarted(t) && !IsChecking(t);
  }

  lemma FailureCut(s: System, t: Torrent, reason: string)
    requires s.row.state != Absent
    ensures var effects := FailScript([Bump(t)], reason).effects;
      && |effects| >= 3 && Closing(effects[..3])
      && Play(s, effects[..3]).stage == s.stage && Play(s, effects[..3]).row.state == Failed && Play(s, effects[..3]).row.attempts == s.row.attempts + 1
  {
    var effects := FailScript([Bump(t)], reason).effects;
    assert effects[..3] == [Bump(t), Publish(PlanTable, Failed), RecordFailed];
    assert RecordFailed in effects[..3];
    var s1 := Perform(s, Bump(t));
    PlayTwo(s1, Publish(PlanTable, Failed), RecordFailed);
    assert effects[..3][1..] == [Publish(PlanTable, Failed), RecordFailed];
  }

  /** Executed again, it finds the torrent checking and takes the row back. */
  lemma ChecksAgain(plan: Plan, pieces: seq<nat>, s: System) returns (s': System)
    requires At(s, Failed, s.row.attempts)
    ensures Leads(plan, s, Complete(Seen("checkingUP", pieces)), s', 0, 0) && At(s', Checking, s.row.attempts)
  {
    var t := Seen("checkingUP", pieces).torrent.value;
    assert IsChecking(t);
    PlayOne(s, RecordObservation(t, Checking));
    s' := Step(plan, s, Complete(Seen("checkingUP", pieces)));
  }

  lemma FailPlayed(s: System, t: Torrent, reason: string)
    requires s.row.state != Absent
    ensures Play(s, FailScript([Bump(t)], reason).effects).row.state == Failed
  {
    var effects := FailScript([Bump(t)], reason).effects;
    var s1 := Perform(s, Bump(t));
    var s2 := Perform(s1, Publish(PlanTable, Failed));
    var s3 := Perform(s2, RecordFailed);
    PlayTwo(s3, Publish(CandidateTable, Failed), Publish(TaskProjection, Failed));
    assert effects == [Bump(t), Publish(PlanTable, Failed), RecordFailed, Publish(CandidateTable, Failed), Publish(TaskProjection, Failed)];
    assert Play(s, effects) == Play(s1, effects[1..]) == Play(s2, effects[2..]) == Play(s3, effects[3..]);
    assert effects[3..] == [Publish(CandidateTable, Failed), Publish(TaskProjection, Failed)];
  }

  lemma GivesUp(plan: Plan, pieces: seq<nat>, s: System) returns (s': System)
    requires Verifying(s, 29)
    ensures Leads(plan, s, Complete(Seen("moving", pieces)), s', 1, 0) && s'.stage == Ended && s'.row.state == Failed
  {
    LastCheckFails(plan, pieces, s);
    hide Play, ObserveScript;
    var t := Seen("moving", pieces).torrent.value;
    FailPlayed(s, t, "ambiguous_qbittorrent_state");
    s' := Step(plan, s, Complete(Seen("moving", pieces)));
  }

  // ----- Whole runs -----

  lemma AtNames(s: System, state: RowState, attempts: nat)
    ensures At(s, state, attempts) ==> s.stage == Observing && s.row.state == state && s.row.attempts == attempts
  {
  }

  /** One such cut leads back to the last final check, 30 observations later. */
  lemma Round(plan: Plan, pieces: seq<nat>, s: System) returns (events: seq<Event>, s': System)
    requires Verifying(s, 29) && Inspectable(plan, pieces)
    ensures Reaches(plan, s, events, s', 30, 1) && Verifying(s', 29)
  {
    hide *;
    var cut, again, event := Cut(Seen("moving", pieces), 3), Complete(Seen("checkingUP", pieces)), Complete(Seen("moving", pieces));
    var s1 := FailsAndIsCut(plan, pieces, s);
    AtNames(s1, Failed, 30);
    var s2 := ChecksAgain(plan, pieces, s1);
    AtNames(s2, Checking, 30);
    var s3 := Inspects(plan, pieces, s2);
    var checks, s4 := Checks(plan, pieces, s3, 29);
    Stay(plan, s);
    ThenOne(plan, s, [], s, 0, 0, cut, s1, 0, 1);
    ThenOne(plan, s, [] + [cut], s1, 0, 1, again, s2, 0, 0);
    ThenOne(plan, s, [] + [cut] + [again], s2, 0, 1, event, s3, 1, 0);
    Then(plan, s, [] + [cut] + [again] + [event], s3, 1, 1, checks, s4, 29, 0);
    events, s' := [] + [cut] + [again] + [event] + checks, s4;
  }

  lemma {:induction false} Rounds(plan: Plan, pieces: seq<nat>, s: System, n: nat) returns (events: seq<Event>, s': System)
    requires Verifying(s, 29) && Inspectable(plan, pieces)
    ensures Reaches(plan, s, events, s', 30 * n, n) && Verifying(s', 29)
    decreases n
  {
    if n == 0 {
      Stay(plan, s);
      events, s' := [], s;
    } else {
      hide *;
      var before, s1 := Rounds(plan, pieces, s, n - 1);
      var round, s2 := Round(plan, pieces, s1);
      Then(plan, s, before, s1, 30 * (n - 1), n - 1, round, s2, 30, 1);
      events, s' := before + round, s2;
    }
  }

  /** The bound is reached: for every plan and all piece states that can be inspected, and for every
      number of such cuts, there is a run, from nothing, that takes 61 observations and 30 more for each cut. */
  lemma BoundIsReached(plan: Plan, pieces: seq<nat>, n: nat) returns (opening: seq<Event>, s: System, events: seq<Event>)
    requires Inspectable(plan, pieces)
    ensures Initial(Untouched()) && s == Run(plan, Untouched(), opening)
    ensures s.stage == Observing && s.row.state == RecheckRequested && s.row.attempts == 0 && Restart !in events
    ensures SpoiledSteps(plan, s, events) == n
    ensures CountedSteps(plan, s, events) == 61 + 30 * n
  {
    opening, s := Opens(plan, pieces);
    var s1 := Settles(plan, pieces, s);
    var queues, s2 := Queues(plan, pieces, s1, 29);
    var s3 := Inspects(plan, pieces, s2);
    var checks, s4 := Checks(plan, pieces, s3, 29);
    var rounds, s5 := Rounds(plan, pieces, s4, n);
    var s6 := GivesUp(plan, pieces, s5);
    var event := Complete(Seen("moving", pieces));
    assert Initial(Untouched());
    AtNames(s, RecheckRequested, 0);
    hide *;
    Stay(plan, s);
    ThenOne(plan, s, [], s, 0, 0, event, s1, 1, 0);
    Then(plan, s, [] + [event], s1, 1, 0, queues, s2, 29, 0);
    ThenOne(plan, s, [] + [event] + queues, s2, 30, 0, event, s3, 1, 0);
    Then(plan, s, [] + [event] + queues + [event], s3, 31, 0, checks, s4, 29, 0);
    Then(plan, s, [] + [event] + queues + [event] + checks, s4, 60, 0, rounds, s5, 30 * n, n);
    ThenOne(plan, s, [] + [event] + queues + [event] + checks + rounds, s5, 60 + 30 * n, n, event, s6, 1, 0);
    events := [] + [event] + queues + [event] + checks + rounds + [event];
    ReachesMeans(plan, Untouched(), opening, s, 0, 0);
    ReachesMeans(plan, s, events, s6, 61 + 30 * n, n);
  }

  lemma ReachesMeans(plan: Plan, s: System, events: seq<Event>, s': System, counted: nat, spoiled: nat)
    requires Reaches(plan, s, events, s', counted, spoiled)
    ensures s' == Run(plan, s, events) && Restart !in events && GiveUp !in events
    ensures CountedSteps(plan, s, events) == counted && SpoiledSteps(plan, s, events) == spoiled
  {
  }
}
