/** How long the observation of a recheck lasts, and what an observation that is cut after it closed
    the row costs. */
module ObservationBound {
  import opened Wrappers
  import opened Files
  import opened Decision
  import opened Pieces
  import opened Injection

  // ----- How long observation lasts -----

  /** How many more observations a row allows, those of a torrent still checking left aside. */
  function Rank(row: Row): nat {
    var waits := if row.attempts < 29 then 29 - row.attempts else 0;
    match row.state
    case Finalizing => 1 + waits
    case RecheckRequested => 32 + waits
    case _ => 31 + waits
  }

  function Potential(s: System): nat {
    if s.stage == Observing then Rank(s.row) else 0
  }

  /** Ends an injection as far as its row is concerned. */
  predicate Closes(e: Effect) {
    e.RecordFailed? || e.RecordCompleted?
  }

  ghost predicate Closing(effects: seq<Effect>) {
    exists e :: e in effects && Closes(e)
  }

  /** A completed observation, unless it found the torrent checking before any decision. */
  ghost predicate Counts(plan: Plan, s: System, event: Event) {
    && event.Complete? && s.stage == Observing && ObserveScript(plan, s.row, event.obs).result.Some?
    && !(event.obs.configured && event.obs.torrent.Some? && s.row.state != Finalizing && IsChecking(event.obs.torrent.value))
  }

  /** An observation that is cut after it closed the row: it will be executed again. */
  ghost predicate Spoils(plan: Plan, s: System, event: Event) {
    && event.Cut? && s.stage == Observing && event.after <= |ObserveScript(plan, s.row, event.obs).effects|
    && Closing(ObserveScript(plan, s.row, event.obs).effects[..event.after])
  }

  ghost function CountedSteps(plan: Plan, s: System, events: seq<Event>): nat
    decreases |events|
  {
    if events == [] then 0
    else (if Counts(plan, s, events[0]) then 1 else 0) + CountedSteps(plan, Step(plan, s, events[0]), events[1..])
  }

  ghost function SpoiledSteps(plan: Plan, s: System, events: seq<Event>): nat
    decreases |events|
  {
    if events == [] then 0
    else (if Spoils(plan, s, events[0]) then 1 else 0) + SpoiledSteps(plan, Step(plan, s, events[0]), events[1..])
  }

  lemma EffectRank(plan: Plan, row: Row, e: Effect)
    requires row.state != Absent && Permitted(plan, Observing, row, e)
    ensures Apply(row, e).state != Absent && 1 <= Rank(row)
    ensures !Closes(e) || row.state != Finalizing ==> Rank(Apply(row, e)) <= Rank(row)
    ensures Closes(e) ==> Apply(row, e).state != Finalizing && Rank(Apply(row, e)) <= Rank(row) + 30
    ensures !e.RecordDecision? && row.state != Finalizing ==> Apply(row, e).state != Finalizing
  {
    hide Cleared, Agrees;
  }

  ghost predicate Undecided(effects: seq<Effect>) {
    forall e :: e in effects ==> !e.RecordDecision?
  }

  /** Effects that close the row raise the rank by at most 30, and only from the final checks. */
  lemma {:induction false} PlayRank(plan: Plan, s: System, effects: seq<Effect>)
    requires s.row.state != Absent && AllPermitted(plan, Observing, s.row, effects)
    ensures Play(s, effects).stage == s.stage && Play(s, effects).row.state != Absent
    ensures !Closing(effects) || (Undecided(effects) && s.row.state != Finalizing) ==> Rank(Play(s, effects).row) <= Rank(s.row)
    ensures Undecided(effects) ==> Rank(Play(s, effects).row) <= Rank(s.row) + 30
    decreases |effects|
  {
    hide Permitted, Apply, Rank, Closes;
    if effects != [] {
      EffectRank(plan, s.row, effects[0]);
      PlayRank(plan, Perform(s, effects[0]), effects[1..]);
      assert effects[0] in effects && forall e :: e in effects[1..] ==> e in effects;
    }
  }

  /** An observation that leaves the workflow waiting lowers the rank, unless it saw checking. */
  lemma WaitingLowersRank(plan: Plan, s: System, obs: Observation)
    requires s.row.state != Absent && ObserveScript(plan, s.row, obs).result == Some(Waiting)
    ensures Counts(plan, s, Complete(obs)) ==> Rank(Play(s, ObserveScript(plan, s.row, obs).effects).row) < Rank(s.row)
  {
    hide IsStopped, IsStarted, IsChecking, IsQueued, Play, ResumeAllowed, Swept;
    var effects := ObserveScript(plan, s.row, obs).effects;
    var t := obs.torrent.value;
    PlayTwo(s, effects[0], if |effects| > 1 then effects[1] else Bump(t));
    if |effects| > 1 {
      assert effects == [effects[0], effects[1]];
    } else {
      assert effects == [effects[0]];
    }
  }

  lemma PotentialStep(plan: Plan, s: System, event: Event)
    requires Sound(plan, s) && s.row.state != Absent && event != Restart
    requires s.stage == Observing || s.stage == Ended
    ensures var s' := Step(plan, s, event);
      && s'.row.state != Absent && (s'.stage == Observing || s'.stage == Ended)
      && (if Counts(plan, s, event) then 1 else 0) + Potential(s') <= Potential(s) + (if Spoils(plan, s, event) then 30 else 0)
  {
    hide Sound, AllPermitted, Play, ObserveScript;
    if s.stage == Observing && (event.Complete? || event.Cut?) {
      var effects := ObserveScript(plan, s.row, event.obs).effects;
      ScriptPermitted(plan, s, event.obs);
      match event
      case Complete(obs) =>
        PlayRank(plan, s, effects);
        ObserveResults(plan, s.row, obs);
        if ObserveScript(plan, s.row, obs).result == Some(Waiting) {
          WaitingLowersRank(plan, s, obs);
        }
      case Cut(obs, after) =>
        if after <= |effects| {
          PrefixPermitted(plan, Observing, s.row, effects, after);
          PlayRank(plan, s, effects[..after]);
          ClosingIsUndecided(plan, s.row, obs, after);
        }
    } else {
      NothingPlayed(s);
    }
  }

  /** No observation both decides and closes. */
  lemma ClosingIsUndecided(plan: Plan, row: Row, obs: Observation, after: nat)
    requires after <= |ObserveScript(plan, row, obs).effects|
    ensures var effects := ObserveScript(plan, row, obs).effects[..after]; Closing(effects) ==> Undecided(effects)
  {
    hide IsStopped, IsStarted, IsChecking, IsQueued, ResumeAllowed, Swept;
    var effects := ObserveScript(plan, row, obs).effects;
    assert forall e :: e in effects[..after] ==> e in effects;
    assert Undecided(effects) || !Closing(effects);
  }

  lemma ObserveResults(plan: Plan, row: Row, obs: Observation)
    ensures var script := ObserveScript(plan, row, obs);
      && script.result != Some(Ready)
      && (script.result == None ==> script.effects == [])
      && (script.result.Some? && !script.result.value.Terminal? ==> !Closing(script.effects))
  {
    hide IsStopped, IsStarted, IsChecking, IsQueued, ResumeAllowed, Swept;
  }

  lemma {:induction false} ObservationBound(plan: Plan, s: System, events: seq<Event>)
    requires Sound(plan, s) && s.row.state != Absent && Restart !in events
    requires s.stage == Observing || s.stage == Ended
    ensures CountedSteps(plan, s, events) <= Potential(s) + 30 * SpoiledSteps(plan, s, events)
    decreases |events|
  {
    hide Sound, Step, Counts, Spoils, Potential;
    if events != [] {
      PotentialStep(plan, s, events[0]);
      StepKeepsSound(plan, s, events[0]);
      ObservationBound(plan, Step(plan, s, events[0]), events[1..]);
    }
  }

  /** After a recheck request, at most 61 observations complete before a terminal result, those that
      find the torrent checking before the decision left aside; each observation that is cut after
      it closed the row can cost 30 more. */
  lemma ObservationIsBounded(plan: Plan, s: System, events: seq<Event>)
    requires Sound(plan, s) && s.stage == Observing && s.row.state == RecheckRequested && s.row.attempts == 0
    requires Restart !in events
    ensures CountedSteps(plan, s, events) <= 61 + 30 * SpoiledSteps(plan, s, events)
    ensures SpoiledSteps(plan, s, events) == 0 ==> CountedSteps(plan, s, events) <= 61
  {
    hide Sound, CountedSteps, SpoiledSteps;
    ObservationBound(plan, s, events);
  }
}
