/** Every unfinished outbox row can be claimed before long, and claims cannot pass it over forever. */
module OutboxProgress {
  import opened Wrappers
  import opened Numbers
  import opened Outbox
  import Retry

  // ----- What one event does to one row -----

  /** A row is leased by a claim, when it can be. */
  ghost predicate IsLeased(row: Row, row': Row, event: Event) {
    event.Begin? && Claimable(row, event.now) && row' == LeaseTo(row, Token(event.now, event.sequence))
  }

  /** A row is given up by its holder: finished, or put off by one to three hundred seconds. */
  ghost predicate IsReleased(s: System, row: Row, row': Row, event: Event) {
    && event.Mark? && event.who in s.dispatchers && row.lease.Some? && row.lease.value.token == s.dispatchers[event.who].token
    && row'.lease == None
    && ((Finished(row') && row'.visibleAt == row.visibleAt) ||
        (s.dispatchers[event.who].token.now + Retry.INITIAL_BACKOFF_MS <= row'.visibleAt
         <= s.dispatchers[event.who].token.now + Retry.MAX_BACKOFF_MS))
  }

  lemma RowChanges(s: System, event: Event, id: int)
    requires id in s.rows
    ensures id in Step(s, event).rows
    ensures var row, row' := s.rows[id], Step(s, event).rows[id];
      row' == row || IsLeased(row, row', event) || IsReleased(s, row, row', event)
  {
    hide Before;
    if event.Mark? && Working(s, event.who) && ReadyToMark(s.dispatchers[event.who].phase) {
      MarkReleases(s, event.who, event.mixed, id);
    }
  }

  lemma MarkReleases(s: System, who: nat, mixed: nat, id: int)
    requires id in s.rows && Working(s, who) && ReadyToMark(s.dispatchers[who].phase)
    ensures id in AfterMark(s, who, mixed).rows
    ensures var row, row' := s.rows[id], AfterMark(s, who, mixed).rows[id];
      row' == row || IsReleased(s, row, row', Mark(who, mixed))
  {
    Retry.OutboxDelayBounds(s.dispatchers[who].pending[0].attempts + 1, mixed);
    hide Retry.OutboxDelay, Retry.OutboxBase;
  }

  /** Rows appear only by being enqueued. */
  lemma RowAppears(s: System, event: Event, id: int)
    requires id in Step(s, event).rows && id !in s.rows
    ensures event.Enqueue? && Step(s, event).rows[id] == event.row && event.row.lease == None
  {
    hide Picks, Retry.OutboxDelay;
  }

  lemma TokensStay(s: System, event: Event, w: nat)
    requires w in Step(s, event).dispatchers
    ensures (w in s.dispatchers && Step(s, event).dispatchers[w].token == s.dispatchers[w].token) ||
            (event.Begin? && Step(s, event).dispatchers[w].token == Token(event.now, event.sequence))
  {
    hide Picks, MarkRows;
  }

  // ----- When a row can be claimed -----

  /** A clock reading or a visibility no later than a given time. */
  predicate Timed(event: Event, latest: int) {
    && (event.Begin? ==> event.now <= latest)
    && (event.Enqueue? ==> event.row.visibleAt <= latest)
  }

  ghost predicate Clocked(s: System, latest: int) {
    && (forall id :: id in s.rows ==>
          && s.rows[id].visibleAt <= latest + Retry.MAX_BACKOFF_MS
          && (s.rows[id].lease.Some? ==> s.rows[id].lease.value.token.now <= latest))
    && (forall w :: w in s.dispatchers ==> s.dispatchers[w].token.now <= latest)
  }

  lemma StepKeepsClocked(s: System, event: Event, latest: int)
    requires Clocked(s, latest) && Timed(event, latest)
    ensures Clocked(Step(s, event), latest)
  {
    hide Step, Finished, Claimable;
    var s' := Step(s, event);
    forall id | id in s'.rows
      ensures s'.rows[id].visibleAt <= latest + Retry.MAX_BACKOFF_MS
      ensures s'.rows[id].lease.Some? ==> s'.rows[id].lease.value.token.now <= latest
    {
      if id in s.rows {
        RowChanges(s, event, id);
      } else {
        RowAppears(s, event, id);
      }
    }
    forall w | w in s'.dispatchers ensures s'.dispatchers[w].token.now <= latest {
      TokensStay(s, event, w);
    }
  }

  lemma {:induction false} RunKeepsClocked(s: System, events: seq<Event>, latest: int)
    requires Clocked(s, latest) && forall k :: 0 <= k < |events| ==> Timed(events[k], latest)
    ensures Clocked(Run(s, events), latest)
    decreases |events|
  {
    hide Clocked, Step, Timed;
    if events != [] {
      StepKeepsClocked(s, events[0], latest);
      RunKeepsClocked(Step(s, events[0]), events[1..], latest);
    }
  }

  /** In every run whose clocks never read later than some time, every unfinished row can be claimed
      five minutes after that time and ever after. */
  lemma ClaimableWithinBackoff(s: System, events: seq<Event>, latest: int, id: int, now: int)
    requires Initial(s) && forall k :: 0 <= k < |events| ==> Timed(events[k], latest)
    requires id in Run(s, events).rows && !Finished(Run(s, events).rows[id]) && now >= latest + Retry.MAX_BACKOFF_MS
    ensures Claimable(Run(s, events).rows[id], now)
  {
    assert Clocked(s, latest);
    hide Run;
    RunKeepsClocked(s, events, latest);
    RunKeepsSound(s, events);
    assert RowSound(Run(s, events).rows[id], Run(s, events).engine);
  }

  // ----- No starvation -----

  /** A window so short that what is claimed or retried in it cannot be claimed again in it. */
  const WINDOW_MS := 1000

  predicate Within(event: Event, start: int) {
    event.Begin? ==> start <= event.now < start + WINDOW_MS
  }

  /** The row has had its turn: it is finished, was claimed since the start, or was put off. */
  predicate Served(row: Row, start: int) {
    || Finished(row)
    || (row.lease.Some? && row.lease.value.token.now >= start)
    || (row.lease == None && row.visibleAt >= start + WINDOW_MS)
  }

  /** A claim that takes place. */
  predicate Claims(s: System, event: Event) {
    event.Begin? && event.who !in s.dispatchers && event.limit > 0 && event.now + LEASE_MS <= I64_MAX
    && Picks(s.rows, event.now, event.limit, event.ids)
  }

  function ClaimCount(s: System, events: seq<Event>): nat
    decreases |events|
  {
    if events == [] then 0 else (if Claims(s, events[0]) then 1 else 0) + ClaimCount(Step(s, events[0]), events[1..])
  }

  function ServedRows(s: System, start: int): set<int> {
    set id | id in s.rows && Served(s.rows[id], start)
  }

  /** A row that has had its turn cannot be claimed again in the window. */
  lemma ServedNotClaimable(row: Row, engine: Engine, start: int, now: int)
    requires RowSound(row, engine) && start <= now < start + WINDOW_MS
    ensures Served(row, start) ==> !Claimable(row, now)
  {
  }

  lemma StepKeepsServed(s: System, event: Event, start: int, id: int)
    requires Sound(s) && Within(event, start) && id in s.rows && Served(s.rows[id], start)
    ensures id in Step(s, event).rows && Served(Step(s, event).rows[id], start)
  {
    assert RowSound(s.rows[id], s.engine);
    hide Step, Sound, RowSound;
    RowChanges(s, event, id);
    if event.Begin? {
      ServedNotClaimable(s.rows[id], s.engine, start, event.now);
    }
  }

  /** What stays true of a waiting row: nothing since the start has touched it. */
  ghost predicate Waits(s: System, latest: int, start: int, id: int) {
    && id in s.rows
    && (forall w :: w in s.dispatchers ==> s.dispatchers[w].token.now <= latest || s.dispatchers[w].token.now >= start)
    && (!Served(s.rows[id], start) ==>
          s.rows[id].visibleAt <= start && (s.rows[id].lease.Some? ==> s.rows[id].lease.value.token.now <= latest))
  }

  lemma StepKeepsWaiting(s: System, event: Event, latest: int, start: int, id: int)
    requires Sound(s) && Within(event, start) && Waits(s, latest, start, id) && start >= latest + Retry.MAX_BACKOFF_MS
    ensures Waits(Step(s, event), latest, start, id)
  {
    if Served(s.rows[id], start) {
      StepKeepsServed(s, event, start, id);
    }
    hide Step, Sound, Claimable;
    RowChanges(s, event, id);
    var s' := Step(s, event);
    forall w | w in s'.dispatchers ensures s'.dispatchers[w].token.now <= latest || s'.dispatchers[w].token.now >= start {
      TokensStay(s, event, w);
    }
  }

  /** A claim that passes over a row it could take serves another. */
  lemma ClaimServes(s: System, event: Event, start: int, id: int) returns (x: int)
    requires Sound(s) && Within(event, start) && Claims(s, event) && id in s.rows && Claimable(s.rows[id], event.now)
    requires id !in event.ids
    ensures x in s.rows && !Served(s.rows[x], start) && x in Step(s, event).rows && Served(Step(s, event).rows[x], start)
  {
    assert |event.ids| == event.limit;
    x := event.ids[0];
    assert x in event.ids;
    assert RowSound(s.rows[x], s.engine);
    ServedNotClaimable(s.rows[x], s.engine, start, event.now);
  }

  /** A claim that takes a row serves it. */
  lemma TakenIsServed(s: System, event: Event, start: int, id: int)
    requires Within(event, start) && Claims(s, event) && id in event.ids
    ensures id in Step(s, event).rows && Served(Step(s, event).rows[id], start)
  {
  }

  lemma StepServes(s: System, event: Event, latest: int, start: int, id: int)
    requires Sound(s) && Within(event, start) && Waits(s, latest, start, id) && start >= latest + Retry.MAX_BACKOFF_MS
    requires !Served(Step(s, event).rows[id], start)
    ensures ServedRows(s, start) <= ServedRows(Step(s, event), start)
    ensures Claims(s, event) ==> ServedRows(s, start) != ServedRows(Step(s, event), start)
  {
    forall x | x in ServedRows(s, start) ensures x in ServedRows(Step(s, event), start) {
      StepKeepsServed(s, event, start, x);
    }
    if Claims(s, event) {
      if Served(s.rows[id], start) {
        StepKeepsServed(s, event, start, id);
      }
      assert RowSound(s.rows[id], s.engine);
      hide Step, Sound, Claims;
      if id in event.ids {
        TakenIsServed(s, event, start, id);
      }
      var x := ClaimServes(s, event, start, id);
      assert x in ServedRows(Step(s, event), start) && x !in ServedRows(s, start);
    }
  }

  lemma GrowsByOne(a: set<int>, b: set<int>)
    requires a <= b
    ensures |a| <= |b| && (a != b ==> |a| < |b|)
  {
    assert b == a + (b - a);
  }

  /** While a row waits, each claim serves another row. */
  lemma {:induction false} ClaimsAreCounted(s: System, events: seq<Event>, latest: int, start: int, id: int)
    requires Sound(s) && Waits(s, latest, start, id) && start >= latest + Retry.MAX_BACKOFF_MS
    requires forall k :: 0 <= k < |events| ==> Within(events[k], start)
    ensures id in Run(s, events).rows
    ensures !Served(Run(s, events).rows[id], start) ==> |ServedRows(s, start)| + ClaimCount(s, events) <= |ServedRows(Run(s, events), start)|
    ensures Served(s.rows[id], start) ==> Served(Run(s, events).rows[id], start)
    decreases |events|
  {
    hide Sound, Step, Waits, Within, Served, ServedRows, Claims;
    WaitsIn(s, latest, start, id);
    if events != [] {
      var s1 := Step(s, events[0]);
      StepKeepsSound(s, events[0]);
      StepKeepsWaiting(s, events[0], latest, start, id);
      WaitsIn(s1, latest, start, id);
      ClaimsAreCounted(s1, events[1..], latest, start, id);
      if Served(s.rows[id], start) {
        StepKeepsServed(s, events[0], start, id);
      }
      if !Served(s1.rows[id], start) {
        StepServes(s, events[0], latest, start, id);
        GrowsByOne(ServedRows(s, start), ServedRows(s1, start));
      }
    }
  }

  lemma WaitsIn(s: System, latest: int, start: int, id: int)
    requires Waits(s, latest, start, id)
    ensures id in s.rows
  {
  }

  /** No starvation. After a run whose clocks never read later than some time, take any second of
      claims that begins five minutes later or more, with whatever else happens in between, rows
      being enqueued included: once there were as many claims as there are rows, every row has been
      claimed, finished or put off, however small the claims. */
  lemma NoStarvation(s: System, before: seq<Event>, latest: int, start: int, events: seq<Event>, id: int)
    requires Initial(s) && forall k :: 0 <= k < |before| ==> Timed(before[k], latest)
    requires start >= latest + Retry.MAX_BACKOFF_MS && forall k :: 0 <= k < |events| ==> Within(events[k], start)
    requires id in Run(s, before).rows && ClaimCount(Run(s, before), events) >= |Run(Run(s, before), events).rows|
    ensures var s' := Run(Run(s, before), events); id in s'.rows && Served(s'.rows[id], start)
  {
    var s1 := Run(s, before);
    assert Clocked(s, latest);
    hide Run;
    RunKeepsClocked(s, before, latest);
    RunKeepsSound(s, before);
    assert Waits(s1, latest, start, id);
    hide Sound, Waits, Within, Timed, Clocked;
    ClaimsAreCounted(s1, events, latest, start, id);
    var s2 := Run(s1, events);
    if !Served(s2.rows[id], start) {
      FewerServedThanRows(s2, start, id);
    }
  }

  lemma FewerServedThanRows(s: System, start: int, id: int)
    requires id in s.rows && !Served(s.rows[id], start)
    ensures |ServedRows(s, start)| < |s.rows|
  {
    hide Served;
    assert ServedRows(s, start) <= s.rows.Keys && id in s.rows.Keys && id !in ServedRows(s, start);
    GrowsByOne(ServedRows(s, start), s.rows.Keys);
  }
}
