/** The outbox dispatcher: it claims rows, asks the engine to start their workflows, reconciles lost
    answers and marks the outcome, while others do the same and the process may crash. */
module OutboxService {
  import opened Wrappers
  import opened Numbers
  import opened Outbox
  import Retry

  datatype DispatchError = ZeroBatchSize | TimeOverflow | AttemptOverflow | LostLease | Interrupted

  datatype Report = Report(claimed: nat, dispatched: nat, retrying: nat, failed: nat)

  // ----- Choosing what to claim -----

  lemma SomeMember<T>(ids: set<T>) returns (x: T)
    requires ids != {}
    ensures x in ids
  {
    x :| x in ids;
  }

  lemma {:induction false} FirstExists(rows: Rows, ids: set<int>)
    requires ids != {} && forall x :: x in ids ==> x in rows
    ensures exists x :: x in ids && forall y :: y in ids && y != x ==> Before(rows, x, y)
    decreases |ids|
  {
    var x := SomeMember(ids);
    var rest := ids - {x};
    if rest == {} {
      forall y | y in ids ensures y == x {
        assert y != x ==> y in rest;
      }
    } else {
      FirstExists(rows, rest);
      var z :| z in rest && forall y :: y in rest && y != z ==> Before(rows, z, y);
      var first := if Before(rows, x, z) then x else z;
      forall y | y in ids && y != first ensures Before(rows, first, y) {
        assert y == x || y in rest;
        assert y == x || y == z || Before(rows, z, y);
      }
    }
  }

  /** The rows picked so far, and what is left to pick from. */
  ghost predicate Picking(rows: Rows, now: int, ids: seq<int>, left: set<int>) {
    && (forall k :: 0 <= k < |ids| ==> ids[k] in rows && Claimable(rows[ids[k]], now))
    && (forall j, k :: 0 <= j < k < |ids| ==> Before(rows, ids[j], ids[k]))
    && (forall x :: x in left <==> x in rows && Claimable(rows[x], now) && x !in ids)
    && (forall x, k :: x in left && 0 <= k < |ids| ==> Before(rows, ids[k], x))
  }

  lemma PickNext(rows: Rows, now: int, ids: seq<int>, left: set<int>, x: int)
    requires Picking(rows, now, ids, left) && x in left && forall y :: y in left && y != x ==> Before(rows, x, y)
    ensures Picking(rows, now, ids + [x], left - {x})
  {
    hide Claimable, Before;
  }

  /** The rows to claim: the earliest visible ones, ties by identifier. */
  method Pick(rows: Rows, now: int, limit: nat) returns (ids: seq<int>)
    ensures Picks(rows, now, limit, ids)
  {
    hide Claimable, Before;
    var left := set x | x in rows && Claimable(rows[x], now);
    ids := [];
    while |ids| < limit && left != {}
      invariant |ids| <= limit && Picking(rows, now, ids, left)
      decreases left
    {
      FirstExists(rows, left);
      var x :| x in left && forall y :: y in left && y != x ==> Before(rows, x, y);
      PickNext(rows, now, ids, left, x);
      ids, left := ids + [x], left - {x};
    }
  }

  lemma LeaseNext(rows: Rows, now: int, limit: nat, ids: seq<int>, k: nat, token: Token)
    requires Picks(rows, now, limit, ids) && k < |ids|
    ensures ids[k] in rows && ids[k] in Leased(rows, ids[..k], token) && Leased(rows, ids[..k], token)[ids[k]] == rows[ids[k]]
    ensures Leased(rows, ids[..k], token)[ids[k] := LeaseTo(rows[ids[k]], token)] == Leased(rows, ids[..k + 1], token)
    ensures Remembered(rows, ids[..k]) + [Remember(rows, ids[k])] == Remembered(rows, ids[..k + 1])
  {
    hide Claimable;
    assert ids[k] !in ids[..k] by {
      forall j | 0 <= j < k ensures ids[j] != ids[k] {
        assert Before(rows, ids[j], ids[k]);
      }
    }
    assert ids[..k + 1] == ids[..k] + [ids[k]];
  }

  // ----- One dispatcher among others -----

  /** An event of somebody else that leaves the process alive. */
  predicate Foreign(event: Event, who: nat) {
    match event
    case Enqueue(_, _) => true
    case Begin(other, _, _, _, _) => other != who
    case Deliver(other, _) => other != who
    case Reconcile(other) => other != who
    case Mark(other, _) => other != who
    case Abandon(other) => other != who
    case Crash => false
  }

  lemma ForeignStep(s: System, event: Event, who: nat)
    requires Foreign(event, who) && who in s.dispatchers
    ensures who in Step(s, event).dispatchers && Step(s, event).dispatchers[who] == s.dispatchers[who]
  {
    hide Picks, MarkRows;
  }

  lemma {:induction false} ForeignRun(s: System, events: seq<Event>, who: nat)
    requires (forall k :: 0 <= k < |events| ==> Foreign(events[k], who)) && who in s.dispatchers
    ensures who in Run(s, events).dispatchers && Run(s, events).dispatchers[who] == s.dispatchers[who]
    decreases |events|
  {
    hide Step, Foreign;
    if events != [] {
      ForeignStep(s, events[0], who);
      ForeignRun(Step(s, events[0]), events[1..], who);
    }
  }

  /** What happens between two steps of a dispatcher: others act, and then the process may crash, or
      a request of the dispatcher's own may fail and end its run. */
  datatype Gap = Gap(others: seq<Event>, crash: bool, fault: bool)

  ghost predicate Foreigners(gaps: nat -> Gap, who: nat) {
    forall n, k :: 0 <= k < |gaps(n).others| ==> Foreign(gaps(n).others[k], who)
  }

  /** What became of one claimed row: dispatched, to be retried, or failed for good. */
  datatype Delivery = Done | Later | Never

  /** Nobody interferes, and nothing fails. */
  ghost predicate Calm(gaps: nat -> Gap) {
    forall n :: gaps(n) == Gap([], false, false)
  }

  // ----- What a delivery has to come to -----

  /** Whatever others do between two states of the engine: an instance that already ran this start is
      dispatched, one that ran another fails; a request that reached an engine without the instance is
      dispatched unless another start came first. What is dispatched runs; a row fails only when another
      start holds its instance, or when its request was turned down for good and nothing was there; it is
      retried only when its request was turned down for now and nothing was there. */
  ghost predicate Deserves(before: Engine, after: Engine, c: Claimed, wish: Answer, kind: Delivery) {
    && (c.instance in before && before[c.instance] == c.start ==> kind == Done)
    && (c.instance in before && before[c.instance] != c.start ==> kind == Never)
    && (c.instance !in before && !wish.Refused? ==> kind == Done || (kind == Never && Occupied(after, c.instance, c.start)))
    && (kind == Done ==> Delivered(after, c.instance, c.start))
    && (kind == Never ==> Occupied(after, c.instance, c.start) || (c.instance !in before && wish == Refused(false)))
    && (kind == Later ==> c.instance !in before && wish == Refused(true))
  }

  /** No instance is dropped or replaced. */
  ghost predicate Grows(before: Engine, after: Engine) {
    forall i :: i in before ==> i in after && after[i] == before[i]
  }

  lemma DeservesWider(b0: Engine, b1: Engine, a1: Engine, a2: Engine, c: Claimed, wish: Answer, kind: Delivery)
    requires Grows(b0, b1) && Grows(a1, a2) && Grows(b1, a1) && Deserves(b1, a1, c, wish, kind)
    ensures Deserves(b0, a2, c, wish, kind)
  {
  }

  lemma {:induction false} EngineGrows(s: System, events: seq<Event>)
    ensures Grows(s.engine, Run(s, events).engine)
    decreases |events|
  {
    if events != [] {
      StepGrows(s, events[0]);
      EngineGrows(Step(s, events[0]), events[1..]);
    }
  }

  lemma StepGrows(s: System, event: Event)
    ensures Grows(s.engine, Step(s, event).engine)
  {
    hide Picks, MarkRows;
  }

  /** What becomes of a row when nobody interferes. */
  ghost function Outcome(engine: Engine, c: Claimed, wish: Answer): Delivery {
    if c.instance in engine then (if engine[c.instance] == c.start then Done else Never)
    else
      match wish
      case Ok => Done
      case Lost(_) => Done
      case Refused(retryable) => if retryable then Later else Never
  }

  /** The engine after a request that nobody interferes with. */
  ghost function EngineAfter(engine: Engine, c: Claimed, wish: Answer): Engine {
    if c.instance in engine || wish.Refused? then engine else engine[c.instance := c.start]
  }

  /** The row that each outcome leaves, its lease gone. */
  ghost predicate LeftBy(kind: Delivery, before: Row, after: Row, attempts: nat, now: int) {
    match kind
    case Done => after == before.(dispatchedAt := Some(now), lastError := None, lease := None)
    case Never =>
      && after == before.(failedAt := Some(now), lastError := after.lastError, lease := None)
      && (after.lastError == Some("duroxide_identity_collision") || after.lastError == Some("duroxide_start_rejected"))
    case Later =>
      && after == before.(attempts := attempts + 1, visibleAt := after.visibleAt, lastError := after.lastError, lease := None)
      && now + 1000 <= after.visibleAt <= now + 300000
  }

  /** The first k claimed rows have come, one after the other, to the outcome their engine and their answer call
      for; the others are still leased, and nothing else has changed. */
  ghost predicate CalmRun(rows0: Rows, rows: Rows, engines: seq<Engine>, ids: seq<int>, wishes: nat -> Answer, kinds: seq<Delivery>,
                          k: nat, token: Token) {
    && |kinds| == k <= |ids| && |engines| == k + 1
    && (forall j :: 0 <= j < |ids| ==> ids[j] in rows0 && ids[j] in rows)
    && (forall j :: 0 <= j < k ==>
          && kinds[j] == Outcome(engines[j], Remember(rows0, ids[j]), wishes(j))
          && engines[j + 1] == EngineAfter(engines[j], Remember(rows0, ids[j]), wishes(j))
          && LeftBy(kinds[j], rows0[ids[j]], rows[ids[j]], rows0[ids[j]].attempts, token.now))
    && (forall j :: k <= j < |ids| ==> rows[ids[j]] == LeaseTo(rows0[ids[j]], token))
    && (forall id :: id in rows0 && id !in ids ==> id in rows && rows[id] == rows0[id])
  }

  lemma CalmStarts(rows0: Rows, engine: Engine, ids: seq<int>, wishes: nat -> Answer, now: int, limit: nat, token: Token)
    requires Picks(rows0, now, limit, ids)
    ensures CalmRun(rows0, Leased(rows0, ids, token), [engine], ids, wishes, [], 0, token)
  {
    hide Claimable, LeftBy, LeaseTo;
  }

  lemma PickedOnce(rows: Rows, now: int, limit: nat, ids: seq<int>)
    requires Picks(rows, now, limit, ids)
    ensures forall j, k :: 0 <= j < k < |ids| ==> ids[j] != ids[k]
  {
    hide Claimable;
    forall j, k | 0 <= j < k < |ids| ensures ids[j] != ids[k] {
      assert Before(rows, ids[j], ids[k]);
    }
  }

  lemma CalmNext(rows0: Rows, rows: Rows, engines: seq<Engine>, ids: seq<int>, wishes: nat -> Answer, kinds: seq<Delivery>,
                 k: nat, token: Token, rows': Rows, engine': Engine, kind: Delivery)
    requires CalmRun(rows0, rows, engines, ids, wishes, kinds, k, token) && k < |ids|
    requires forall i, j :: 0 <= i < j < |ids| ==> ids[i] != ids[j]
    requires kind == Outcome(engines[k], Remember(rows0, ids[k]), wishes(k))
    requires engine' == EngineAfter(engines[k], Remember(rows0, ids[k]), wishes(k))
    requires ids[k] in rows && ids[k] in rows' && rows' == rows[ids[k] := rows'[ids[k]]]
    requires LeftBy(kind, rows[ids[k]], rows'[ids[k]], rows0[ids[k]].attempts, token.now)
    ensures CalmRun(rows0, rows', engines + [engine'], ids, wishes, kinds + [kind], k + 1, token)
  {
    assert LeftBy(kind, rows0[ids[k]], rows'[ids[k]], rows0[ids[k]].attempts, token.now);
    hide LeftBy, Outcome, EngineAfter;
  }

  /** Every claimed row so far has come to what it deserves. */
  ghost predicate AllDeserve(before: Engine, after: Engine, starts: seq<Claimed>, wishes: nat -> Answer, kinds: seq<Delivery>) {
    && Grows(before, after) && |kinds| <= |starts|
    && forall j :: 0 <= j < |kinds| ==> Deserves(before, after, starts[j], wishes(j), kinds[j])
  }

  lemma NoneDeserve(engine: Engine, starts: seq<Claimed>, wishes: nat -> Answer)
    ensures AllDeserve(engine, engine, starts, wishes, [])
  {
  }

  lemma DeserveStill(before: Engine, after: Engine, later: Engine, starts: seq<Claimed>, wishes: nat -> Answer, kinds: seq<Delivery>)
    requires AllDeserve(before, after, starts, wishes, kinds) && Grows(after, later)
    ensures AllDeserve(before, later, starts, wishes, kinds)
  {
    GrowsSame(before);
    forall j | 0 <= j < |kinds| ensures Deserves(before, later, starts[j], wishes(j), kinds[j]) {
      hide Grows, Deserves;
      assert Deserves(before, after, starts[j], wishes(j), kinds[j]);
      DeservesWider(before, before, after, later, starts[j], wishes(j), kinds[j]);
    }
  }

  lemma DeserveNext(before: Engine, after: Engine, later: Engine, starts: seq<Claimed>, wishes: nat -> Answer, kinds: seq<Delivery>, kind: Delivery)
    requires AllDeserve(before, after, starts, wishes, kinds) && Grows(after, later) && |kinds| < |starts|
    requires Deserves(after, later, starts[|kinds|], wishes(|kinds|), kind)
    ensures AllDeserve(before, later, starts, wishes, kinds + [kind])
  {
    DeserveStill(before, after, later, starts, wishes, kinds);
    GrowsSame(later);
    hide Deserves;
    DeservesWider(before, after, later, later, starts[|kinds|], wishes(|kinds|), kind);
  }

  function CountOf(kinds: seq<Delivery>, kind: Delivery): nat {
    if kinds == [] then 0 else CountOf(kinds[..|kinds| - 1], kind) + if kinds[|kinds| - 1] == kind then 1 else 0
  }

  lemma CountNext(kinds: seq<Delivery>, last: Delivery, kind: Delivery)
    ensures CountOf(kinds + [last], kind) == CountOf(kinds, kind) + if last == kind then 1 else 0
  {
    assert (kinds + [last])[..|kinds|] == kinds;
  }

  lemma {:induction false} CountIsSize(kinds: seq<Delivery>, ids: seq<int>, kind: Delivery, some: set<int>)
    requires |kinds| == |ids| && forall i, j :: 0 <= i < j < |ids| ==> ids[i] != ids[j]
    requires forall k :: 0 <= k < |ids| ==> (kinds[k] == kind <==> ids[k] in some)
    requires forall id :: id in some ==> id in ids
    ensures |some| == CountOf(kinds, kind)
    decreases |ids|
  {
    if ids != [] {
      var n := |ids| - 1;
      hide CountOf;
      assert ids == ids[..n] + [ids[n]] && kinds == kinds[..n] + [kinds[n]];
      CountNext(kinds[..n], kinds[n], kind);
      var rest := if kinds[n] == kind then some - {ids[n]} else some;
      assert forall k :: 0 <= k < n ==> ids[..n][k] == ids[k] && kinds[..n][k] == kinds[k];
      CountIsSize(kinds[..n], ids[..n], kind, rest);
    } else if some != {} {
      var id := SomeMember(some);
      assert false;
    }
  }

  ghost function DispatchedOf(rows: Rows, ids: seq<int>): set<int> {
    set id | id in ids && id in rows && rows[id].dispatchedAt.Some?
  }

  ghost function FailedOf(rows: Rows, ids: seq<int>): set<int> {
    set id | id in ids && id in rows && rows[id].failedAt.Some?
  }

  ghost function OpenOf(rows: Rows, ids: seq<int>): set<int> {
    set id | id in ids && id in rows && !Finished(rows[id])
  }

  /** The report counts the claimed rows by what they are now. */
  ghost predicate ReportsRows(report: Report, rows: Rows, ids: seq<int>) {
    && report.claimed == |ids| && report.dispatched == |DispatchedOf(rows, ids)|
    && report.failed == |FailedOf(rows, ids)| && report.retrying == |OpenOf(rows, ids)|
  }

  lemma KindsShow(rows0: Rows, rows: Rows, engines: seq<Engine>, ids: seq<int>, wishes: nat -> Answer, kinds: seq<Delivery>, token: Token,
                  now: int, limit: nat, k: nat)
    requires CalmRun(rows0, rows, engines, ids, wishes, kinds, |ids|, token) && Picks(rows0, now, limit, ids) && k < |ids|
    ensures ids[k] in rows && |kinds| == |ids|
    ensures kinds[k] == Done <==> rows[ids[k]].dispatchedAt.Some?
    ensures kinds[k] == Never <==> rows[ids[k]].failedAt.Some?
    ensures kinds[k] == Later <==> !Finished(rows[ids[k]])
  {
    assert !Finished(rows0[ids[k]]);
    hide Picks, Outcome, EngineAfter;
  }

  lemma CalmReport(rows0: Rows, rows: Rows, engines: seq<Engine>, ids: seq<int>, wishes: nat -> Answer, kinds: seq<Delivery>, token: Token,
                   now: int, limit: nat, report: Report)
    requires CalmRun(rows0, rows, engines, ids, wishes, kinds, |ids|, token) && Picks(rows0, now, limit, ids)
    requires report == Report(|ids|, CountOf(kinds, Done), CountOf(kinds, Later), CountOf(kinds, Never))
    ensures ReportsRows(report, rows, ids)
  {
    PickedOnce(rows0, now, limit, ids);
    forall k | 0 <= k < |ids|
      ensures ids[k] in rows && |kinds| == |ids|
      ensures kinds[k] == Done <==> rows[ids[k]].dispatchedAt.Some?
      ensures kinds[k] == Never <==> rows[ids[k]].failedAt.Some?
      ensures kinds[k] == Later <==> !Finished(rows[ids[k]])
    {
      KindsShow(rows0, rows, engines, ids, wishes, kinds, token, now, limit, k);
    }
    KindsLength(rows0, rows, engines, ids, wishes, kinds, token);
    hide CalmRun, Picks, CountOf, Finished;
    CountIsSize(kinds, ids, Done, DispatchedOf(rows, ids));
    CountIsSize(kinds, ids, Never, FailedOf(rows, ids));
    CountIsSize(kinds, ids, Later, OpenOf(rows, ids));
  }

  lemma KindsLength(rows0: Rows, rows: Rows, engines: seq<Engine>, ids: seq<int>, wishes: nat -> Answer, kinds: seq<Delivery>, token: Token)
    requires CalmRun(rows0, rows, engines, ids, wishes, kinds, |ids|, token)
    ensures |kinds| == |ids|
  {
  }

  /** What a dispatcher keeps while it serves its claimed rows, k of them so far. */
  ghost predicate Kept(first: System, s: System, events: seq<Event>, gaps: nat -> Gap, starts: seq<Claimed>, ids: seq<int>, wishes: nat -> Answer,
                       kinds: seq<Delivery>, engines: seq<Engine>, token: Token, k: nat) {
    && s == Run(first, events) && |kinds| == k <= |ids| && |engines| == k + 1 && engines[0] == first.engine
    && (Sound(first) ==> AllSettled(s.rows, ids[..k], token))
    && AllDeserve(first.engine, s.engine, starts, wishes, kinds)
    && (Calm(gaps) ==> engines[k] == s.engine && CalmRun(first.rows, s.rows, engines, ids, wishes, kinds, k, token))
  }

  lemma KeptFirst(first: System, s: System, events: seq<Event>, gaps: nat -> Gap, starts: seq<Claimed>, ids: seq<int>, wishes: nat -> Answer,
                  token: Token, now: int, limit: nat)
    requires s == Run(first, events) && s.engine == first.engine && Picks(first.rows, now, limit, ids) && s.rows == Leased(first.rows, ids, token)
    ensures Kept(first, s, events, gaps, starts, ids, wishes, [], [first.engine], token, 0)
  {
    NoneSettled(s.rows, ids, token);
    NoneDeserve(first.engine, starts, wishes);
    CalmStarts(first.rows, first.engine, ids, wishes, now, limit, token);
    hide Picks, Leased, CalmRun, AllDeserve, AllSettled, Run, Sound;
  }

  lemma KeptRuns(first: System, s: System, events: seq<Event>, more: seq<Event>, s': System, gaps: nat -> Gap, starts: seq<Claimed>,
                 ids: seq<int>, wishes: nat -> Answer, kinds: seq<Delivery>, engines: seq<Engine>, token: Token, k: nat)
    requires Kept(first, s, events, gaps, starts, ids, wishes, kinds, engines, token, k) && s' == Run(s, more)
    ensures s' == Run(first, events + more)
  {
    hide Run, CalmRun, AllDeserve, AllSettled, Sound;
    RunOn(first, events, s, more);
  }

  lemma KeptIsRun(first: System, s: System, events: seq<Event>, gaps: nat -> Gap, starts: seq<Claimed>,
                  ids: seq<int>, wishes: nat -> Answer, kinds: seq<Delivery>, engines: seq<Engine>, token: Token, k: nat)
    requires Kept(first, s, events, gaps, starts, ids, wishes, kinds, engines, token, k)
    ensures s == Run(first, events)
  {
    hide Run, CalmRun, AllDeserve, AllSettled, Sound;
  }

  /** While others act, it is kept. */
  lemma KeptOn(first: System, s: System, events: seq<Event>, more: seq<Event>, s': System, gaps: nat -> Gap, starts: seq<Claimed>,
               ids: seq<int>, wishes: nat -> Answer, kinds: seq<Delivery>, engines: seq<Engine>, token: Token, k: nat)
    requires Kept(first, s, events, gaps, starts, ids, wishes, kinds, engines, token, k) && s' == Run(s, more)
    requires Calm(gaps) ==> s' == s
    ensures Kept(first, s', events + more, gaps, starts, ids, wishes, kinds, engines, token, k)
  {
    hide Run, CalmRun, AllDeserve, AllSettled, Sound, Calm;
    RunOn(first, events, s, more);
    SettledStay(first, events, s, more, ids[..k], token);
    GrowsOn(s, more, s');
    DeserveStill(first.engine, s.engine, s'.engine, starts, wishes, kinds);
  }

  /** One more row is served. */
  lemma KeptNext(first: System, s: System, events: seq<Event>, more: seq<Event>, s': System, gaps: nat -> Gap, starts: seq<Claimed>,
                 ids: seq<int>, wishes: nat -> Answer, kinds: seq<Delivery>, engines: seq<Engine>, token: Token, k: nat, kind: Delivery,
                 now: int, limit: nat)
    requires Kept(first, s, events, gaps, starts, ids, wishes, kinds, engines, token, k) && s' == Run(s, more) && k < |ids| == |starts|
    requires Picks(first.rows, now, limit, ids) && starts == Remembered(first.rows, ids)
    requires SettledUnder(s'.rows, starts[k].id, token) && Deserves(s.engine, s'.engine, starts[k], wishes(k), kind)
    requires Calm(gaps) ==>
               && s'.engine == EngineAfter(s.engine, starts[k], wishes(k)) && kind == Outcome(s.engine, starts[k], wishes(k))
               && starts[k].id in s.rows && starts[k].id in s'.rows && s'.rows == s.rows[starts[k].id := s'.rows[starts[k].id]]
               && LeftBy(kind, s.rows[starts[k].id], s'.rows[starts[k].id], starts[k].attempts, token.now)
    ensures Kept(first, s', events + more, gaps, starts, ids, wishes, kinds + [kind], engines + [s'.engine], token, k + 1)
  {
    RememberedAt(first.rows, now, limit, ids, k);
    PickedOnce(first.rows, now, limit, ids);
    hide Run, CalmRun, AllDeserve, AllSettled, Sound, Calm, Picks, Remembered, Deserves, SettledUnder, LeftBy, EngineAfter, Outcome;
    RunOn(first, events, s, more);
    SettledStay(first, events, s, more, ids[..k], token);
    OneMoreSettled(s'.rows, ids, k, token);
    GrowsOn(s, more, s');
    DeserveNext(first.engine, s.engine, s'.engine, starts, wishes, kinds, kind);
    if Calm(gaps) {
      CalmNext(first.rows, s.rows, engines, ids, wishes, kinds, k, token, s'.rows, s'.engine, kind);
    }
  }

  lemma KeptAll(first: System, s: System, events: seq<Event>, gaps: nat -> Gap, starts: seq<Claimed>, ids: seq<int>, wishes: nat -> Answer,
                kinds: seq<Delivery>, engines: seq<Engine>, token: Token)
    requires Kept(first, s, events, gaps, starts, ids, wishes, kinds, engines, token, |ids|)
    ensures s == Run(first, events) && |kinds| == |ids| && |engines| == |ids| + 1 && engines[0] == first.engine
    ensures Sound(first) ==> forall id :: id in ids ==> SettledUnder(s.rows, id, token)
    ensures AllDeserve(first.engine, s.engine, starts, wishes, kinds)
    ensures Calm(gaps) ==> engines[|ids|] == s.engine && CalmRun(first.rows, s.rows, engines, ids, wishes, kinds, |ids|, token)
  {
    AllAreSettled(s.rows, ids, token);
    hide Run, CalmRun, AllDeserve, AllSettled, Sound, Calm;
  }

  /** What a phase has found out. */
  function KindOf(phase: Phase): Delivery
    requires ReadyToMark(phase)
  {
    match phase
    case Accepted => Done
    case Reconciled(Same, _) => Done
    case Reconciled(Collision, _) => Never
    case Reconciled(Missing, retryable) => if retryable then Later else Never
  }

  /** An effective mark changes just its row, to what its phase calls for. */
  lemma MarkLeaves(rows: Rows, d: Dispatcher, mixed: nat)
    requires d.pending != [] && ReadyToMark(d.phase) && MarkRows(rows, d, mixed) != rows
    ensures var c := d.pending[0]; var rows' := MarkRows(rows, d, mixed);
      && c.id in rows && c.id in rows' && rows' == rows[c.id := rows'[c.id]]
      && LeftBy(KindOf(d.phase), rows[c.id], rows'[c.id], c.attempts, d.token.now)
  {
    Retry.OutboxDelayBounds(d.pending[0].attempts + 1, mixed);
    hide Retry.OutboxDelay, Retry.OutboxBase;
  }

  lemma AfterMarkIs(s: System, who: nat, mixed: nat)
    requires Working(s, who) && ReadyToMark(s.dispatchers[who].phase) && who in Step(s, Mark(who, mixed)).dispatchers
    ensures Step(s, Mark(who, mixed)).engine == s.engine
    ensures Step(s, Mark(who, mixed)).rows == MarkRows(s.rows, s.dispatchers[who], mixed) != s.rows
  {
    hide MarkRows;
  }

  /** The dispatcher's database, the engine behind its client, and the runs in flight. */
  class Service {
    var rows: Rows
    var engine: Engine
    var dispatchers: map<nat, Dispatcher>

    ghost function State(): System
      reads this
    {
      System(rows, engine, dispatchers)
    }

    /** Leases the first claimable rows and returns them as they were. */
    method Claim(now: int, sequence: nat, limit: nat) returns (r: Result<seq<Claimed>, DispatchError>, ghost ids: seq<int>)
      modifies this`rows
      ensures limit == 0 ==> r == Failure(ZeroBatchSize)
      ensures limit > 0 && now + LEASE_MS > I64_MAX ==> r == Failure(TimeOverflow)
      ensures r.Failure? <==> limit == 0 || now + LEASE_MS > I64_MAX
      ensures r.Failure? ==> rows == old(rows)
      ensures r.Success? ==>
        && Picks(old(rows), now, limit, ids)
        && rows == Leased(old(rows), ids, Token(now, sequence))
        && r.value == Remembered(old(rows), ids)
    {
      ids := [];
      if limit == 0 {
        return Failure(ZeroBatchSize), ids;
      }
      if now + LEASE_MS > I64_MAX {
        return Failure(TimeOverflow), ids;
      }
      var picked := Pick(rows, now, limit);
      ids := picked;
      ghost var before := rows;
      var token := Token(now, sequence);
      var starts := [];
      for k := 0 to |picked|
        invariant rows == Leased(before, picked[..k], token)
        invariant starts == Remembered(before, picked[..k])
      {
        var id := picked[k];
        LeaseNext(before, now, limit, picked, k, token);
        rows := rows[id := LeaseTo(rows[id], token)];
        starts := starts + [Claimed(id, rows[id].instance, rows[id].start, rows[id].attempts)];
      }
      assert picked[..|picked|] == picked;
      return Success(starts), ids;
    }

    method MarkDispatched(id: int, token: Token, now: int) returns (r: Result<(), DispatchError>)
      modifies this`rows
      ensures rows == Dispatched(old(rows), id, token, now)
      ensures r == if Holds(old(rows), id, token) then Success(()) else Failure(LostLease)
    {
      if id in rows && rows[id].lease.Some? && rows[id].lease.value.token == token {
        rows := rows[id := rows[id].(dispatchedAt := Some(now), lastError := None, lease := None)];
        return Success(());
      }
      return Failure(LostLease);
    }

    method MarkPermanent(id: int, token: Token, now: int, error: string) returns (r: Result<(), DispatchError>)
      modifies this`rows
      ensures rows == PermanentlyFailed(old(rows), id, token, now, error)
      ensures r == if Holds(old(rows), id, token) then Success(()) else Failure(LostLease)
    {
      if id in rows && rows[id].lease.Some? && rows[id].lease.value.token == token {
        rows := rows[id := rows[id].(failedAt := Some(now), lastError := Some(error), lease := None)];
        return Success(());
      }
      return Failure(LostLease);
    }

    method MarkRetry(c: Claimed, token: Token, now: int, mixed: nat) returns (r: Result<(), DispatchError>)
      modifies this`rows
      ensures var delay := Retry.OutboxDelay(c.attempts + 1, mixed);
        rows == if now + delay > I64_MAX || c.attempts + 1 > I64_MAX then old(rows) else Retried(old(rows), c, token, now, delay)
      ensures var delay := Retry.OutboxDelay(c.attempts + 1, mixed);
        r == if now + delay > I64_MAX then Failure(TimeOverflow)
             else if c.attempts + 1 > I64_MAX then Failure(AttemptOverflow)
             else if Holds(old(rows), c.id, token) then Success(()) else Failure(LostLease)
    {
      var attempt := c.attempts + 1;
      var delay := Retry.OutboxDelay(attempt, mixed);
      var visibleAt := now + delay;
      if visibleAt > I64_MAX {
        return Failure(TimeOverflow);
      }
      if attempt > I64_MAX {
        return Failure(AttemptOverflow);
      }
      if c.id in rows && rows[c.id].lease.Some? && rows[c.id].lease.value.token == token {
        rows := rows[c.id := rows[c.id].(attempts := attempt, visibleAt := visibleAt, lease := None,
                                         lastError := Some(RETRYABLE))];
        return Success(());
      }
      return Failure(LostLease);
    }

    /** Others act, and the run may end. */
    method Pause(gap: Gap, who: nat) returns (alive: bool, ghost events: seq<Event>)
      requires who in dispatchers && forall k :: 0 <= k < |gap.others| ==> Foreign(gap.others[k], who)
      modifies this
      ensures State() == Run(old(State()), events)
      ensures alive ==> who in dispatchers && dispatchers[who] == old(dispatchers[who])
      ensures gap == Gap([], false, false) ==> alive && State() == old(State())
    {
      hide Run, Foreign;
      var s := Run(System(rows, engine, dispatchers), gap.others);
      RunOne(old(State()), Crash);
      ForeignRun(old(State()), gap.others, who);
      events, alive := gap.others, !gap.crash && !gap.fault;
      if gap.crash {
        RunFurther(old(State()), gap.others, s, Crash);
        s, events := s.(dispatchers := map[]), events + [Crash];
      } else if gap.fault {
        RunFurther(old(State()), gap.others, s, Abandon(who));
        AbandonStep(s, who);
        s, events := s.(dispatchers := s.dispatchers - {who}), events + [Abandon(who)];
      }
      rows, engine, dispatchers := s.rows, s.engine, s.dispatchers;
    }

    /** Asks the engine to start the first row's workflow. An engine that holds another start under
        the instance cannot answer that it accepted this one. */
    method StartFirst(who: nat, wish: Answer) returns (answer: Answer)
      requires Working(State(), who) && dispatchers[who].phase == Fresh
      modifies this`engine, this`dispatchers
      ensures State() == Step(old(State()), Deliver(who, answer))
      ensures who in dispatchers && rows == old(rows)
      ensures answer == wish || (answer == Refused(false) && Occupied(old(engine), old(dispatchers[who]).pending[0].instance, old(dispatchers[who]).pending[0].start))
      ensures engine == EngineAfter(old(engine), old(dispatchers[who]).pending[0], answer)
      ensures answer == Ok ==> Delivered(engine, old(dispatchers[who]).pending[0].instance, old(dispatchers[who]).pending[0].start)
      ensures dispatchers[who] == old(dispatchers[who]).(phase := if answer.Ok? then Accepted else Unsure(answer.retryable))
    {
      var d := dispatchers[who];
      var c := d.pending[0];
      answer := if wish == Ok && c.instance in engine && engine[c.instance] != c.start then Refused(false) else wish;
      if !answer.Refused? && c.instance !in engine {
        engine := engine[c.instance := c.start];
      }
      dispatchers := dispatchers[who := d.(phase := if answer.Ok? then Accepted else Unsure(answer.retryable))];
    }

    /** Asks the engine what it holds under the first row's instance. */
    method InspectFirst(who: nat)
      requires Working(State(), who) && dispatchers[who].phase.Unsure?
      modifies this`dispatchers
      ensures State() == Step(old(State()), Reconcile(who))
      ensures who in dispatchers && rows == old(rows) && engine == old(engine)
      ensures dispatchers[who] ==
              old(dispatchers[who]).(phase := Reconciled(Inspection(old(engine), old(dispatchers[who]).pending[0]), old(dispatchers[who]).phase.retryable))
    {
      var d := dispatchers[who];
      var c := d.pending[0];
      var existing;
      if c.instance !in engine {
        existing := Missing;
      } else if engine[c.instance] == c.start {
        existing := Same;
      } else {
        existing := Collision;
      }
      dispatchers := dispatchers[who := d.(phase := Reconciled(existing, d.phase.retryable))];
    }

    /** Marks the first row according to what is known of its start. Without the lease, or when a
        time does not fit, the run ends with an error. */
    method MarkFirst(who: nat, mixed: nat) returns (r: Result<Delivery, DispatchError>)
      requires Working(State(), who) && ReadyToMark(dispatchers[who].phase)
      modifies this`rows, this`dispatchers
      ensures State() == Step(old(State()), Mark(who, mixed))
      ensures r.Success? <==> who in dispatchers
      ensures r.Success? ==> dispatchers[who] == Dispatcher(old(dispatchers[who]).token, old(dispatchers[who]).pending[1..], Fresh)
      ensures r.Success? ==> Holds(old(rows), old(dispatchers[who]).pending[0].id, old(dispatchers[who]).token)
      ensures r.Success? ==> SettledUnder(rows, old(dispatchers[who]).pending[0].id, old(dispatchers[who]).token)
      ensures r.Success? ==> r.value == KindOf(old(dispatchers[who]).phase)
    {
      var d := dispatchers[who];
      var c, token, now := d.pending[0], d.token, d.token.now;
      var marked, kind;
      hide Retry.OutboxDelay, SettledUnder;
      MarksChange(rows, d, mixed);
      MarkSettles(rows, d, mixed);
      match d.phase {
        case Accepted =>
          kind := Done;
          marked := MarkDispatched(c.id, token, now);
        case Reconciled(Same, _) =>
          kind := Done;
          marked := MarkDispatched(c.id, token, now);
        case Reconciled(Collision, _) =>
          kind := Never;
          marked := MarkPermanent(c.id, token, now, COLLISION);
        case Reconciled(Missing, true) =>
          kind := Later;
          marked := MarkRetry(c, token, now, mixed);
        case Reconciled(Missing, false) =>
          kind := Never;
          marked := MarkPermanent(c.id, token, now, REJECTED);
      }
      if marked.Failure? {
        dispatchers := dispatchers - {who};
        return Failure(marked.error);
      }
      dispatchers := dispatchers[who := Dispatcher(token, d.pending[1..], Fresh)];
      return Success(kind);
    }

    /** Delivers the first claimed row: start, reconcile when the answer was lost or bad, mark. */
    method DeliverFirst(who: nat, wish: Answer, mixed: nat, gaps: nat -> Gap, n: nat)
      returns (r: Result<Delivery, DispatchError>, ghost events: seq<Event>)
      requires who in dispatchers && dispatchers[who].pending != [] && dispatchers[who].phase == Fresh && Foreigners(gaps, who)
      modifies this
      ensures System(rows, engine, dispatchers) == Run(System(old(rows), old(engine), old(dispatchers)), events)
      ensures r.Success? ==> who in dispatchers
      ensures r.Success? ==> dispatchers[who] == Dispatcher(old(dispatchers[who]).token, old(dispatchers[who]).pending[1..], Fresh)
      ensures r.Success? ==> SettledUnder(rows, old(dispatchers[who]).pending[0].id, old(dispatchers[who]).token)
      ensures r.Success? ==> Deserves(old(engine), engine, old(dispatchers[who]).pending[0], wish, r.value)
      ensures r.Success? && Calm(gaps) ==>
        var c := old(dispatchers[who]).pending[0];
        && engine == EngineAfter(old(engine), c, wish) && r.value == Outcome(old(engine), c, wish)
        && c.id in old(rows) && c.id in rows && rows == old(rows)[c.id := rows[c.id]]
        && LeftBy(r.value, old(rows)[c.id], rows[c.id], c.attempts, old(dispatchers[who]).token.now)
    {
      hide Run, Step, Foreign, Foreigners, SettledUnder, Calm, LeftBy, MarkRows, Deserves;
      CalmAt(gaps, n);
      CalmAt(gaps, n + 1);
      ghost var c := dispatchers[who].pending[0];
      ghost var first := State();
      ghost var more: seq<Event>;
      RunOne(first, Crash);
      ForeignersAt(gaps, who, n);
      ForeignersAt(gaps, who, n + 1);
      var answer := StartFirst(who, wish);
      RunFurther(first, [], first, Deliver(who, answer));
      events := [] + [Deliver(who, answer)];
      ghost var last := State();
      ghost var e1 := engine;
      var alive;
      alive, more := Pause(gaps(n), who);
      RunOn(first, events, last, more);
      GrowsOn(last, more, State());
      ghost var e2 := engine;
      events := events + more;
      if !alive {
        return Failure(Interrupted), events;
      }
      if !answer.Ok? {
        last := State();
        InspectFirst(who);
        RunFurther(first, events, last, Reconcile(who));
        events := events + [Reconcile(who)];
        last := State();
        alive, more := Pause(gaps(n + 1), who);
        RunOn(first, events, last, more);
        GrowsOn(last, more, State());
        events := events + more;
        if !alive {
          return Failure(Interrupted), events;
        }
      }
      last := State();
      ghost var d := dispatchers[who];
      r := MarkFirst(who, mixed);
      RunFurther(first, events, last, Mark(who, mixed));
      events := events + [Mark(who, mixed)];
      if r.Success? {
        AfterMarkIs(last, who, mixed);
        MarkLeaves(last.rows, d, mixed);
        GrowsSame(engine);
        Delivers(first.engine, e1, e2, engine, c, wish, answer, d.phase);
      }
    }

    /** One run of a dispatcher. Whatever the engine answers, whatever others do between its steps
        and wherever it crashes, what it leaves is a run of the protocol, so everything proved of every
        run holds of it. A run that ends well, from a state that a run of the protocol leaves, has settled
        every row it claimed: each is finished, put off, or claimed later by somebody else. */
    method RunOnce(who: nat, now: int, sequence: nat, limit: nat, wishes: nat -> Answer, mixes: nat -> nat, gaps: nat -> Gap)
      returns (r: Result<Report, DispatchError>, ghost events: seq<Event>, ghost ids: seq<int>, ghost kinds: seq<Delivery>,
               ghost engines: seq<Engine>)
      requires who !in dispatchers && Foreigners(gaps, who)
      modifies this
      ensures System(rows, engine, dispatchers) == Run(System(old(rows), old(engine), old(dispatchers)), events)
      ensures limit == 0 ==> r == Failure(ZeroBatchSize) && events == []
      ensures limit > 0 && now + LEASE_MS > I64_MAX ==> r == Failure(TimeOverflow) && events == []
      ensures r.Success? ==> r.value.claimed == r.value.dispatched + r.value.retrying + r.value.failed <= limit
      ensures r.Success? ==> Picks(old(rows), now, limit, ids) && |ids| == r.value.claimed
      ensures r.Success? && Sound(System(old(rows), old(engine), old(dispatchers))) ==>
                forall id :: id in ids ==> SettledUnder(rows, id, Token(now, sequence))
      ensures r.Success? ==>
        && r.value == Report(|ids|, CountOf(kinds, Done), CountOf(kinds, Later), CountOf(kinds, Never))
        && |kinds| == |ids| && AllDeserve(old(engine), engine, Remembered(old(rows), ids), wishes, kinds)
      ensures r.Success? && Calm(gaps) ==>
        && CalmRun(old(rows), rows, engines, ids, wishes, kinds, |ids|, Token(now, sequence))
        && engines[0] == old(engine) && engines[|ids|] == engine
        && ReportsRows(r.value, rows, ids)
    {
      hide Run, Step, Foreign, Foreigners, Picks, Leased, Remembered, SettledUnder, Sound;
      hide CalmRun, AllDeserve, Grows, Deserves, LeftBy, Calm, CountOf, ReportsRows, Outcome, EngineAfter, Kept, AllSettled;
      kinds, engines := [], [engine];
      ghost var first := State();
      ghost var more: seq<Event>;
      RunOne(first, Crash);
      events := [];
      var claimed;
      claimed, ids := Claim(now, sequence, limit);
      if claimed.Failure? {
        return Failure(claimed.error), events, ids, kinds, engines;
      }
      var starts := claimed.value;
      ClaimedCount(old(rows), now, limit, ids);
      NothingCounted();
      BeginStep(first, who, now, sequence, limit, ids);
      RunFurther(first, [], first, Begin(who, now, sequence, limit, ids));
      events := [] + [Begin(who, now, sequence, limit, ids)];
      var token := Token(now, sequence);
      dispatchers := dispatchers[who := Dispatcher(token, starts, Fresh)];
      var report := Report(|starts|, 0, 0, 0);
      KeptFirst(first, State(), events, gaps, starts, ids, wishes, token, now, limit);
      for k := 0 to |starts|
        invariant Kept(first, State(), events, gaps, starts, ids, wishes, kinds, engines, token, k)
        invariant who in dispatchers && dispatchers[who] == Dispatcher(token, starts[k..], Fresh)
        invariant report.claimed == |starts| && report.dispatched + report.retrying + report.failed == k
        invariant report == Report(|starts|, CountOf(kinds, Done), CountOf(kinds, Later), CountOf(kinds, Never))
      {
        ghost var last := State();
        ForeignersAt(gaps, who, 3 * k);
        var alive;
        CalmAt(gaps, 3 * k);
        alive, more := Pause(gaps(3 * k), who);
        KeptOn(first, last, events, more, State(), gaps, starts, ids, wishes, kinds, engines, token, k);
        events := events + more;
        if !alive {
          KeptIsRun(first, State(), events, gaps, starts, ids, wishes, kinds, engines, token, k);
          return Failure(Interrupted), events, ids, kinds, engines;
        }
        last := State();
        var delivered;
        delivered, more := DeliverFirst(who, wishes(k), mixes(k), gaps, 3 * k + 1);
        if delivered.Failure? {
          KeptRuns(first, last, events, more, State(), gaps, starts, ids, wishes, kinds, engines, token, k);
          return Failure(delivered.error), events + more, ids, kinds, engines;
        }
        assert starts[k..][0] == starts[k] && starts[k..][1..] == starts[k + 1..];
        KeptNext(first, last, events, more, State(), gaps, starts, ids, wishes, kinds, engines, token, k, delivered.value, now, limit);
        events := events + more;
        CountNext(kinds, delivered.value, Done);
        CountNext(kinds, delivered.value, Later);
        CountNext(kinds, delivered.value, Never);
        kinds, engines := kinds + [delivered.value], engines + [engine];
        match delivered.value {
          case Done => report := report.(dispatched := report.dispatched + 1);
          case Later => report := report.(retrying := report.retrying + 1);
          case Never => report := report.(failed := report.failed + 1);
        }
      }
      ghost var last := State();
      KeptAll(first, last, events, gaps, starts, ids, wishes, kinds, engines, token);
      if Calm(gaps) {
        CalmReport(first.rows, rows, engines, ids, wishes, kinds, token, now, limit, report);
      }
      AbandonStep(last, who);
      RunFurther(first, events, last, Abandon(who));
      events := events + [Abandon(who)];
      dispatchers := dispatchers - {who};
      return Success(report), events, ids, kinds, engines;
    }
  }

  lemma NothingCounted()
    ensures CountOf([], Done) == 0 && CountOf([], Later) == 0 && CountOf([], Never) == 0
  {
  }

  lemma RememberedAt(rows: Rows, now: int, limit: nat, ids: seq<int>, k: nat)
    requires Picks(rows, now, limit, ids) && k < |ids|
    ensures ids[k] in rows && |Remembered(rows, ids)| == |ids| && Remembered(rows, ids)[k] == Remember(rows, ids[k])
    ensures Remember(rows, ids[k]).id == ids[k] && Remember(rows, ids[k]).attempts == rows[ids[k]].attempts
  {
    hide Claimable, Before;
  }

  lemma GrowsOn(s: System, events: seq<Event>, s': System)
    requires s' == Run(s, events)
    ensures Grows(s.engine, s'.engine)
  {
    hide *;
    EngineGrows(s, events);
  }

  lemma GrowsSame(engine: Engine)
    ensures Grows(engine, engine)
  {
  }

  lemma CalmAt(gaps: nat -> Gap, n: nat)
    ensures Calm(gaps) ==> gaps(n) == Gap([], false, false)
  {
  }

  /** From the request to the mark: the engine before it, after it, when it was asked again, and at the mark. */
  lemma Delivers(e0: Engine, e1: Engine, e2: Engine, e3: Engine, c: Claimed, wish: Answer, answer: Answer, phase: Phase)
    requires answer == wish || (answer == Refused(false) && Occupied(e0, c.instance, c.start))
    requires e1 == EngineAfter(e0, c, answer) && (answer == Ok ==> Delivered(e1, c.instance, c.start)) && Grows(e1, e2) && Grows(e2, e3)
    requires phase == if answer.Ok? then Accepted else Reconciled(Inspection(e2, c), answer.retryable)
    ensures Deserves(e0, e3, c, wish, KindOf(phase))
    ensures e1 == e2 ==> KindOf(phase) == Outcome(e0, c, wish) && e1 == EngineAfter(e0, c, wish)
  {
  }

  lemma ClaimedCount(rows: Rows, now: int, limit: nat, ids: seq<int>)
    requires Picks(rows, now, limit, ids)
    ensures |Remembered(rows, ids)| == |ids| <= limit
    ensures forall k :: 0 <= k < |ids| ==> Remembered(rows, ids)[k].id == ids[k]
  {
  }

  /** The row is settled as far as the token goes: no mark under the token will ever change it. */
  ghost predicate SettledUnder(rows: Rows, id: int, token: Token) {
    id in rows && Superseded(rows[id], token)
  }

  ghost predicate AllSettled(rows: Rows, ids: seq<int>, token: Token) {
    forall k :: 0 <= k < |ids| ==> SettledUnder(rows, ids[k], token)
  }

  lemma NoneSettled(rows: Rows, ids: seq<int>, token: Token)
    ensures AllSettled(rows, ids[..0], token)
  {
  }

  lemma OneMoreSettled(rows: Rows, ids: seq<int>, k: nat, token: Token)
    requires k < |ids| && SettledUnder(rows, ids[k], token)
    ensures AllSettled(rows, ids[..k], token) ==> AllSettled(rows, ids[..k + 1], token)
  {
    hide SettledUnder;
  }

  lemma AllAreSettled(rows: Rows, ids: seq<int>, token: Token)
    ensures AllSettled(rows, ids[..|ids|], token) ==> forall id :: id in ids ==> SettledUnder(rows, id, token)
  {
    hide SettledUnder;
    assert ids[..|ids|] == ids;
  }

  /** Settled rows stay settled, whatever happens. */
  lemma SettledStay(first: System, events: seq<Event>, last: System, more: seq<Event>, ids: seq<int>, token: Token)
    requires last == Run(first, events)
    ensures Sound(first) && AllSettled(last.rows, ids, token) ==> AllSettled(Run(last, more).rows, ids, token)
  {
    hide Run, Sound, Superseded;
    if Sound(first) && AllSettled(last.rows, ids, token) {
      RunKeepsSound(first, events);
      forall k | 0 <= k < |ids| ensures SettledUnder(Run(last, more).rows, ids[k], token) {
        assert SettledUnder(last.rows, ids[k], token);
        SupersededForever(last, more, ids[k], token);
      }
    }
  }

  /** A mark that finds its lease settles the row: it is finished, or put off beyond the token's time. */
  lemma MarkSettles(rows: Rows, d: Dispatcher, mixed: nat)
    requires d.pending != [] && ReadyToMark(d.phase)
    ensures MarkRows(rows, d, mixed) != rows ==> SettledUnder(MarkRows(rows, d, mixed), d.pending[0].id, d.token)
  {
    hide Retry.OutboxDelay;
    Retry.OutboxDelayBounds(d.pending[0].attempts + 1, mixed);
  }

  lemma RunFurther(s: System, events: seq<Event>, s': System, event: Event)
    requires s' == Run(s, events)
    ensures Run(s, events + [event]) == Step(s', event)
  {
    hide *;
    RunAppend(s, events, [event]);
    RunOne(s', event);
  }

  lemma RunOn(s: System, events: seq<Event>, s': System, more: seq<Event>)
    requires s' == Run(s, events)
    ensures Run(s, events + more) == Run(s', more)
  {
    hide *;
    RunAppend(s, events, more);
  }

  lemma BeginStep(s: System, who: nat, now: int, sequence: nat, limit: nat, ids: seq<int>)
    requires who !in s.dispatchers && limit > 0 && now + LEASE_MS <= I64_MAX && Picks(s.rows, now, limit, ids)
    ensures Step(s, Begin(who, now, sequence, limit, ids)) ==
      System(Leased(s.rows, ids, Token(now, sequence)), s.engine,
             s.dispatchers[who := Dispatcher(Token(now, sequence), Remembered(s.rows, ids), Fresh)])
  {
    hide Picks;
  }

  lemma AbandonStep(s: System, who: nat)
    ensures Step(s, Abandon(who)) == s.(dispatchers := s.dispatchers - {who})
  {
  }

  lemma ForeignersAt(gaps: nat -> Gap, who: nat, n: nat)
    requires Foreigners(gaps, who)
    ensures forall k :: 0 <= k < |gaps(n).others| ==> Foreign(gaps(n).others[k], who)
  {
  }

  /** A mark changes the rows exactly when the dispatcher holds the row and, for a retry, the times fit. */
  lemma MarksChange(rows: Rows, d: Dispatcher, mixed: nat)
    requires d.pending != [] && ReadyToMark(d.phase)
    ensures var c := d.pending[0]; var delay := Retry.OutboxDelay(c.attempts + 1, mixed);
      MarkRows(rows, d, mixed) != rows <==>
        && Holds(rows, c.id, d.token)
        && (d.phase == Reconciled(Missing, true) ==> c.attempts + 1 <= I64_MAX && d.token.now + delay <= I64_MAX)
  {
    hide Retry.OutboxDelay;
    var c := d.pending[0];
    if Holds(rows, c.id, d.token) {
      assert MarkRows(rows, d, mixed) == rows || MarkRows(rows, d, mixed)[c.id].lease == None;
    }
  }
}
