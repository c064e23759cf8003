/** The outbox: rows that ask for a workflow start, claimed under leases by dispatchers that may
    crash or stall at any point, and an engine whose answers may be lost. */
module Outbox {
  import opened Wrappers
  import opened Numbers
  import Retry

  const LEASE_MS := 60000

  const COLLISION := "duroxide_identity_collision"
  const REJECTED := "duroxide_start_rejected"
  const RETRYABLE := "duroxide_start_retryable"

  datatype Start = Start(name: string, version: string, input: string)

  datatype Token = Token(now: int, sequence: nat)

  datatype Lease = Lease(token: Token, until: int)

  datatype Row = Row(instance: string, start: Start, visibleAt: int, attempts: nat, lease: Option<Lease>,
                     dispatchedAt: Option<int>, failedAt: Option<int>, lastError: Option<string>)

  type Rows = map<int, Row>

  /** A row as a dispatcher remembers it. */
  datatype Claimed = Claimed(id: int, instance: string, start: Start, attempts: nat)

  predicate Finished(row: Row) {
    row.dispatchedAt.Some? || row.failedAt.Some?
  }

  predicate Claimable(row: Row, now: int) {
    !Finished(row) && row.visibleAt <= now && (row.lease == None || row.lease.value.until <= now)
  }

  // ----- Claiming -----

  /** Earlier in the order rows are claimed in. */
  predicate Before(rows: Rows, a: int, b: int)
    requires a in rows && b in rows
  {
    rows[a].visibleAt < rows[b].visibleAt || (rows[a].visibleAt == rows[b].visibleAt && a < b)
  }

  /** The first claimable rows, as many as the limit allows, in order. */
  predicate Picks(rows: Rows, now: int, limit: nat, ids: seq<int>) {
    && |ids| <= limit
    && (forall k :: 0 <= k < |ids| ==> ids[k] in rows && Claimable(rows[ids[k]], now))
    && (forall j, k :: 0 <= j < k < |ids| ==> Before(rows, ids[j], ids[k]))
    && (forall x, k :: x in rows && Claimable(rows[x], now) && x !in ids && 0 <= k < |ids| ==> Before(rows, ids[k], x))
    && (|ids| < limit ==> forall x :: x in rows && Claimable(rows[x], now) ==> x in ids)
  }

  function LeaseTo(row: Row, token: Token): Row {
    row.(lease := Some(Lease(token, token.now + LEASE_MS)))
  }

  function Leased(rows: Rows, ids: seq<int>, token: Token): Rows {
    map x | x in rows :: if x in ids then LeaseTo(rows[x], token) else rows[x]
  }

  function Remember(rows: Rows, id: int): Claimed
    requires id in rows
  {
    Claimed(id, rows[id].instance, rows[id].start, rows[id].attempts)
  }

  function Remembered(rows: Rows, ids: seq<int>): seq<Claimed>
    requires forall k :: 0 <= k < |ids| ==> ids[k] in rows
  {
    seq(|ids|, k requires 0 <= k < |ids| => Remember(rows, ids[k]))
  }

  // ----- Marking -----

  predicate Holds(rows: Rows, id: int, token: Token) {
    id in rows && rows[id].lease.Some? && rows[id].lease.value.token == token
  }

  function Dispatched(rows: Rows, id: int, token: Token, now: int): Rows {
    if Holds(rows, id, token) then rows[id := rows[id].(dispatchedAt := Some(now), lastError := None, lease := None)] else rows
  }

  function PermanentlyFailed(rows: Rows, id: int, token: Token, now: int, error: string): Rows {
    if Holds(rows, id, token) then rows[id := rows[id].(failedAt := Some(now), lastError := Some(error), lease := None)] else rows
  }

  function Retried(rows: Rows, c: Claimed, token: Token, now: int, delay: nat): Rows {
    if Holds(rows, c.id, token) then
      rows[c.id := rows[c.id].(attempts := c.attempts + 1, visibleAt := now + delay, lease := None,
                               lastError := Some(RETRYABLE))]
    else rows
  }

  // ----- The engine -----

  type Engine = map<string, Start>

  datatype Existing = Same | Collision | Missing

  function Inspection(engine: Engine, c: Claimed): Existing {
    if c.instance !in engine then Missing
    else if engine[c.instance] == c.start then Same
    else Collision
  }

  /** A start inserts an instance that does not exist and never replaces one that does. */
  function Inserted(engine: Engine, c: Claimed): Engine {
    if c.instance in engine then engine else engine[c.instance := c.start]
  }

  // ----- Dispatchers and runs -----

  /** How far a dispatcher is with the first row it still has to deliver. */
  datatype Phase = Fresh | Accepted | Unsure(retryable: bool) | Reconciled(existing: Existing, retryable: bool)

  datatype Dispatcher = Dispatcher(token: Token, pending: seq<Claimed>, phase: Phase)

  datatype System = System(rows: Rows, engine: Engine, dispatchers: map<nat, Dispatcher>)

  /** What becomes of a start request: turned down before insertion, accepted, or inserted with the
      answer lost. */
  datatype Answer = Refused(retryable: bool) | Ok | Lost(retryable: bool)

  datatype Event =
    | Enqueue(id: int, row: Row)
    | Begin(who: nat, now: int, sequence: nat, limit: nat, ids: seq<int>)
    | Deliver(who: nat, answer: Answer)
    | Reconcile(who: nat)
    | Mark(who: nat, mixed: nat)
    | Abandon(who: nat)
    | Crash

  predicate Possible(engine: Engine, c: Claimed, answer: Answer) {
    answer == Ok ==> c.instance !in engine || engine[c.instance] == c.start
  }

  /** What the current dispatcher does to its first row, once it knows enough. */
  function MarkRows(rows: Rows, d: Dispatcher, mixed: nat): Rows
    requires d.pending != []
  {
    var c, now := d.pending[0], d.token.now;
    match d.phase
    case Accepted => Dispatched(rows, c.id, d.token, now)
    case Reconciled(Same, _) => Dispatched(rows, c.id, d.token, now)
    case Reconciled(Collision, _) => PermanentlyFailed(rows, c.id, d.token, now, COLLISION)
    case Reconciled(Missing, true) =>
      var delay := Retry.OutboxDelay(c.attempts + 1, mixed);
      if c.attempts + 1 > I64_MAX || now + delay > I64_MAX then rows else Retried(rows, c, d.token, now, delay)
    case Reconciled(Missing, false) => PermanentlyFailed(rows, c.id, d.token, now, REJECTED)
    case _ => rows
  }

  predicate ReadyToMark(phase: Phase) {
    phase.Accepted? || phase.Reconciled?
  }

  /** After marking, the dispatcher goes on with its next row, unless it lost the lease or time ran
      out of range: then its run ends with an error. */
  function AfterMark(s: System, who: nat, mixed: nat): System
    requires who in s.dispatchers && s.dispatchers[who].pending != []
  {
    var d := s.dispatchers[who];
    var rows := MarkRows(s.rows, d, mixed);
    if rows == s.rows then s.(dispatchers := s.dispatchers - {who})
    else System(rows, s.engine, s.dispatchers[who := Dispatcher(d.token, d.pending[1..], Fresh)])
  }

  predicate Working(s: System, who: nat) {
    who in s.dispatchers && s.dispatchers[who].pending != []
  }

  /** An event that cannot happen in a state leaves it as it is. */
  function Step(s: System, event: Event): System {
    match event
    case Enqueue(id, row) =>
      if id in s.rows || row.lease != None || Finished(row) then s else s.(rows := s.rows[id := row])
    case Begin(who, now, sequence, limit, ids) =>
      if who in s.dispatchers || limit == 0 || now + LEASE_MS > I64_MAX || !Picks(s.rows, now, limit, ids) then s
      else
        var token := Token(now, sequence);
        s.(rows := Leased(s.rows, ids, token), dispatchers := s.dispatchers[who := Dispatcher(token, Remembered(s.rows, ids), Fresh)])
    case Deliver(who, answer) =>
      if !Working(s, who) || s.dispatchers[who].phase != Fresh || !Possible(s.engine, s.dispatchers[who].pending[0], answer) then s
      else
        var d := s.dispatchers[who];
        var engine := if answer.Refused? then s.engine else Inserted(s.engine, d.pending[0]);
        var phase := if answer.Ok? then Accepted else Unsure(answer.retryable);
        s.(engine := engine, dispatchers := s.dispatchers[who := d.(phase := phase)])
    case Reconcile(who) =>
      if !Working(s, who) || !s.dispatchers[who].phase.Unsure? then s
      else
        var d := s.dispatchers[who];
        s.(dispatchers := s.dispatchers[who := d.(phase := Reconciled(Inspection(s.engine, d.pending[0]), d.phase.retryable))])
    case Mark(who, mixed) =>
      if Working(s, who) && ReadyToMark(s.dispatchers[who].phase) then AfterMark(s, who, mixed) else s
    case Abandon(who) => s.(dispatchers := s.dispatchers - {who})
    case Crash => s.(dispatchers := map[])
  }

  function Run(s: System, events: seq<Event>): System
    decreases |events|
  {
    if events == [] then s else Run(Step(s, events[0]), events[1..])
  }

  // ----- What every run keeps -----

  ghost predicate Delivered(engine: Engine, instance: string, start: Start) {
    instance in engine && engine[instance] == start
  }

  /** Another start holds the instance. */
  ghost predicate Occupied(engine: Engine, instance: string, start: Start) {
    instance in engine && engine[instance] != start
  }

  ghost predicate RowSound(row: Row, engine: Engine) {
    && !(row.dispatchedAt.Some? && row.failedAt.Some?)
    && (Finished(row) ==> row.lease == None)
    && (row.lease.Some? ==> row.lease.value.until == row.lease.value.token.now + LEASE_MS)
    && (row.dispatchedAt.Some? ==> Delivered(engine, row.instance, row.start))
    && (row.failedAt.Some? && row.lastError == Some(COLLISION) ==> Occupied(engine, row.instance, row.start))
  }

  /** The row has moved on since it was leased under the token, and never goes back to it. */
  ghost predicate Superseded(row: Row, token: Token) {
    || Finished(row)
    || (row.lease == None && row.visibleAt > token.now)
    || (row.lease.Some? && row.lease.value.token.now > token.now)
  }

  /** A dispatcher remembers its rows as they are, and either still holds them or was superseded. */
  ghost predicate Remembers(rows: Rows, token: Token, c: Claimed) {
    && c.id in rows && c.instance == rows[c.id].instance && c.start == rows[c.id].start
    && ((Holds(rows, c.id, token) && c.attempts == rows[c.id].attempts) || Superseded(rows[c.id], token))
  }

  ghost predicate DispatcherSound(rows: Rows, engine: Engine, d: Dispatcher) {
    && (forall k :: 0 <= k < |d.pending| ==> Remembers(rows, d.token, d.pending[k]))
    && (forall j, k :: 0 <= j < k < |d.pending| ==> d.pending[j].id != d.pending[k].id)
    && (d.phase != Fresh ==> d.pending != [])
    && (d.phase == Accepted || (d.phase.Reconciled? && d.phase.existing == Same) ==>
          Delivered(engine, d.pending[0].instance, d.pending[0].start))
    && (d.phase.Reconciled? && d.phase.existing == Collision ==> Occupied(engine, d.pending[0].instance, d.pending[0].start))
  }

  /** No row is held by both dispatchers. */
  ghost predicate Apart(rows: Rows, d: Dispatcher, e: Dispatcher) {
    forall j, k :: 0 <= j < |d.pending| && 0 <= k < |e.pending| && d.pending[j].id == e.pending[k].id ==>
                     !(Holds(rows, d.pending[j].id, d.token) && Holds(rows, e.pending[k].id, e.token))
  }

  ghost predicate Sound(s: System) {
    && (forall id :: id in s.rows ==> RowSound(s.rows[id], s.engine))
    && (forall w :: w in s.dispatchers ==> DispatcherSound(s.rows, s.engine, s.dispatchers[w]))
    && (forall w, v :: w in s.dispatchers && v in s.dispatchers && w != v ==> Apart(s.rows, s.dispatchers[w], s.dispatchers[v]))
  }

  predicate Initial(s: System) {
    s.rows == map[] && s.dispatchers == map[]
  }

  lemma EnqueueKeepsSound(s: System, id: int, row: Row)
    requires Sound(s) && id !in s.rows && row.lease == None && !Finished(row)
    ensures Sound(s.(rows := s.rows[id := row]))
  {
    var rows := s.rows[id := row];
    forall w | w in s.dispatchers ensures DispatcherSound(rows, s.engine, s.dispatchers[w]) {
      var d := s.dispatchers[w];
      assert DispatcherSound(s.rows, s.engine, d);
      forall k | 0 <= k < |d.pending| ensures Remembers(rows, d.token, d.pending[k]) {
        assert Remembers(s.rows, d.token, d.pending[k]);
      }
    }
    forall w, v | w in s.dispatchers && v in s.dispatchers && w != v ensures Apart(rows, s.dispatchers[w], s.dispatchers[v]) {
      assert Apart(s.rows, s.dispatchers[w], s.dispatchers[v]);
      assert DispatcherSound(s.rows, s.engine, s.dispatchers[w]);
    }
  }

  /** A new claim supersedes every earlier lease of the rows it takes. */
  lemma ClaimSupersedes(rows: Rows, engine: Engine, ids: seq<int>, token: Token, held: Token, c: Claimed)
    requires Remembers(rows, held, c) && RowSound(rows[c.id], engine)
    requires c.id in ids ==> Claimable(rows[c.id], token.now)
    ensures Remembers(Leased(rows, ids, token), held, c)
    ensures c.id in ids ==> !Holds(Leased(rows, ids, token), c.id, held)
    ensures c.id !in ids ==> (Holds(Leased(rows, ids, token), c.id, held) <==> Holds(rows, c.id, held))
  {
  }

  lemma BeginKeepsSound(s: System, who: nat, now: int, sequence: nat, limit: nat, ids: seq<int>)
    requires Sound(s) && who !in s.dispatchers && Picks(s.rows, now, limit, ids)
    ensures var token := Token(now, sequence);
      Sound(s.(rows := Leased(s.rows, ids, token), dispatchers := s.dispatchers[who := Dispatcher(token, Remembered(s.rows, ids), Fresh)]))
  {
    var token := Token(now, sequence);
    var rows, mine := Leased(s.rows, ids, token), Dispatcher(token, Remembered(s.rows, ids), Fresh);
    forall id | id in rows ensures RowSound(rows[id], s.engine) {
      assert RowSound(s.rows[id], s.engine);
    }
    hide Superseded, RowSound;
    forall w | w in s.dispatchers
      ensures DispatcherSound(rows, s.engine, s.dispatchers[w]) && Apart(rows, mine, s.dispatchers[w]) && Apart(rows, s.dispatchers[w], mine)
    {
      OthersKeepSound(s, s.dispatchers[w], now, sequence, limit, ids);
    }
    assert DispatcherSound(rows, s.engine, mine) by {
      NewDispatcherSound(s, now, sequence, limit, ids);
    }
    forall w, v | w in s.dispatchers && v in s.dispatchers && w != v ensures Apart(rows, s.dispatchers[w], s.dispatchers[v]) {
      StillApart(s, s.dispatchers[w], s.dispatchers[v], now, sequence, limit, ids);
    }
  }

  lemma OthersKeepSound(s: System, d: Dispatcher, now: int, sequence: nat, limit: nat, ids: seq<int>)
    requires Sound(s) && DispatcherSound(s.rows, s.engine, d) && Picks(s.rows, now, limit, ids)
    ensures var token := Token(now, sequence);
      var rows, mine := Leased(s.rows, ids, token), Dispatcher(token, Remembered(s.rows, ids), Fresh);
      DispatcherSound(rows, s.engine, d) && Apart(rows, mine, d) && Apart(rows, d, mine)
  {
    var token := Token(now, sequence);
    var rows := Leased(s.rows, ids, token);
    hide Superseded, RowSound, Claimable, Before, Holds, Delivered;
    forall k | 0 <= k < |d.pending|
      ensures Remembers(rows, d.token, d.pending[k]) && (d.pending[k].id in ids ==> !Holds(rows, d.pending[k].id, d.token))
    {
      assert Remembers(s.rows, d.token, d.pending[k]);
      ClaimSupersedes(s.rows, s.engine, ids, token, d.token, d.pending[k]);
    }
  }

  lemma NewDispatcherSound(s: System, now: int, sequence: nat, limit: nat, ids: seq<int>)
    requires Sound(s) && Picks(s.rows, now, limit, ids)
    ensures var token := Token(now, sequence);
      DispatcherSound(Leased(s.rows, ids, token), s.engine, Dispatcher(token, Remembered(s.rows, ids), Fresh))
  {
    var token := Token(now, sequence);
    var rows, mine := Leased(s.rows, ids, token), Dispatcher(token, Remembered(s.rows, ids), Fresh);
    forall k | 0 <= k < |ids| ensures Remembers(rows, token, mine.pending[k]) {
      assert Holds(rows, ids[k], token);
    }
    forall j, k | 0 <= j < k < |ids| ensures mine.pending[j].id != mine.pending[k].id {
      assert Before(s.rows, ids[j], ids[k]);
    }
  }

  lemma StillApart(s: System, d: Dispatcher, e: Dispatcher, now: int, sequence: nat, limit: nat, ids: seq<int>)
    requires Sound(s) && DispatcherSound(s.rows, s.engine, d) && DispatcherSound(s.rows, s.engine, e) && Picks(s.rows, now, limit, ids)
    requires Apart(s.rows, d, e)
    ensures Apart(Leased(s.rows, ids, Token(now, sequence)), d, e)
  {
    var token := Token(now, sequence);
    var rows := Leased(s.rows, ids, token);
    hide Superseded, RowSound, Claimable, Before, Holds, Delivered;
    forall j, k | 0 <= j < |d.pending| && 0 <= k < |e.pending| && d.pending[j].id == e.pending[k].id
      ensures !(Holds(rows, d.pending[j].id, d.token) && Holds(rows, e.pending[k].id, e.token))
    {
      ClaimSupersedes(s.rows, s.engine, ids, token, d.token, d.pending[j]);
      ClaimSupersedes(s.rows, s.engine, ids, token, e.token, e.pending[k]);
    }
  }

  /** An engine that only gains instances keeps everything that was delivered. */
  lemma EngineGrows(s: System, engine: Engine)
    requires Sound(s) && forall i :: i in s.engine ==> i in engine && engine[i] == s.engine[i]
    ensures Sound(s.(engine := engine))
  {
    forall w | w in s.dispatchers ensures DispatcherSound(s.rows, engine, s.dispatchers[w]) {
      assert DispatcherSound(s.rows, s.engine, s.dispatchers[w]);
    }
    forall id | id in s.rows ensures RowSound(s.rows[id], engine) {
      assert RowSound(s.rows[id], s.engine);
    }
  }

  /** Changing only the phase of a dispatcher. */
  lemma PhaseKeepsSound(s: System, who: nat, phase: Phase)
    requires Sound(s) && who in s.dispatchers && s.dispatchers[who].pending != []
    requires phase == Accepted || (phase.Reconciled? && phase.existing == Same) ==>
               Delivered(s.engine, s.dispatchers[who].pending[0].instance, s.dispatchers[who].pending[0].start)
    requires phase.Reconciled? && phase.existing == Collision ==>
               Occupied(s.engine, s.dispatchers[who].pending[0].instance, s.dispatchers[who].pending[0].start)
    ensures Sound(s.(dispatchers := s.dispatchers[who := s.dispatchers[who].(phase := phase)]))
  {
    hide Remembers, RowSound, Holds;
    var d := s.dispatchers[who];
    var dispatchers := s.dispatchers[who := d.(phase := phase)];
    forall w | w in dispatchers ensures DispatcherSound(s.rows, s.engine, dispatchers[w]) {
      assert DispatcherSound(s.rows, s.engine, s.dispatchers[w]);
    }
    forall w, v | w in dispatchers && v in dispatchers && w != v ensures Apart(s.rows, dispatchers[w], dispatchers[v]) {
      assert Apart(s.rows, s.dispatchers[w], s.dispatchers[v]);
    }
  }

  lemma FewerKeepSound(s: System, dispatchers: map<nat, Dispatcher>)
    requires Sound(s) && forall w :: w in dispatchers ==> w in s.dispatchers && dispatchers[w] == s.dispatchers[w]
    ensures Sound(s.(dispatchers := dispatchers))
  {
    hide DispatcherSound, RowSound, Apart;
  }

  /** What a holder may make of its row: the lease is given up, and the row is finished or hidden
      until later than the lease began. */
  ghost predicate Releases(row: Row, row': Row, token: Token) {
    && row'.instance == row.instance && row'.start == row.start && row'.lease == None
    && (Finished(row') || row'.visibleAt > token.now)
  }

  /** Whoever else remembers the row stays superseded when its holder releases it. */
  lemma ReleaseSupersedes(rows: Rows, id: int, row': Row, token: Token, held: Token, c: Claimed)
    requires Holds(rows, id, token) && Releases(rows[id], row', token) && Remembers(rows, held, c)
    requires c.id == id ==> !Holds(rows, id, held) && !Finished(rows[id])
    ensures Remembers(rows[id := row'], held, c)
    ensures Holds(rows[id := row'], c.id, held) ==> Holds(rows, c.id, held) && c.id != id
  {
  }

  lemma ReleaseKeepsSound(s: System, who: nat, row': Row)
    requires Sound(s) && Working(s, who)
    requires var d := s.dispatchers[who]; var id := d.pending[0].id;
      Holds(s.rows, id, d.token) && Releases(s.rows[id], row', d.token) && RowSound(row', s.engine)
    ensures var d := s.dispatchers[who];
      Sound(System(s.rows[d.pending[0].id := row'], s.engine, s.dispatchers[who := Dispatcher(d.token, d.pending[1..], Fresh)]))
  {
    var d := s.dispatchers[who];
    var id := d.pending[0].id;
    assert RowSound(s.rows[id], s.engine) && !Finished(s.rows[id]);
    hide Superseded, Delivered, RowSound, Releases, Holds;
    var rows, mine := s.rows[id := row'], Dispatcher(d.token, d.pending[1..], Fresh);
    var dispatchers := s.dispatchers[who := mine];
    forall w | w in dispatchers ensures DispatcherSound(rows, s.engine, dispatchers[w]) {
      var e := s.dispatchers[w];
      assert DispatcherSound(s.rows, s.engine, e);
      if w == who {
        RestRemembered(s, d, row');
      } else {
        OthersRemember(s, who, w, row');
      }
    }
    forall w, v | w in dispatchers && v in dispatchers && w != v ensures Apart(rows, dispatchers[w], dispatchers[v]) {
      ReleaseKeepsApart(s, who, w, v, row');
    }
  }

  lemma RestRemembered(s: System, d: Dispatcher, row': Row)
    requires DispatcherSound(s.rows, s.engine, d) && d.pending != [] && Holds(s.rows, d.pending[0].id, d.token)
    requires Releases(s.rows[d.pending[0].id], row', d.token)
    ensures DispatcherSound(s.rows[d.pending[0].id := row'], s.engine, Dispatcher(d.token, d.pending[1..], Fresh))
  {
    hide Superseded, Releases;
    forall k | 1 <= k < |d.pending| ensures Remembers(s.rows[d.pending[0].id := row'], d.token, d.pending[k]) {
      assert d.pending[0].id != d.pending[k].id;
      ReleaseSupersedes(s.rows, d.pending[0].id, row', d.token, d.token, d.pending[k]);
    }
  }

  lemma OthersRemember(s: System, who: nat, w: nat, row': Row)
    requires Sound(s) && Working(s, who) && w in s.dispatchers && w != who
    requires var d := s.dispatchers[who]; var id := d.pending[0].id;
      Holds(s.rows, id, d.token) && Releases(s.rows[id], row', d.token)
    ensures DispatcherSound(s.rows[s.dispatchers[who].pending[0].id := row'], s.engine, s.dispatchers[w])
  {
    var d, e := s.dispatchers[who], s.dispatchers[w];
    var id := d.pending[0].id;
    assert RowSound(s.rows[id], s.engine) && !Finished(s.rows[id]);
    assert DispatcherSound(s.rows, s.engine, e) && Apart(s.rows, d, e);
    hide Superseded, Releases, Holds, RowSound, Delivered;
    forall k | 0 <= k < |e.pending| ensures Remembers(s.rows[id := row'], e.token, e.pending[k]) {
      ReleaseSupersedes(s.rows, id, row', d.token, e.token, e.pending[k]);
    }
  }

  lemma ReleaseKeepsApart(s: System, who: nat, w: nat, v: nat, row': Row)
    requires Sound(s) && Working(s, who) && w in s.dispatchers && v in s.dispatchers && w != v
    requires var d := s.dispatchers[who]; var id := d.pending[0].id;
      Holds(s.rows, id, d.token) && Releases(s.rows[id], row', d.token)
    ensures var d := s.dispatchers[who];
      var dispatchers := s.dispatchers[who := Dispatcher(d.token, d.pending[1..], Fresh)];
      Apart(s.rows[d.pending[0].id := row'], dispatchers[w], dispatchers[v])
  {
    assert Apart(s.rows, s.dispatchers[w], s.dispatchers[v]);
  }

  /** Marking, by whatever dispatcher and however late, keeps the outbox sound. */
  lemma MarkKeepsSound(s: System, who: nat, mixed: nat)
    requires Sound(s) && Working(s, who) && ReadyToMark(s.dispatchers[who].phase)
    ensures Sound(AfterMark(s, who, mixed))
  {
    var d := s.dispatchers[who];
    var c := d.pending[0];
    var rows := MarkRows(s.rows, d, mixed);
    assert DispatcherSound(s.rows, s.engine, d);
    if rows == s.rows {
      FewerKeepSound(s, s.dispatchers - {who});
    } else {
      assert Remembers(s.rows, d.token, c) && Holds(s.rows, c.id, d.token);
      assert RowSound(s.rows[c.id], s.engine);
      Retry.OutboxDelayBounds(c.attempts + 1, mixed);
      var row' := rows[c.id];
      assert rows == s.rows[c.id := row'];
      hide Retry.OutboxDelay, Sound;
      ReleaseKeepsSound(s, who, row');
    }
  }

  /** Every event keeps the outbox sound. */
  lemma StepKeepsSound(s: System, event: Event)
    requires Sound(s)
    ensures Sound(Step(s, event))
  {
    if Step(s, event) != s {
      match event
      case Enqueue(id, row) => EnqueueKeepsSound(s, id, row);
      case Begin(who, now, sequence, limit, ids) => BeginKeepsSound(s, who, now, sequence, limit, ids);
      case Deliver(who, answer) => DeliverKeepsSound(s, who, answer);
      case Reconcile(who) =>
        var d := s.dispatchers[who];
        PhaseKeepsSound(s, who, Reconciled(Inspection(s.engine, d.pending[0]), d.phase.retryable));
      case Mark(who, mixed) => MarkKeepsSound(s, who, mixed);
      case Abandon(who) => FewerKeepSound(s, s.dispatchers - {who});
      case Crash => FewerKeepSound(s, map[]);
    }
  }

  lemma DeliverKeepsSound(s: System, who: nat, answer: Answer)
    requires Sound(s) && Working(s, who) && s.dispatchers[who].phase == Fresh && Possible(s.engine, s.dispatchers[who].pending[0], answer)
    ensures Sound(Step(s, Deliver(who, answer)))
  {
    var d := s.dispatchers[who];
    var engine := if answer.Refused? then s.engine else Inserted(s.engine, d.pending[0]);
    EngineGrows(s, engine);
    hide Sound;
    PhaseKeepsSound(s.(engine := engine), who, if answer.Ok? then Accepted else Unsure(answer.retryable));
  }

  lemma {:induction false} RunKeepsSound(s: System, events: seq<Event>)
    requires Sound(s)
    ensures Sound(Run(s, events))
    decreases |events|
  {
    hide Sound, Step;
    if events != [] {
      StepKeepsSound(s, events[0]);
      RunKeepsSound(Step(s, events[0]), events[1..]);
    }
  }

  /** In every run: no row is both dispatched and permanently failed, a finished row is not leased,
      a dispatched row's workflow exists in the engine with exactly its name, version and input, and a
      row failed for a collision finds another workflow under its instance. */
  lemma EveryRunIsSound(s: System, events: seq<Event>, id: int)
    requires Initial(s) && id in Run(s, events).rows
    ensures var row := Run(s, events).rows[id];
      && !(row.dispatchedAt.Some? && row.failedAt.Some?)
      && (Finished(row) ==> row.lease == None)
      && (row.dispatchedAt.Some? ==> Delivered(Run(s, events).engine, row.instance, row.start))
      && (row.failedAt.Some? && row.lastError == Some(COLLISION) ==> Occupied(Run(s, events).engine, row.instance, row.start))
  {
    hide Run, Delivered, Occupied;
    RunKeepsSound(s, events);
    assert RowSound(Run(s, events).rows[id], Run(s, events).engine);
  }

  lemma StepKeepsFinished(s: System, event: Event, id: int)
    requires Sound(s) && id in s.rows && Finished(s.rows[id])
    ensures id in Step(s, event).rows && Step(s, event).rows[id] == s.rows[id]
  {
    hide Retry.OutboxDelay, DispatcherSound, Apart, Delivered, Before;
    assert RowSound(s.rows[id], s.engine);
  }

  /** A finished row is never claimed or changed again. */
  lemma {:induction false} FinishedForever(s: System, events: seq<Event>, id: int)
    requires Sound(s) && id in s.rows && Finished(s.rows[id])
    ensures id in Run(s, events).rows && Run(s, events).rows[id] == s.rows[id]
    decreases |events|
  {
    hide Sound, Step;
    if events != [] {
      StepKeepsFinished(s, events[0], id);
      StepKeepsSound(s, events[0]);
      FinishedForever(Step(s, events[0]), events[1..], id);
    }
  }

  lemma StepKeepsSuperseded(s: System, event: Event, id: int, token: Token)
    requires Sound(s) && id in s.rows && Superseded(s.rows[id], token)
    ensures id in Step(s, event).rows && Superseded(Step(s, event).rows[id], token)
  {
    hide DispatcherSound, Apart, Delivered, Before;
    assert RowSound(s.rows[id], s.engine);
    if event.Mark? && Working(s, event.who) {
      var d := s.dispatchers[event.who];
      Retry.OutboxDelayBounds(d.pending[0].attempts + 1, event.mixed);
      hide Retry.OutboxDelay;
      assert MarkRows(s.rows, d, event.mixed) == s.rows || Holds(s.rows, d.pending[0].id, d.token);
    }
  }

  /** A mark under a token that was superseded changes nothing, then and at every later time. */
  lemma {:induction false} SupersededForever(s: System, events: seq<Event>, id: int, token: Token)
    requires Sound(s) && id in s.rows && Superseded(s.rows[id], token)
    ensures var rows := Run(s, events).rows;
      && id in rows && Superseded(rows[id], token)
      && (forall now :: Dispatched(rows, id, token, now) == rows)
      && (forall now, error :: PermanentlyFailed(rows, id, token, now, error) == rows)
      && (forall c: Claimed, now, delay :: c.id == id ==> Retried(rows, c, token, now, delay) == rows)
    decreases |events|
  {
    if events != [] {
      hide Sound, Step, Superseded;
      StepKeepsSuperseded(s, events[0], id, token);
      StepKeepsSound(s, events[0]);
      SupersededForever(Step(s, events[0]), events[1..], id, token);
    } else {
      assert RowSound(s.rows[id], s.engine);
      assert !Holds(s.rows, id, token);
    }
  }

  /** Two dispatchers that remember the same row: at most one can still change it. */
  lemma OneHolder(s: System, w: nat, v: nat, j: nat, k: nat)
    requires Sound(s) && w in s.dispatchers && v in s.dispatchers && w != v
    requires j < |s.dispatchers[w].pending| && k < |s.dispatchers[v].pending|
    requires s.dispatchers[w].pending[j].id == s.dispatchers[v].pending[k].id
    ensures !Holds(s.rows, s.dispatchers[w].pending[j].id, s.dispatchers[w].token) ||
            !Holds(s.rows, s.dispatchers[v].pending[k].id, s.dispatchers[v].token)
  {
    hide DispatcherSound, RowSound, Holds;
    assert Apart(s.rows, s.dispatchers[w], s.dispatchers[v]);
  }

  /** A claimed row can be claimed again from a minute after the claim on, and no earlier. */
  lemma LeaseLastsAMinute(rows: Rows, now: int, limit: nat, ids: seq<int>, token: Token, id: int, t: int)
    requires Picks(rows, now, limit, ids) && token.now == now && id in ids
    ensures id in rows && (t >= now ==> (Claimable(Leased(rows, ids, token)[id], t) <==> t >= now + 60000))
  {
    var k :| 0 <= k < |ids| && ids[k] == id;
    assert Claimable(rows[ids[k]], now);
  }

  /** A claim takes distinct rows that can be claimed, as many as the limit allows, by their times and then their
      identifiers: no row that is left out comes before one that is taken. */
  lemma ClaimTakesEarliest(rows: Rows, now: int, limit: nat, ids: seq<int>)
    requires Picks(rows, now, limit, ids)
    ensures |ids| <= limit && forall id :: id in ids ==> id in rows && Claimable(rows[id], now)
    ensures forall j, k :: 0 <= j < k < |ids| ==>
              rows[ids[j]].visibleAt < rows[ids[k]].visibleAt || (rows[ids[j]].visibleAt == rows[ids[k]].visibleAt && ids[j] < ids[k])
    ensures forall x, id :: x in rows && Claimable(rows[x], now) && x !in ids && id in ids ==>
              |ids| == limit && (rows[id].visibleAt < rows[x].visibleAt || (rows[id].visibleAt == rows[x].visibleAt && id < x))
    ensures |ids| < limit ==> forall x :: x in rows && Claimable(rows[x], now) ==> x in ids
  {
    hide Claimable;
    forall id | id in ids ensures exists k :: 0 <= k < |ids| && ids[k] == id {
    }
  }

  /** A row can be claimed when it is neither dispatched nor failed, its time has come, and no lease runs. */
  lemma ClaimableMeans(row: Row, now: int)
    ensures Claimable(row, now) <==>
              row.dispatchedAt == None && row.failedAt == None && row.visibleAt <= now && (row.lease.Some? ==> row.lease.value.until <= now)
  {
  }

  /** A retry counts one attempt, hides the row for the delay, and lets it be claimed afterwards. */
  lemma RetryCountsOnce(s: System, who: nat, mixed: nat)
    requires Sound(s) && Working(s, who) && s.dispatchers[who].phase == Reconciled(Missing, true)
    requires MarkRows(s.rows, s.dispatchers[who], mixed) != s.rows
    ensures var c := s.dispatchers[who].pending[0];
      var row, row' := s.rows[c.id], AfterMark(s, who, mixed).rows[c.id];
      var delay := Retry.OutboxDelay(row.attempts + 1, mixed);
      && row'.attempts == row.attempts + 1 && !Finished(row')
      && (forall t :: Claimable(row', t) <==> s.dispatchers[who].token.now + delay <= t)
  {
    var d := s.dispatchers[who];
    var c := d.pending[0];
    hide Retry.OutboxDelay, Apart;
    assert DispatcherSound(s.rows, s.engine, d) && Remembers(s.rows, d.token, c);
    assert RowSound(s.rows[c.id], s.engine);
  }

  lemma {:induction false} RunAppend(s: System, a: seq<Event>, b: seq<Event>)
    ensures Run(s, a + b) == Run(Run(s, a), b)
    decreases |a|
  {
    hide Step;
    if a == [] {
      assert a + b == b;
    } else {
      assert (a + b)[1..] == a[1..] + b;
      RunAppend(Step(s, a[0]), a[1..], b);
    }
  }

  lemma RunOne(s: System, event: Event)
    ensures Run(s, [event]) == Step(s, event) && Run(s, []) == s
  {
    hide Step;
  }
}
