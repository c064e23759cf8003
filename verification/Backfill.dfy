/** The paged backfill: one search task for every selected source and eligible indexer, created page
    by page behind a cursor, whatever is replayed. */
module Backfill {
  import opened Wrappers
  import opened Ingress
  import opened DirectoryScan

  const BACKFILL_PAGE_SIZE: nat := 100

  /** A source and an indexer to search it on. */
  type Job = (Name, nat)

  /** The complete, available torrents, which of them the request selects, and the eligible indexers. */
  datatype Inventory = Inventory(ids: seq<Name>, selected: set<Name>, indexers: seq<nat>)

  function JobsOf(inv: Inventory, rows: seq<Name>): set<Job> {
    set r, i | r in rows && r in inv.selected && i in inv.indexers :: (r, i)
  }

  function Wanted(inv: Inventory): set<Job> {
    JobsOf(inv, inv.ids)
  }

  /** Distinct jobs have distinct task identities, and agree on any policy they share. */
  ghost predicate Identified(task: Job -> NewTask, wanted: set<Job>) {
    forall x, y :: x in wanted && y in wanted && x != y ==>
      && task(x).id != task(y).id && task(x).key != task(y).key && task(x).instance != task(y).instance
      && (task(x).policyId == task(y).policyId ==> task(x).policy == task(y).policy)
  }

  /** Nothing foreign occupies the identities of the wanted jobs. */
  ghost predicate Open(task: Job -> NewTask, wanted: set<Job>, s: Store) {
    forall x :: x in wanted ==> Compatible(s, task(x))
  }

  /** The wanted jobs can be told apart, and the store has room for each of them. */
  ghost predicate Clear(task: Job -> NewTask, inv: Inventory, s: Store) {
    Identified(task, Wanted(inv)) && Open(task, Wanted(inv), s)
  }

  function Created(task: Job -> NewTask, wanted: set<Job>, s: Store): set<Job> {
    set x | x in wanted && task(x).key in s.outbox
  }

  /** Accepting a wanted job creates just that one. */
  lemma AcceptCreates(task: Job -> NewTask, inv: Inventory, s: Store, x: Job)
    requires Clear(task, inv, s) && x in Wanted(inv)
    ensures Clear(task, inv, With(s, task(x)))
    ensures Created(task, Wanted(inv), With(s, task(x))) == Created(task, Wanted(inv), s) + {x}
    ensures x in Created(task, Wanted(inv), s) <==> task(x).key in s.outbox
  {
    hide Wanted;
    var wanted := Wanted(inv);
    forall y | y in wanted ensures Compatible(With(s, task(x)), task(y)) {
      assert Compatible(s, task(y)) && Compatible(s, task(x));
    }
    forall y | y in Created(task, wanted, With(s, task(x))) ensures y in Created(task, wanted, s) + {x} {
    }
  }

  lemma GrowByOne(a: set<Job>, x: Job)
    ensures |a + {x}| == if x in a then |a| else |a| + 1
  {
    if x in a {
      assert a + {x} == a;
    }
  }

  /** One operation of the backfill and the store its tasks go to. */
  class Operation {
    const task: Job -> NewTask
    var store: Store
    var produced: nat

    constructor (task: Job -> NewTask, store: Store)
      ensures this.task == task && this.store == store && produced == 0
    {
      this.task, this.store, produced := task, store, 0;
    }

    /** Creates the missing tasks of a page of sources, in one transaction, and counts them. */
    method ProducePage(inv: Inventory, rows: seq<Name>) returns (r: Result<nat, IngressError>)
      requires forall x :: x in rows ==> x in inv.ids
      modifies this
      ensures r.Failure? ==> store == old(store) && produced == old(produced)
      ensures r.Success? ==> produced == old(produced) + r.value
      ensures old(Clear(task, inv, store)) ==>
        && r.Success? && Clear(task, inv, store)
        && Created(task, Wanted(inv), store) == old(Created(task, Wanted(inv), store)) + JobsOf(inv, rows)
        && r.value == |Created(task, Wanted(inv), store)| - |old(Created(task, Wanted(inv), store))|
    {
      hide *;
      ghost var wanted := Wanted(inv);
      ghost var before := Created(task, wanted, store);
      var s, count: nat := store, 0;
      NoJobs(inv);
      for k := 0 to |rows|
        invariant Clear(task, inv, store) ==>
          && Clear(task, inv, s) && Created(task, wanted, s) == before + JobsOf(inv, rows[..k])
          && count == |Created(task, wanted, s)| - |before|
        invariant store == old(store) && produced == old(produced)
      {
        var source := rows[k];
        assert rows[..k + 1] == rows[..k] + [source];
        MoreJobs(inv, rows[..k], source);
        if source in inv.selected {
          var accepted := AcceptSource(task, inv, s, source);
          if accepted.Failure? {
            return Failure(accepted.error);
          }
          s, count := accepted.value.0, count + accepted.value.1;
        }
      }
      assert rows[..|rows|] == rows;
      store, produced := s, produced + count;
      return Success(count);
    }

    /** Executes pages again, any of those executed before, any number of times. */
    method Replay(inv: Inventory, pages: seq<seq<Name>>, again: seq<nat>)
      requires Clear(task, inv, store)
      requires forall k :: 0 <= k < |pages| ==> Executed(task, inv, store, pages[k])
      modifies this
      ensures Clear(task, inv, store) && produced == old(produced)
      ensures Created(task, Wanted(inv), store) == old(Created(task, Wanted(inv), store))
      ensures forall k :: 0 <= k < |pages| ==> Executed(task, inv, store, pages[k])
    {
      hide *;
      ghost var first := Created(task, Wanted(inv), store);
      for k := 0 to |again|
        invariant Clear(task, inv, store) && produced == old(produced)
        invariant Created(task, Wanted(inv), store) == first
        invariant forall k :: 0 <= k < |pages| ==> Executed(task, inv, store, pages[k])
      {
        if again[k] < |pages| {
          var rows := pages[again[k]];
          ExecutedOnce(task, inv, store, rows);
          ghost var before := store;
          var _ := ProducePage(inv, rows);
          forall j | 0 <= j < |pages| ensures Executed(task, inv, store, pages[j]) {
            ExecutedStays(task, inv, before, store, pages[j]);
          }
        }
      }
    }

    /** Follows the cursor to the end. Each page is executed, and after each page any pages executed
        so far are replayed. Exactly the wanted tasks exist at the end, and each was counted once. */
    method Follow(inv: Inventory, again: nat -> seq<nat>)
      requires forall i, j :: 0 <= i < j < |inv.ids| ==> inv.ids[i] != inv.ids[j]
      requires Clear(task, inv, store)
      modifies this
      ensures Created(task, Wanted(inv), store) == Wanted(inv)
      ensures produced == old(produced) + |Wanted(inv)| - |old(Created(task, Wanted(inv), store))|
      ensures forall id, i :: id in inv.ids && id in inv.selected && i in inv.indexers ==> task((id, i)).key in store.outbox
    {
      hide *;
      ghost var first := Created(task, Wanted(inv), store);
      var cursor: Option<Name>, done := None, false;
      var pages: seq<seq<Name>> := [];
      ghost var left := StillLeft(inv, None);
      CoveredInitially(task, inv, store);
      while !done
        invariant Clear(task, inv, store) && produced == old(produced) + |Created(task, Wanted(inv), store)| - |first|
        invariant forall k :: 0 <= k < |pages| ==> Executed(task, inv, store, pages[k])
        invariant !done ==> Covered(task, inv, store, cursor) && left == StillLeft(inv, cursor)
        invariant done ==> Created(task, Wanted(inv), store) == Wanted(inv)
        decreases !done, left
      {
        var rows, more := ScanDirectory(inv.ids, cursor, BACKFILL_PAGE_SIZE);
        RowsListed(inv, cursor, rows, more);
        ghost var before := store;
        var _ := ProducePage(inv, rows);
        done := |rows| < BACKFILL_PAGE_SIZE;
        PageExecuted(task, inv, before, store, rows);
        forall k | 0 <= k < |pages| ensures Executed(task, inv, store, pages[k]) {
          ExecutedStays(task, inv, before, store, pages[k]);
        }
        PageCovers(task, inv, before, store, cursor, rows, more);
        pages := pages + [rows];
        ghost var reached := store;
        Replay(inv, pages, again(|pages|));
        if !done {
          CursorMoves(inv, cursor, rows, more);
          CoveredStays(task, inv, reached, store, Some(rows[|rows| - 1]));
          cursor := Some(rows[|rows| - 1]);
          left := StillLeft(inv, cursor);
        }
      }
      AllCreated(task, inv, store);
    }
  }

  /** With every wanted job created there is a task for every selected source and eligible indexer. */
  lemma AllCreated(task: Job -> NewTask, inv: Inventory, s: Store)
    ensures Created(task, Wanted(inv), s) == Wanted(inv) ==>
              forall id, i :: id in inv.ids && id in inv.selected && i in inv.indexers ==> task((id, i)).key in s.outbox
  {
    forall id, i | id in inv.ids && id in inv.selected && i in inv.indexers && Created(task, Wanted(inv), s) == Wanted(inv)
      ensures task((id, i)).key in s.outbox
    {
      assert (id, i) in Wanted(inv);
    }
  }

  /** Every job of a page exists. */
  ghost predicate Executed(task: Job -> NewTask, inv: Inventory, s: Store, rows: seq<Name>) {
    (forall x :: x in rows ==> x in inv.ids) && JobsOf(inv, rows) <= Created(task, Wanted(inv), s)
  }

  /** Every wanted job of the sources up to the cursor exists. */
  ghost predicate Covered(task: Job -> NewTask, inv: Inventory, s: Store, cursor: Option<Name>) {
    forall x :: x in Wanted(inv) && !Beyond(cursor, x.0) ==> x in Created(task, Wanted(inv), s)
  }

  /** The sources behind the cursor. */
  ghost function StillLeft(inv: Inventory, cursor: Option<Name>): set<Name> {
    set x | x in inv.ids && Beyond(cursor, x)
  }

  lemma CoveredInitially(task: Job -> NewTask, inv: Inventory, s: Store)
    ensures Covered(task, inv, s, None)
  {
  }

  lemma RowsListed(inv: Inventory, cursor: Option<Name>, rows: seq<Name>, more: bool)
    requires IsPage(Names(inv.ids), cursor, BACKFILL_PAGE_SIZE, rows, more)
    ensures forall x :: x in rows ==> x in inv.ids
    ensures |rows| >= BACKFILL_PAGE_SIZE ==> rows != []
  {
  }

  lemma CursorMoves(inv: Inventory, cursor: Option<Name>, rows: seq<Name>, more: bool)
    requires IsPage(Names(inv.ids), cursor, BACKFILL_PAGE_SIZE, rows, more) && rows != []
    ensures StillLeft(inv, Some(rows[|rows| - 1])) < StillLeft(inv, cursor)
  {
    var last := rows[|rows| - 1];
    assert last in rows && last in StillLeft(inv, cursor);
    LessIsOrder(last, last, last);
    forall x | x in inv.ids && Less(last, x) ensures Beyond(cursor, x) {
      if cursor.Some? {
        LessIsOrder(cursor.value, last, x);
      }
    }
    assert last !in StillLeft(inv, Some(last));
  }

  lemma ExecutedOnce(task: Job -> NewTask, inv: Inventory, s: Store, rows: seq<Name>)
    requires Executed(task, inv, s, rows)
    ensures forall x :: x in rows ==> x in inv.ids
    ensures Created(task, Wanted(inv), s) + JobsOf(inv, rows) == Created(task, Wanted(inv), s)
  {
    hide Created, JobsOf;
  }

  lemma ExecutedStays(task: Job -> NewTask, inv: Inventory, s: Store, s': Store, rows: seq<Name>)
    requires Executed(task, inv, s, rows) && Created(task, Wanted(inv), s) <= Created(task, Wanted(inv), s')
    ensures Executed(task, inv, s', rows)
  {
    hide Created, JobsOf;
  }

  lemma CoveredStays(task: Job -> NewTask, inv: Inventory, s: Store, s': Store, cursor: Option<Name>)
    requires Covered(task, inv, s, cursor) && Created(task, Wanted(inv), s) <= Created(task, Wanted(inv), s')
    ensures Covered(task, inv, s', cursor)
  {
    hide Created, Beyond;
  }

  lemma PageExecuted(task: Job -> NewTask, inv: Inventory, s: Store, s': Store, rows: seq<Name>)
    requires forall x :: x in rows ==> x in inv.ids
    requires Created(task, Wanted(inv), s') == Created(task, Wanted(inv), s) + JobsOf(inv, rows)
    ensures Executed(task, inv, s', rows) && Created(task, Wanted(inv), s) <= Created(task, Wanted(inv), s')
  {
    hide Created, JobsOf;
  }

  /** A page moves the covered part up to its last source; a page that is not full covers all. */
  lemma PageCovers(task: Job -> NewTask, inv: Inventory, s: Store, s': Store, cursor: Option<Name>, rows: seq<Name>, more: bool)
    requires Covered(task, inv, s, cursor) && IsPage(Names(inv.ids), cursor, BACKFILL_PAGE_SIZE, rows, more)
    requires Created(task, Wanted(inv), s') == Created(task, Wanted(inv), s) + JobsOf(inv, rows)
    ensures |rows| < BACKFILL_PAGE_SIZE ==> Created(task, Wanted(inv), s') == Wanted(inv)
    ensures rows != [] ==> Covered(task, inv, s', Some(rows[|rows| - 1]))
  {
    forall x | x in Wanted(inv) && (x.0 in rows || !Beyond(cursor, x.0)) ensures x in Created(task, Wanted(inv), s') {
      assert x.0 in rows ==> x in JobsOf(inv, rows);
    }
    if rows != [] {
      forall x | x in Wanted(inv) && !Beyond(Some(rows[|rows| - 1]), x.0) ensures x.0 in rows || !Beyond(cursor, x.0) {
        assert rows[|rows| - 1] in rows;
        assert x.0 in Names(inv.ids);
      }
    }
    if |rows| < BACKFILL_PAGE_SIZE {
      forall x | x in Wanted(inv) ensures x.0 in rows || !Beyond(cursor, x.0) {
        assert x.0 in Names(inv.ids);
      }
    }
  }

  lemma NoJobs(inv: Inventory)
    ensures JobsOf(inv, []) == {}
  {
  }

  lemma MoreJobs(inv: Inventory, rows: seq<Name>, source: Name)
    ensures JobsOf(inv, rows + [source]) == if source in inv.selected then JobsOf(inv, rows) + JobsOf(inv, [source]) else JobsOf(inv, rows)
  {
  }

  /** Search tasks of one source, on every eligible indexer. */
  method AcceptSource(task: Job -> NewTask, inv: Inventory, store: Store, source: Name) returns (r: Result<(Store, nat), IngressError>)
    requires source in inv.ids && source in inv.selected
    ensures Clear(task, inv, store) ==>
      && r.Success? && Clear(task, inv, r.value.0)
      && Created(task, Wanted(inv), r.value.0) == Created(task, Wanted(inv), store) + JobsOf(inv, [source])
      && r.value.1 == |Created(task, Wanted(inv), r.value.0)| - |Created(task, Wanted(inv), store)|
  {
    hide *;
    ghost var wanted := Wanted(inv);
    var s, count: nat := store, 0;
    JobsOfSource(inv, source);
    for i := 0 to |inv.indexers|
      invariant Clear(task, inv, store) ==>
        && Clear(task, inv, s) && Created(task, wanted, s) == Created(task, wanted, store) + OnIndexers(source, inv.indexers[..i])
        && count == |Created(task, wanted, s)| - |Created(task, wanted, store)|
    {
      var job: Job := (source, inv.indexers[i]);
      if Clear(task, inv, s) {
        AcceptCreates(task, inv, s, job);
        AlwaysAccepted(task, inv, s, job);
        GrowByOne(Created(task, wanted, s), job);
      }
      OneMoreIndexer(source, inv.indexers, i);
      var accepted := Accept(s, task(job));
      if accepted.Failure? {
        return Failure(accepted.error);
      }
      s := accepted.value.0;
      if accepted.value.1 {
        count := count + 1;
      }
    }
    assert inv.indexers[..|inv.indexers|] == inv.indexers;
    return Success((s, count));
  }

  function OnIndexers(source: Name, indexers: seq<nat>): set<Job> {
    set i | i in indexers :: (source, i)
  }

  lemma OneMoreIndexer(source: Name, indexers: seq<nat>, i: nat)
    requires i < |indexers|
    ensures OnIndexers(source, indexers[..i + 1]) == OnIndexers(source, indexers[..i]) + {(source, indexers[i])}
  {
    assert indexers[..i + 1] == indexers[..i] + [indexers[i]];
  }

  lemma JobsOfSource(inv: Inventory, source: Name)
    requires source in inv.ids && source in inv.selected
    ensures OnIndexers(source, inv.indexers) == JobsOf(inv, [source])
    ensures OnIndexers(source, inv.indexers[..0]) == {}
    ensures forall i :: 0 <= i < |inv.indexers| ==> (source, inv.indexers[i]) in Wanted(inv)
  {
  }

  lemma AlwaysAccepted(task: Job -> NewTask, inv: Inventory, s: Store, x: Job)
    requires Clear(task, inv, s) && x in Wanted(inv)
    ensures Accept(s, task(x)) == Success((With(s, task(x)), task(x).key !in s.outbox))
  {
  }

  function Pairs(sources: set<Name>, indexers: set<nat>): set<Job> {
    set r, i | r in sources && i in indexers :: (r, i)
  }

  function Members<T>(s: seq<T>): set<T> {
    set x | x in s
  }

  function Chosen(inv: Inventory): set<Name> {
    set r | r in inv.ids && r in inv.selected
  }

  lemma {:induction false} RowCount(x: Name, indexers: set<nat>)
    ensures |Pairs({x}, indexers)| == |indexers|
    decreases |indexers|
  {
    if indexers == {} {
      assert Pairs({x}, indexers) == {};
    } else {
      var n :| n in indexers;
      RowCount(x, indexers - {n});
      assert Pairs({x}, indexers) == Pairs({x}, indexers - {n}) + {(x, n)};
      assert (x, n) !in Pairs({x}, indexers - {n});
      assert |indexers - {n}| == |indexers| - 1;
    }
  }

  lemma {:induction false} PairsCount(sources: set<Name>, indexers: set<nat>)
    ensures |Pairs(sources, indexers)| == |sources| * |indexers|
    decreases |sources|
  {
    if sources == {} {
      assert Pairs(sources, indexers) == {};
    } else {
      var x :| x in sources;
      var rest := sources - {x};
      PairsCount(rest, indexers);
      RowCount(x, indexers);
      PairsSplit(sources, indexers, x);
      hide Pairs;
      OneMoreRow(|rest|, |indexers|);
    }
  }

  lemma OneMoreRow(n: nat, m: nat)
    ensures (n + 1) * m == n * m + m
  {
  }

  lemma PairsSplit(sources: set<Name>, indexers: set<nat>, x: Name)
    requires x in sources
    ensures |Pairs(sources, indexers)| == |Pairs({x}, indexers)| + |Pairs(sources - {x}, indexers)|
  {
    var rest := sources - {x};
    assert Pairs(sources, indexers) == Pairs({x}, indexers) + Pairs(rest, indexers);
    assert Pairs({x}, indexers) !! Pairs(rest, indexers);
  }

  /** The number of tasks: selected sources times distinct eligible indexers. */
  lemma WantedCount(inv: Inventory)
    ensures |Wanted(inv)| == |Chosen(inv)| * |Members(inv.indexers)|
  {
    PairsCount(Chosen(inv), Members(inv.indexers));
    assert Wanted(inv) == Pairs(Chosen(inv), Members(inv.indexers));
  }
}
