/** Weighted bipartite matchings: what the assignment engine promises, independent of how it works. */
module Matching {
  import opened Wrappers
  import opened Sums

  /** g[row][column] is the weight of an edge, or None where there is no edge. */
  type Graph = seq<seq<Option<nat>>>

  /** A partial pairing of rows with columns. */
  type Pairing = map<nat, nat>

  ghost predicate Edge(g: Graph, r: nat, c: nat) {
    r < |g| && c < |g[r]| && g[r][c].Some?
  }

  ghost predicate IsMatching(g: Graph, m: Pairing) {
    && (forall r :: r in m ==> Edge(g, r, m[r]))
    && (forall r, s :: r in m && s in m && r != s ==> m[r] != m[s])
  }

  ghost function Gain(g: Graph, m: Pairing, r: nat): nat
    requires IsMatching(g, m)
  {
    if r in m then g[r][m[r]].value else 0
  }

  ghost function Gains(g: Graph, m: Pairing): seq<int>
    requires IsMatching(g, m)
  {
    seq(|g|, r requires 0 <= r < |g| => Gain(g, m, r))
  }

  /** The total weight of the edges of a matching. */
  ghost function Weight(g: Graph, m: Pairing): int
    requires IsMatching(g, m)
  {
    Sum(Gains(g, m))
  }

  /** Every row of the graph. */
  ghost function AllRows(g: Graph): (rows: set<nat>)
    ensures forall r: nat :: r in rows <==> r < |g|
  {
    if |g| == 0 then {} else AllRows(g[..|g| - 1]) + {|g| - 1}
  }

  ghost predicate MatchingOn(g: Graph, rows: set<nat>, m: Pairing) {
    IsMatching(g, m) && m.Keys <= rows
  }

  /** A heaviest matching among those that use only the given rows. */
  ghost predicate Maximum(g: Graph, rows: set<nat>, m: Pairing) {
    && MatchingOn(g, rows, m)
    && forall n :: MatchingOn(g, rows, n) ==> Weight(g, n) <= Weight(g, m)
  }

  ghost predicate UniqueMaximum(g: Graph, rows: set<nat>, m: Pairing) {
    && Maximum(g, rows, m)
    && forall n :: Maximum(g, rows, n) ==> n == m
  }

  ghost predicate AmbiguousMaximum(g: Graph, rows: set<nat>) {
    exists m, n :: Maximum(g, rows, m) && Maximum(g, rows, n) && m != n
  }

  ghost predicate PositiveWeights(g: Graph) {
    forall r: nat, c: nat :: Edge(g, r, c) ==> g[r][c].value > 0
  }

  /** Rows and columns that the edges never leave. */
  ghost predicate Closed(g: Graph, rows: set<nat>, columns: set<nat>) {
    forall r: nat, c: nat :: Edge(g, r, c) ==> (r in rows <==> c in columns)
  }

  function Restrict(m: Pairing, rows: set<nat>): Pairing {
    map r | r in m && r in rows :: m[r]
  }

  // ----- Weights of parts -----

  lemma WeightSplit(g: Graph, m: Pairing, rows: set<nat>)
    requires IsMatching(g, m)
    ensures IsMatching(g, Restrict(m, rows)) && IsMatching(g, Restrict(m, m.Keys - rows))
    ensures Weight(g, m) == Weight(g, Restrict(m, rows)) + Weight(g, Restrict(m, m.Keys - rows))
  {
    SumAdd(Gains(g, Restrict(m, rows)), Gains(g, Restrict(m, m.Keys - rows)), Gains(g, m));
  }

  /** Matchings on the two sides of a closed part join without conflict. */
  lemma Join(g: Graph, rows: set<nat>, columns: set<nat>, inside: Pairing, outside: Pairing)
    requires Closed(g, rows, columns)
    requires MatchingOn(g, rows, inside) && IsMatching(g, outside) && outside.Keys !! rows
    ensures IsMatching(g, inside + outside)
    ensures Weight(g, inside + outside) == Weight(g, inside) + Weight(g, outside)
  {
    var both := inside + outside;
    forall r | r in both ensures Edge(g, r, both[r]) && (both[r] in columns <==> r in rows) {
    }
    SumAdd(Gains(g, inside), Gains(g, outside), Gains(g, both));
  }

  /** Inside a closed part, a maximum of the whole can be exchanged for any maximum of the part. */
  lemma Exchange(g: Graph, rows: set<nat>, columns: set<nat>, all: set<nat>, whole: Pairing, part: Pairing)
    requires Closed(g, rows, columns) && rows <= all
    requires Maximum(g, all, whole) && Maximum(g, rows, part)
    ensures Maximum(g, all, part + Restrict(whole, whole.Keys - rows))
  {
    var inside, outside := Restrict(whole, rows), Restrict(whole, whole.Keys - rows);
    WeightSplit(g, whole, rows);
    Join(g, rows, columns, part, outside);
    assert MatchingOn(g, rows, inside);
  }

  /** The unique maxima of two closed, disjoint parts make the unique maximum of their union. */
  lemma JoinUnique(g: Graph, rows: set<nat>, columns: set<nat>, m: Pairing, rows': set<nat>, m': Pairing)
    requires Closed(g, rows, columns) && rows !! rows'
    requires UniqueMaximum(g, rows, m) && UniqueMaximum(g, rows', m')
    ensures UniqueMaximum(g, rows + rows', m + m')
  {
    Join(g, rows, columns, m, m');
    forall n | MatchingOn(g, rows + rows', n)
      ensures Weight(g, n) <= Weight(g, m + m')
      ensures Weight(g, n) == Weight(g, m + m') ==> n == m + m'
    {
      BelowJoin(g, rows, m, rows', m', n);
    }
  }

  lemma BelowJoin(g: Graph, rows: set<nat>, m: Pairing, rows': set<nat>, m': Pairing, n: Pairing)
    requires rows !! rows' && UniqueMaximum(g, rows, m) && UniqueMaximum(g, rows', m')
    requires MatchingOn(g, rows + rows', n)
    ensures Weight(g, n) <= Weight(g, m) + Weight(g, m')
    ensures Weight(g, n) == Weight(g, m) + Weight(g, m') ==> n == m + m'
  {
    var a, b := Restrict(n, rows), Restrict(n, n.Keys - rows);
    WeightSplit(g, n, rows);
    assert MatchingOn(g, rows, a) && MatchingOn(g, rows', b);
    if Weight(g, n) == Weight(g, m) + Weight(g, m') {
      assert Maximum(g, rows, a) && Maximum(g, rows', b);
      assert n == a + b;
    }
  }

  // ----- Existence -----

  function EdgeValue(e: Option<nat>): nat {
    match e
    case None => 0
    case Some(v) => v
  }

  function RowValues(row: seq<Option<nat>>): (values: seq<int>) {
    seq(|row|, c requires 0 <= c < |row| => EdgeValue(row[c]) as int)
  }

  /** All the weight on one row. */
  function RowTotal(row: seq<Option<nat>>): int {
    Sum(RowValues(row))
  }

  function RowTotals(g: Graph): (totals: seq<int>) {
    seq(|g|, r requires 0 <= r < |g| => RowTotal(g[r]))
  }

  /** All the weight in the graph. */
  function GraphTotal(g: Graph): int {
    Sum(RowTotals(g))
  }

  lemma GainAtMostRow(g: Graph, m: Pairing, r: nat)
    requires IsMatching(g, m) && r < |g|
    ensures 0 <= Gain(g, m, r) <= RowTotal(g[r])
  {
    var values := RowValues(g[r]);
    if r in m {
      assert Edge(g, r, m[r]);
      EntryAtMostSum(values, m[r]);
    } else {
      SumMonotone(seq(|values|, _ => 0), values);
      SumOfZeros(seq(|values|, _ => 0));
    }
  }

  lemma WeightAtMostTotal(g: Graph, m: Pairing)
    requires IsMatching(g, m)
    ensures 0 <= Weight(g, m) <= GraphTotal(g)
  {
    var totals := RowTotals(g);
    forall r | 0 <= r < |g| ensures 0 <= Gains(g, m)[r] <= totals[r] {
      GainAtMostRow(g, m, r);
    }
    SumMonotone(Gains(g, m), totals);
    SumMonotone(seq(|g|, _ => 0), Gains(g, m));
    SumOfZeros(seq(|g|, _ => 0));
  }

  /** Any matching can be improved to a maximum. */
  lemma MaximumExists(g: Graph, rows: set<nat>, from: Pairing) returns (m: Pairing)
    requires MatchingOn(g, rows, from)
    ensures Maximum(g, rows, m)
    decreases GraphTotal(g) - Weight(g, from)
  {
    WeightAtMostTotal(g, from);
    if n :| MatchingOn(g, rows, n) && Weight(g, n) > Weight(g, from) {
      WeightAtMostTotal(g, n);
      m := MaximumExists(g, rows, n);
    } else {
      m := from;
    }
  }

  /** Two maxima in a closed part mean two maxima of the whole. */
  lemma AmbiguityLifts(g: Graph, rows: set<nat>, columns: set<nat>, all: set<nat>)
    requires Closed(g, rows, columns) && rows <= all && AmbiguousMaximum(g, rows)
    ensures AmbiguousMaximum(g, all)
  {
    var m, n :| Maximum(g, rows, m) && Maximum(g, rows, n) && m != n;
    assert m.Keys <= rows && n.Keys <= rows;
    assert MatchingOn(g, all, map[]);
    hide Maximum, MatchingOn, Closed;
    var whole := MaximumExists(g, all, map[]);
    var outside := Restrict(whole, whole.Keys - rows);
    Exchange(g, rows, columns, all, whole, m);
    Exchange(g, rows, columns, all, whole, n);
    RestrictJoin(m, outside, rows);
    RestrictJoin(n, outside, rows);
    hide Restrict;
    assert m + outside != n + outside;
  }

  lemma RestrictJoin(inside: Pairing, outside: Pairing, rows: set<nat>)
    requires inside.Keys <= rows && outside.Keys !! rows
    ensures Restrict(inside + outside, rows) == inside
  {
  }

  // ----- Ban one edge and solve again -----

  ghost predicate Avoids(m: Pairing, r: nat, c: nat) {
    r in m ==> m[r] != c
  }

  /** Adding pairs to a matching of positive edges makes it strictly heavier. */
  lemma ExtensionHeavier(g: Graph, m: Pairing, n: Pairing)
    requires PositiveWeights(g) && IsMatching(g, m) && IsMatching(g, n)
    requires m != n && forall r :: r in m ==> r in n && n[r] == m[r]
    ensures Weight(g, m) < Weight(g, n)
  {
    var extra := Restrict(n, n.Keys - m.Keys);
    WeightSplit(g, n, m.Keys);
    assert Restrict(n, m.Keys) == m;
    var r :| r in n && r !in m;
    assert Edge(g, r, n[r]) && Gains(g, extra)[r] > 0;
    WeightAtMostTotal(g, extra);
    forall k | 0 <= k < |g| ensures Gains(g, extra)[k] >= 0 {
    }
    EntryAtMostSum(Gains(g, extra), r);
  }

  /** If no maximum avoids any chosen edge, the maximum is unique. */
  lemma UniqueWhenEveryEdgeNeeded(g: Graph, rows: set<nat>, m: Pairing)
    requires PositiveWeights(g) && Maximum(g, rows, m)
    requires forall r, n :: r in m && MatchingOn(g, rows, n) && Avoids(n, r, m[r]) ==> Weight(g, n) < Weight(g, m)
    ensures UniqueMaximum(g, rows, m)
  {
    forall n | Maximum(g, rows, n) ensures n == m {
      forall r | r in m ensures !Avoids(n, r, m[r]) {
      }
      if n != m {
        ExtensionHeavier(g, m, n);
      }
    }
  }

  /** If some maximum avoids a chosen edge, there are two. */
  lemma AmbiguousWhenEdgeSpared(g: Graph, rows: set<nat>, m: Pairing, r: nat, n: Pairing)
    requires Maximum(g, rows, m) && r in m
    requires MatchingOn(g, rows, n) && Avoids(n, r, m[r]) && Weight(g, n) == Weight(g, m)
    ensures AmbiguousMaximum(g, rows)
  {
    assert Maximum(g, rows, n);
  }

  lemma UniqueNotAmbiguous(g: Graph, rows: set<nat>, n: Pairing)
    requires UniqueMaximum(g, rows, n)
    ensures !AmbiguousMaximum(g, rows)
  {
  }
}
