/** Maximum-weight matching of one component through the Hungarian solver, with a private zero-cost
    dummy column for every row, and the ban-one-edge test for uniqueness. */
module OptimalAssignment {
  import opened Wrappers
  import opened Sums
  import opened Matching
  import opened Ledgers
  import Hungarian
  import Numbers

  type Ban = Option<(nat, nat)>

  ghost predicate RectangularGraph(g: Graph, columns: nat) {
    forall r :: 0 <= r < |g| ==> |g[r]| == columns
  }

  /** No edge weighs more than `cap`, and the solver has room for weights up to `cap`. */
  ghost predicate WeightsFit(g: Graph, cap: nat) {
    && 2 * cap < Numbers.I128_MAX
    && forall r: nat, c: nat :: Edge(g, r, c) ==> g[r][c].value <= cap
  }

  ghost predicate AvoidsBan(m: Pairing, banned: Ban) {
    banned.Some? ==> Avoids(m, banned.value.0, banned.value.1)
  }

  /** A heaviest matching among those without the banned edge. */
  ghost predicate Best(g: Graph, banned: Ban, m: Pairing) {
    && IsMatching(g, m) && AvoidsBan(m, banned)
    && forall n :: IsMatching(g, n) && AvoidsBan(n, banned) ==> Weight(g, n) <= Weight(g, m)
  }

  /** The pairs list exactly the matching, by increasing row. */
  ghost predicate Lists(pairs: seq<(nat, nat)>, m: Pairing) {
    && (forall i, j :: 0 <= i < j < |pairs| ==> pairs[i].0 < pairs[j].0)
    && (forall i :: 0 <= i < |pairs| ==> pairs[i].0 in m && m[pairs[i].0] == pairs[i].1)
    && (forall r :: r in m ==> (r, m[r]) in pairs)
  }

  // ----- The cost matrix -----

  function CostCell(g: Graph, columns: nat, banned: Ban, r: nat, c: nat): int
    requires r < |g| && |g[r]| == columns
  {
    if c < columns && banned != Some((r, c)) then -(EdgeValue(g[r][c]) as int) else 0
  }

  ghost predicate CostsOf(g: Graph, columns: nat, banned: Ban, costs: seq<seq<int>>)
    requires RectangularGraph(g, columns)
  {
    && |costs| == |g|
    && (forall r :: 0 <= r < |g| ==> |costs[r]| == columns + |g|)
    && (forall r, c :: 0 <= r < |g| && 0 <= c < columns + |g| ==> costs[r][c] == CostCell(g, columns, banned, r, c))
  }

  method LargestWeight(g: Graph, columns: nat, banned: Ban, ghost cap: nat) returns (maximum: nat)
    requires RectangularGraph(g, columns) && WeightsFit(g, cap)
    ensures maximum <= cap
    ensures forall r: nat, c: nat :: Edge(g, r, c) && banned != Some((r, c)) ==> g[r][c].value <= maximum
  {
    maximum := 0;
    for row := 0 to |g|
      invariant maximum <= cap
      invariant forall r: nat, c: nat :: Edge(g, r, c) && r < row && banned != Some((r, c)) ==> g[r][c].value <= maximum
    {
      for column := 0 to columns
        invariant maximum <= cap
        invariant forall r: nat, c: nat :: Edge(g, r, c) && (r < row || (r == row && c < column)) && banned != Some((r, c)) ==>
                    g[r][c].value <= maximum
      {
        assert g[row][column].Some? ==> Edge(g, row, column);
        if banned != Some((row, column)) && maximum < EdgeValue(g[row][column]) {
          maximum := EdgeValue(g[row][column]);
        }
      }
    }
  }

  method CostMatrix(g: Graph, columns: nat, banned: Ban) returns (costs: seq<seq<int>>)
    requires RectangularGraph(g, columns)
    ensures CostsOf(g, columns, banned, costs)
  {
    var rows := |g|;
    costs := [];
    for row := 0 to rows
      invariant |costs| == row && forall r :: 0 <= r < row ==> |costs[r]| == columns + rows
      invariant forall r, c :: 0 <= r < row && 0 <= c < columns + rows ==>
                  costs[r][c] == CostCell(g, columns, banned, r, c)
    {
      var values := seq(columns + rows, _ => 0);
      for column := 0 to columns
        invariant |values| == columns + rows
        invariant forall c :: 0 <= c < column ==> values[c] == CostCell(g, columns, banned, row, c)
        invariant forall c :: column <= c < columns + rows ==> values[c] == 0
      {
        if banned != Some((row, column)) {
          values := values[column := -(EdgeValue(g[row][column]) as int)];
        }
      }
      costs := costs + [values];
    }
  }

  // ----- Matchings and assignments -----

  /** The row keeps its column when that is a real, allowed edge. */
  predicate Chosen(g: Graph, columns: nat, banned: Ban, row: nat, column: int)
    requires row < |g| && |g[row]| == columns
  {
    0 <= column < columns && banned != Some((row, column)) && g[row][column].Some?
  }

  ghost function Kept(g: Graph, columns: nat, banned: Ban, a: seq<int>, upto: nat): (m: Pairing)
    requires RectangularGraph(g, columns) && |a| == |g| && upto <= |g|
  {
    map r: nat | r < upto && Chosen(g, columns, banned, r, a[r]) :: a[r] as nat
  }

  lemma KeptIsMatching(g: Graph, columns: nat, banned: Ban, a: seq<int>, costs: seq<seq<int>>)
    requires RectangularGraph(g, columns) && CostsOf(g, columns, banned, costs)
    requires Hungarian.IsAssignment(costs, columns + |g|, a)
    ensures var m := Kept(g, columns, banned, a, |g|); IsMatching(g, m) && AvoidsBan(m, banned)
  {
  }

  /** Cost of an assignment and weight of the matching it keeps are opposite, row by row. */
  lemma {:induction false} KeptWeight(g: Graph, columns: nat, banned: Ban, a: seq<int>, costs: seq<seq<int>>, m: Pairing, k: nat)
    requires RectangularGraph(g, columns) && CostsOf(g, columns, banned, costs)
    requires |a| == |g| && k <= |g| && forall r :: 0 <= r < |a| ==> 0 <= a[r] < columns + |g|
    requires IsMatching(g, m) && forall r :: 0 <= r < |g| ==> Gain(g, m, r) == -CostCell(g, columns, banned, r, a[r])
    ensures Hungarian.Cost(costs, columns + |g|, a, k) == -Sum(Gains(g, m)[..k])
  {
    if k > 0 {
      KeptWeight(g, columns, banned, a, costs, m, k - 1);
      assert Gains(g, m)[..k][..k - 1] == Gains(g, m)[..k - 1];
      assert costs[k - 1][a[k - 1]] == CostCell(g, columns, banned, k - 1, a[k - 1]);
    }
  }

  /** Every matching is an assignment once unmatched rows take their dummy column. */
  ghost function WithDummies(g: Graph, columns: nat, m: Pairing): (a: seq<int>) {
    seq(|g|, r requires 0 <= r < |g| => if r in m then m[r] as int else columns + r)
  }

  lemma WithDummiesIsAssignment(g: Graph, columns: nat, banned: Ban, costs: seq<seq<int>>, m: Pairing)
    requires RectangularGraph(g, columns) && CostsOf(g, columns, banned, costs)
    requires IsMatching(g, m) && AvoidsBan(m, banned)
    ensures Hungarian.IsAssignment(costs, columns + |g|, WithDummies(g, columns, m))
    ensures Hungarian.Cost(costs, columns + |g|, WithDummies(g, columns, m), |g|) == -Weight(g, m)
  {
    var a := WithDummies(g, columns, m);
    forall r | 0 <= r < |g|
      ensures 0 <= a[r] < columns + |g| && Gain(g, m, r) == -CostCell(g, columns, banned, r, a[r])
      ensures r in m <==> a[r] < columns
    {
      if r in m {
        assert Edge(g, r, m[r]);
      }
    }
    KeptWeight(g, columns, banned, a, costs, m, |g|);
    assert Gains(g, m)[..|g|] == Gains(g, m);
  }

  lemma KeptCost(g: Graph, columns: nat, banned: Ban, a: seq<int>, costs: seq<seq<int>>)
    requires RectangularGraph(g, columns) && CostsOf(g, columns, banned, costs)
    requires Hungarian.Rectangular(costs, columns + |g|) && Hungarian.IsAssignment(costs, columns + |g|, a)
    ensures IsMatching(g, Kept(g, columns, banned, a, |g|))
    ensures Hungarian.Cost(costs, columns + |g|, a, |g|) == -Weight(g, Kept(g, columns, banned, a, |g|))
  {
    var m := Kept(g, columns, banned, a, |g|);
    KeptIsMatching(g, columns, banned, a, costs);
    KeptWeight(g, columns, banned, a, costs, m, |g|);
    assert Gains(g, m)[..|g|] == Gains(g, m);
  }

  /** A minimum-cost assignment keeps a best matching. */
  lemma KeptIsBest(g: Graph, columns: nat, banned: Ban, a: seq<int>, costs: seq<seq<int>>)
    requires RectangularGraph(g, columns) && CostsOf(g, columns, banned, costs)
    requires Hungarian.Rectangular(costs, columns + |g|) && Hungarian.MinimumCost(costs, columns + |g|, a)
    ensures Best(g, banned, Kept(g, columns, banned, a, |g|))
  {
    var m := Kept(g, columns, banned, a, |g|);
    KeptIsMatching(g, columns, banned, a, costs);
    KeptCost(g, columns, banned, a, costs);
    forall n | IsMatching(g, n) && AvoidsBan(n, banned) ensures Weight(g, n) <= Weight(g, m) {
      WithDummiesIsAssignment(g, columns, banned, costs, n);
    }
  }

  // ----- The solver for one component -----

  function PairsTotal(g: Graph, pairs: seq<(nat, nat)>): nat
    requires forall i :: 0 <= i < |pairs| ==> pairs[i].0 < |g| && pairs[i].1 < |g[pairs[i].0]|
  {
    if |pairs| == 0 then 0
    else PairsTotal(g, pairs[..|pairs| - 1]) + EdgeValue(g[pairs[|pairs| - 1].0][pairs[|pairs| - 1].1])
  }

  lemma PairsTotalAppend(g: Graph, pairs: seq<(nat, nat)>, r: nat, c: nat)
    requires forall i :: 0 <= i < |pairs| ==> pairs[i].0 < |g| && pairs[i].1 < |g[pairs[i].0]|
    requires r < |g| && c < |g[r]|
    ensures PairsTotal(g, pairs + [(r, c)]) == PairsTotal(g, pairs) + EdgeValue(g[r][c])
  {
    assert (pairs + [(r, c)])[..|pairs|] == pairs;
  }

  ghost predicate Keeping(g: Graph, columns: nat, banned: Ban, a: seq<int>, m: Pairing, row: nat, pairs: seq<(nat, nat)>)
    requires RectangularGraph(g, columns) && |a| == |g| && row <= |g| && IsMatching(g, m)
  {
    && Lists(pairs, Kept(g, columns, banned, a, row))
    && (forall i :: 0 <= i < |pairs| ==> pairs[i].0 < row && pairs[i].1 < |g[pairs[i].0]|)
    && PairsTotal(g, pairs) == Sum(Gains(g, m)[..row])
  }

  lemma KeptGain(g: Graph, columns: nat, banned: Ban, a: seq<int>, row: nat)
    requires RectangularGraph(g, columns) && |a| == |g| && row < |g|
    requires IsMatching(g, Kept(g, columns, banned, a, |g|)) && Chosen(g, columns, banned, row, a[row])
    ensures var gains := Gains(g, Kept(g, columns, banned, a, |g|));
            |gains| == |g| && gains[row] == EdgeValue(g[row][a[row]])
  {
  }

  lemma KeepRow(g: Graph, columns: nat, banned: Ban, a: seq<int>, m: Pairing, row: nat, pairs: seq<(nat, nat)>)
    requires RectangularGraph(g, columns) && |a| == |g| && row < |g|
    requires m == Kept(g, columns, banned, a, |g|) && IsMatching(g, m)
    requires Keeping(g, columns, banned, a, m, row, pairs) && Chosen(g, columns, banned, row, a[row])
    ensures Keeping(g, columns, banned, a, m, row + 1, pairs + [(row, a[row] as nat)])
  {
    hide Lists, Kept, IsMatching, Gains, Gain, Sum, PairsTotal;
    KeptGain(g, columns, banned, a, row);
    KeptOneMore(g, columns, banned, a, row, pairs);
    PairsTotalAppend(g, pairs, row, a[row] as nat);
    SumPrefix(Gains(g, m), row);
  }

  lemma SkipRow(g: Graph, columns: nat, banned: Ban, a: seq<int>, m: Pairing, row: nat, pairs: seq<(nat, nat)>)
    requires RectangularGraph(g, columns) && |a| == |g| && row < |g|
    requires m == Kept(g, columns, banned, a, |g|) && IsMatching(g, m)
    requires Keeping(g, columns, banned, a, m, row, pairs) && !Chosen(g, columns, banned, row, a[row])
    ensures Keeping(g, columns, banned, a, m, row + 1, pairs)
  {
    hide Lists, IsMatching, Gains, Gain, Sum, PairsTotal;
    SkippedGain(g, columns, banned, a, row);
    assert Kept(g, columns, banned, a, row + 1) == Kept(g, columns, banned, a, row);
    SumPrefix(Gains(g, m), row);
  }

  lemma SkippedGain(g: Graph, columns: nat, banned: Ban, a: seq<int>, row: nat)
    requires RectangularGraph(g, columns) && |a| == |g| && row < |g|
    requires IsMatching(g, Kept(g, columns, banned, a, |g|)) && !Chosen(g, columns, banned, row, a[row])
    ensures var gains := Gains(g, Kept(g, columns, banned, a, |g|)); |gains| == |g| && gains[row] == 0
  {
  }

  lemma KeptOneMore(g: Graph, columns: nat, banned: Ban, a: seq<int>, row: nat, pairs: seq<(nat, nat)>)
    requires RectangularGraph(g, columns) && |a| == |g| && row < |g|
    requires Chosen(g, columns, banned, row, a[row])
    requires Lists(pairs, Kept(g, columns, banned, a, row))
    ensures Lists(pairs + [(row, a[row] as nat)], Kept(g, columns, banned, a, row + 1))
  {
    var m := Kept(g, columns, banned, a, row);
    assert forall i :: 0 <= i < |pairs| ==> pairs[i].0 in m;
    assert Kept(g, columns, banned, a, row + 1) == m[row := a[row] as nat];
  }

  lemma KeepingEnds(g: Graph, columns: nat, banned: Ban, a: seq<int>, m: Pairing, pairs: seq<(nat, nat)>)
    requires RectangularGraph(g, columns) && |a| == |g|
    requires m == Kept(g, columns, banned, a, |g|) && IsMatching(g, m)
    requires Keeping(g, columns, banned, a, m, |g|, pairs)
    ensures Lists(pairs, m) && PairsTotal(g, pairs) == Weight(g, m)
  {
    assert Gains(g, m)[..|g|] == Gains(g, m);
  }

  lemma KeepingStarts(g: Graph, columns: nat, banned: Ban, a: seq<int>, m: Pairing)
    requires RectangularGraph(g, columns) && |a| == |g| && IsMatching(g, m)
    ensures Keeping(g, columns, banned, a, m, 0, [])
  {
  }

  /** The filtered read-out of the assignment. */
  method KeepPairs(g: Graph, columns: nat, banned: Ban, a: seq<int>) returns (pairs: seq<(nat, nat)>)
    requires RectangularGraph(g, columns) && |a| == |g|
    requires IsMatching(g, Kept(g, columns, banned, a, |g|))
    ensures Lists(pairs, Kept(g, columns, banned, a, |g|))
    ensures forall i :: 0 <= i < |pairs| ==> pairs[i].0 < |g| && pairs[i].1 < |g[pairs[i].0]|
    ensures PairsTotal(g, pairs) == Weight(g, Kept(g, columns, banned, a, |g|))
  {
    ghost var m := Kept(g, columns, banned, a, |g|);
    pairs := [];
    KeepingStarts(g, columns, banned, a, m);
    hide Lists, Kept, PairsTotal, Sum, Gains, IsMatching;
    for row := 0 to |g|
      invariant Keeping(g, columns, banned, a, m, row, pairs)
    {
      if Chosen(g, columns, banned, row, a[row]) {
        KeepRow(g, columns, banned, a, m, row, pairs);
        pairs := pairs + [(row, a[row])];
      } else {
        SkipRow(g, columns, banned, a, m, row, pairs);
      }
    }
    KeepingEnds(g, columns, banned, a, m, pairs);
  }

  method TotalOf(g: Graph, pairs: seq<(nat, nat)>) returns (total: nat)
    requires forall i :: 0 <= i < |pairs| ==> pairs[i].0 < |g| && pairs[i].1 < |g[pairs[i].0]|
    ensures total == PairsTotal(g, pairs)
  {
    total := 0;
    for i := 0 to |pairs|
      invariant total == PairsTotal(g, pairs[..i])
    {
      assert pairs[..i + 1][..i] == pairs[..i];
      total := total + EdgeValue(g[pairs[i].0][pairs[i].1]);
    }
    assert pairs[..|pairs|] == pairs;
  }

  /** A sum over edges of at most `cap` each. */
  lemma {:induction false} PairsTotalBound(g: Graph, pairs: seq<(nat, nat)>, cap: nat)
    requires forall i :: 0 <= i < |pairs| ==> pairs[i].0 < |g| && pairs[i].1 < |g[pairs[i].0]|
    requires WeightsFit(g, cap)
    ensures PairsTotal(g, pairs) <= Times(|pairs|, cap)
  {
    if |pairs| > 0 {
      var k := |pairs| - 1;
      PairsTotalBound(g, pairs[..k], cap);
      TimesNext(k, cap);
      assert Edge(g, pairs[k].0, pairs[k].1) || g[pairs[k].0][pairs[k].1].None?;
    }
  }

  /** The most pairs a matching can have. */
  function Shorter(rows: nat, columns: nat): nat {
    if rows < columns then rows else columns
  }

  /** The range of everything one solve computes, for weights up to `cap`. */
  ghost predicate SolveWithin(ledger: Ledger, rows: nat, columns: nat, cap: nat) {
    Within(ledger, 2 * cap, Times(rows, cap), Times(Shorter(rows, columns), cap))
  }

  lemma OptimalWithin(g: Graph, columns: nat, pairs: seq<(nat, nat)>, m: Pairing, total: nat, maximum: nat, cap: nat, ledger: Ledger)
    requires RectangularGraph(g, columns) && IsMatching(g, m) && Lists(pairs, m) && WeightsFit(g, cap) && maximum <= cap
    requires forall i :: 0 <= i < |pairs| ==> pairs[i].0 < |g| && pairs[i].1 < |g[pairs[i].0]|
    requires total == PairsTotal(g, pairs)
    requires Within(ledger, 2 * maximum, Times(|g|, maximum), 0)
    ensures total <= Times(Shorter(|g|, columns), cap)
    ensures SolveWithin(ledger.(totals := ledger.totals + {total}), |g|, columns, cap)
  {
    PairCount(g, columns, pairs, m);
    PairsTotalBound(g, pairs, cap);
    hide RectangularGraph, IsMatching, Lists, WeightsFit, PairsTotal, Times;
    TimesMonotone(|pairs|, Shorter(|g|, columns), cap, cap);
    TimesMonotone(|g|, |g|, maximum, cap);
  }

  /** A best matching without the banned edge, its total, and the cells it took to find it. */
  method Optimal(g: Graph, columns: nat, banned: Ban, ghost cap: nat)
    returns (total: nat, pairs: seq<(nat, nat)>, ghost m: Pairing, ghost cells: nat, ghost ledger: Ledger)
    requires RectangularGraph(g, columns) && WeightsFit(g, cap)
    ensures Best(g, banned, m) && Lists(pairs, m) && total == Weight(g, m)
    ensures exists n :: Best(g, banned, n) && Lists(pairs, n) && total == Weight(g, n)
    ensures cells <= Times(|g|, Times(|g|, columns + |g|))
    ensures total <= Times(Shorter(|g|, columns), cap)
    ensures |g| > 0 ==> total in ledger.roots
    ensures total in ledger.totals && SolveWithin(ledger, |g|, columns, cap)
  {
    hide *;
    if |g| == 0 {
      EmptyGraph(g, columns, banned, cap);
      return 0, [], map[], 0, Ledger({}, {}, {0});
    }
    var maximum := LargestWeight(g, columns, banned, cap);
    FitsSolver(g, cap);
    assert maximum <= Numbers.I128_MAX;
    var costs := CostMatrix(g, columns, banned);
    CostsInRange(g, columns, banned, costs, maximum, cap);
    var assignment;
    ghost var t;
    assignment, t, cells, ledger := Hungarian.Solve(costs, -(maximum as int), 0);
    KeptIsBest(g, columns, banned, assignment, costs);
    AssignmentLength(costs, columns + |g|, assignment);
    m := Kept(g, columns, banned, assignment, |g|);
    BestParts(g, banned, m);
    KeptCost(g, columns, banned, assignment, costs);
    pairs := KeepPairs(g, columns, banned, assignment);
    total := TotalOf(g, pairs);
    OptimalWithin(g, columns, pairs, m, total, maximum, cap, ledger);
    ledger := ledger.(totals := ledger.totals + {total});
  }

  lemma FitsSolver(g: Graph, cap: nat)
    requires WeightsFit(g, cap)
    ensures cap <= Numbers.I128_MAX
  {
  }

  lemma EmptyGraph(g: Graph, columns: nat, banned: Ban, cap: nat)
    requires |g| == 0
    ensures 0 == Times(Shorter(|g|, columns), cap) && SolveWithin(Ledger({}, {}, {0}), |g|, columns, cap)
    ensures Times(|g|, Times(|g|, columns + |g|)) == 0
    ensures Best(g, banned, map[]) && Lists([], map[]) && Weight(g, map[]) == 0
  {
  }

  lemma BestParts(g: Graph, banned: Ban, m: Pairing)
    requires Best(g, banned, m)
    ensures IsMatching(g, m)
  {
  }

  lemma AssignmentLength(costs: seq<seq<int>>, m: nat, a: seq<int>)
    requires Hungarian.Rectangular(costs, m) && Hungarian.MinimumCost(costs, m, a)
    ensures |a| == |costs| && Hungarian.IsAssignment(costs, m, a)
  {
  }

  lemma CostsInRange(g: Graph, columns: nat, banned: Ban, costs: seq<seq<int>>, maximum: nat, cap: nat)
    requires RectangularGraph(g, columns) && CostsOf(g, columns, banned, costs) && WeightsFit(g, cap)
    requires maximum <= cap
    requires forall r: nat, c: nat :: Edge(g, r, c) && banned != Some((r, c)) ==> g[r][c].value <= maximum
    ensures Hungarian.Rectangular(costs, columns + |g|) && Hungarian.InRange(costs, columns + |g|, -(maximum as int), 0)
    ensures |costs| == |g| && forall r :: 0 <= r < |g| ==> |costs[r]| == columns + |g|
  {
    forall r, c | 0 <= r < |g| && 0 <= c < columns + |g| ensures -(maximum as int) <= costs[r][c] <= 0 {
      if c < columns {
        assert g[r][c].Some? ==> Edge(g, r, c);
      }
      assert costs[r][c] == CostCell(g, columns, banned, r, c);
    }
  }

  // ----- The bound on totals is reached -----

  /** Every row can have every column, always for the same weight. */
  ghost function Uniform(k: nat, weight: nat): Graph {
    seq(k, _ => seq(k, _ => Some(weight)))
  }

  ghost function Identity(g: Graph): Pairing {
    map r | r in AllRows(g) :: r
  }

  lemma {:induction false} SumOfSame(s: seq<int>, x: nat)
    requires forall i :: 0 <= i < |s| ==> s[i] == x
    ensures Sum(s) == Times(|s|, x)
  {
    if |s| > 0 {
      SumOfSame(s[..|s| - 1], x);
      TimesNext(|s| - 1, x);
    }
  }

  /** A best matching of a uniform graph, and with it the root potential at the end of the solve,
      is as heavy as the bounds allow. */
  lemma BoundsReached(k: nat, weight: nat, m: Pairing)
    requires Best(Uniform(k, weight), None, m)
    ensures RectangularGraph(Uniform(k, weight), k)
    ensures Weight(Uniform(k, weight), m) >= Times(k, weight)
  {
    var g, n := Uniform(k, weight), Identity(Uniform(k, weight));
    assert IsMatching(g, n) && AvoidsBan(n, None);
    SumOfSame(Gains(g, n), weight);
  }

  // ----- Uniqueness by banning each chosen edge -----

  lemma BestIsMaximum(g: Graph, m: Pairing)
    requires Best(g, None, m)
    ensures Maximum(g, AllRows(g), m)
  {
    MatchingRows(g, m);
  }

  lemma MatchingRows(g: Graph, m: Pairing)
    requires IsMatching(g, m)
    ensures MatchingOn(g, AllRows(g), m)
  {
    forall r | r in m ensures r in AllRows(g) {
      assert Edge(g, r, m[r]);
    }
  }

  /** A matching has at most as many pairs as rows, and as columns. */
  lemma PairCount(g: Graph, columns: nat, pairs: seq<(nat, nat)>, m: Pairing)
    requires RectangularGraph(g, columns) && IsMatching(g, m) && Lists(pairs, m)
    ensures |pairs| <= |g| && |pairs| <= columns
  {
    var rows := seq(|pairs|, i requires 0 <= i < |pairs| => pairs[i].0 + 1);
    var cols := seq(|pairs|, i requires 0 <= i < |pairs| => pairs[i].1 + 1);
    forall i | 0 <= i < |pairs| ensures 1 <= rows[i] <= |g| && 1 <= cols[i] <= columns {
      assert Edge(g, pairs[i].0, m[pairs[i].0]);
    }
    forall i, j | 0 <= i < j < |pairs| ensures rows[i] != rows[j] && cols[i] != cols[j] {
      assert pairs[i].0 in m && pairs[j].0 in m;
    }
    Pigeonhole(rows, |g|);
    Pigeonhole(cols, columns);
  }

  /** No best matching without this chosen edge is as heavy as the best of all. */
  ghost predicate EdgeNeeded(g: Graph, m: Pairing, r: nat)
    requires IsMatching(g, m) && r in m
  {
    forall n :: IsMatching(g, n) && Avoids(n, r, m[r]) ==> Weight(g, n) < Weight(g, m)
  }

  lemma UniqueWhenAllNeeded(g: Graph, pairs: seq<(nat, nat)>, m: Pairing)
    requires PositiveWeights(g) && Best(g, None, m) && Lists(pairs, m)
    requires forall i :: 0 <= i < |pairs| ==> EdgeNeeded(g, m, pairs[i].0)
    ensures UniqueMaximum(g, AllRows(g), m)
  {
    BestIsMaximum(g, m);
    forall r | r in m ensures EdgeNeeded(g, m, r) {
      assert (r, m[r]) in pairs;
    }
    UniqueWhenEveryEdgeNeeded(g, AllRows(g), m);
  }

  lemma NeededWhenLighter(g: Graph, m: Pairing, r: nat, n: Pairing)
    requires IsMatching(g, m) && r in m && Best(g, Some((r, m[r])), n) && Weight(g, n) < Weight(g, m)
    ensures EdgeNeeded(g, m, r)
  {
    forall n' | IsMatching(g, n') && Avoids(n', r, m[r]) ensures Weight(g, n') < Weight(g, m) {
      assert AvoidsBan(n', Some((r, m[r])));
    }
  }

  lemma AmbiguousWhenEqual(g: Graph, m: Pairing, r: nat, n: Pairing)
    requires Best(g, None, m) && r in m && Best(g, Some((r, m[r])), n) && Weight(g, n) == Weight(g, m)
    ensures AmbiguousMaximum(g, AllRows(g))
  {
    BestIsMaximum(g, m);
    MatchingRows(g, n);
    AmbiguousWhenEdgeSpared(g, AllRows(g), m, r, n);
  }

  lemma BannedNotHeavier(g: Graph, m: Pairing, banned: Ban, n: Pairing)
    requires Best(g, None, m) && Best(g, banned, n)
    ensures IsMatching(g, m) && IsMatching(g, n) && Weight(g, n) <= Weight(g, m)
  {
  }

  ghost function SolveCells(rows: nat, columns: nat): nat {
    Times(rows, Times(rows, columns + rows))
  }

  /** The number of solves charged for a component: one, and one for each edge a matching can have. */
  function Alternatives(rows: nat, columns: nat): nat {
    Shorter(rows, columns) + 1
  }

  lemma AlternativesCover(pairs: nat, rows: nat, columns: nat, per: nat)
    requires pairs <= rows && pairs <= columns
    ensures Times(pairs + 1, per) <= Times(Alternatives(rows, columns), per)
  {
    TimesMonotone(pairs + 1, Alternatives(rows, columns), per, per);
  }

  /** Solve a component and decide whether its maximum is unique: each chosen edge is banned in
      turn and the component solved again. */
  method SolveComponent(g: Graph, columns: nat, ghost cap: nat)
    returns (ambiguous: bool, pairs: seq<(nat, nat)>, ghost m: Pairing, ghost cells: nat, ghost ledger: Ledger)
    requires RectangularGraph(g, columns) && WeightsFit(g, cap) && PositiveWeights(g)
    ensures ambiguous <==> AmbiguousMaximum(g, AllRows(g))
    ensures !ambiguous ==> UniqueMaximum(g, AllRows(g), m) && Lists(pairs, m)
    ensures !ambiguous ==> exists n :: UniqueMaximum(g, AllRows(g), n) && Lists(pairs, n)
    ensures cells <= Times(Alternatives(|g|, columns), SolveCells(|g|, columns))
    ensures SolveWithin(ledger, |g|, columns, cap)
  {
    hide *;
    var total;
    ghost var per := SolveCells(|g|, columns);
    total, pairs, m, cells, ledger := Optimal(g, columns, None, cap);
    SolveCellsIs(|g|, columns);
    BestParts(g, None, m);
    PairCount(g, columns, pairs, m);
    TimesNext(0, per);
    for i := 0 to |pairs|
      invariant forall k :: 0 <= k < i ==> pairs[k].0 in m && EdgeNeeded(g, m, pairs[k].0)
      invariant cells <= Times(i + 1, per)
      invariant SolveWithin(ledger, |g|, columns, cap)
    {
      ghost var n, seen, more;
      var alternative, without;
      ListsAt(pairs, m, i);
      alternative, without, n, seen, more := Optimal(g, columns, Some(pairs[i]), cap);
      SolvesWithin(ledger, more, |g|, columns, cap);
      cells, ledger := cells + seen, Joined(ledger, more);
      TimesNext(i + 1, per);
      BannedNotHeavier(g, m, Some(pairs[i]), n);
      if alternative == total {
        AmbiguousWhenEqual(g, m, pairs[i].0, n);
        ambiguous := true;
        AlternativesCover(i + 1, |g|, columns, per);
        return;
      }
      NeededWhenLighter(g, m, pairs[i].0, n);
    }
    AlternativesCover(|pairs|, |g|, columns, per);
    UniqueWhenAllNeeded(g, pairs, m);
    UniqueNotAmbiguous(g, AllRows(g), m);
    ambiguous := false;
  }

  lemma SolvesWithin(ledger: Ledger, more: Ledger, rows: nat, columns: nat, cap: nat)
    requires SolveWithin(ledger, rows, columns, cap) && SolveWithin(more, rows, columns, cap)
    ensures SolveWithin(Joined(ledger, more), rows, columns, cap)
  {
    hide Within, Joined;
    JoinedWithin(ledger, more, 2 * cap, Times(rows, cap), Times(Shorter(rows, columns), cap));
  }

  lemma ListsAt(pairs: seq<(nat, nat)>, m: Pairing, i: nat)
    requires Lists(pairs, m) && i < |pairs|
    ensures pairs[i].0 in m && m[pairs[i].0] == pairs[i].1 && pairs[i] == (pairs[i].0, m[pairs[i].0])
  {
  }

  lemma SolveCellsIs(rows: nat, columns: nat)
    ensures SolveCells(rows, columns) == Times(rows, Times(rows, columns + rows))
  {
  }
}
