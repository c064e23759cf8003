/** The rectangular Hungarian algorithm: arrays mutated in place, proved against
    linear-programming duality. Rows and columns are 1-based inside the tables, with
    column 0 as the root of the search tree and row 0 meaning "unmatched". */
module Hungarian {
  import opened Numbers
  import opened Sums
  import opened Ledgers

  type Matrix = seq<seq<int>>

  ghost predicate Rectangular(c: Matrix, m: nat) {
    forall r :: 0 <= r < |c| ==> |c[r]| == m
  }

  /** Every cell lies in lo..hi, and the range leaves room for every intermediate value. */
  ghost predicate InRange(c: Matrix, m: nat, lo: int, hi: int)
    requires Rectangular(c, m)
  {
    && lo <= 0 <= hi
    && 2 * (hi - lo) < I128_MAX
    && forall r, j :: 0 <= r < |c| && 0 <= j < m ==> lo <= c[r][j] <= hi
  }

  /** The duals (u over rows, v over columns), the row held by each column (p), and the
      column holding each row (q, the inverse of p, kept only for the proof). */
  datatype Tables = Tables(u: seq<int>, v: seq<int>, p: seq<int>, q: seq<int>)

  ghost predicate Shape(c: Matrix, m: nat, t: Tables) {
    && Rectangular(c, m)
    && |t.u| == |c| + 1 && |t.q| == |c| + 1
    && |t.v| == m + 1 && |t.p| == m + 1
  }

  ghost function Reduced(c: Matrix, m: nat, t: Tables, r: int, j: int): int
    requires Shape(c, m, t) && 1 <= r <= |c| && 1 <= j <= m
  {
    c[r - 1][j - 1] - t.u[r] - t.v[j]
  }

  /** p and q are inverse to each other on rows 1..rows, ignoring column `hole`. */
  ghost predicate Located(c: Matrix, m: nat, t: Tables, rows: nat, hole: int)
    requires Shape(c, m, t) && rows <= |c|
  {
    && (forall j :: 0 <= j <= m && j != hole ==> 0 <= t.p[j] <= rows)
    && (forall j :: 0 <= j <= m && j != hole && t.p[j] != 0 ==> t.q[t.p[j]] == j)
    && (forall r :: 1 <= r <= rows ==> 0 <= t.q[r] <= m && t.q[r] != hole && t.p[t.q[r]] == r)
  }

  ghost predicate Feasible(c: Matrix, m: nat, t: Tables, rows: nat)
    requires Shape(c, m, t) && rows <= |c|
  {
    forall r, j :: 1 <= r <= rows && 1 <= j <= m ==> Reduced(c, m, t, r, j) >= 0
  }

  /** Complementary slackness on the matched columns other than `hole`. */
  ghost predicate Tight(c: Matrix, m: nat, t: Tables, hole: int)
    requires Shape(c, m, t)
  {
    forall j :: 1 <= j <= m && j != hole && 1 <= t.p[j] <= |c| ==> Reduced(c, m, t, t.p[j], j) == 0
  }

  ghost predicate Signs(c: Matrix, m: nat, t: Tables)
    requires Shape(c, m, t)
  {
    forall j :: 1 <= j <= m ==> t.v[j] <= 0 && (t.p[j] == 0 ==> t.v[j] == 0)
  }

  /** What holds after `done` rows have been matched. `zero` is a column of potential 0. */
  ghost predicate Settled(c: Matrix, m: nat, t: Tables, done: nat, zero: int) {
    && Shape(c, m, t) && done <= |c|
    && Located(c, m, t, done, 0)
    && Feasible(c, m, t, done)
    && Tight(c, m, t, 0)
    && Signs(c, m, t)
    && (forall r :: done < r <= |c| ==> t.u[r] == 0)
    && t.u[0] == 0
    && Sum(t.u) + Sum(t.v) == 0
    && (done > 0 ==> 1 <= zero <= m && t.v[zero] == 0)
  }

  /** The values the potentials of a settled state can take. */
  lemma PotentialBounds(c: Matrix, m: nat, t: Tables, done: nat, lo: int, hi: int, zero: int)
    requires Settled(c, m, t, done, zero) && InRange(c, m, lo, hi)
    ensures forall r :: 1 <= r <= done ==> lo <= t.u[r] <= hi
    ensures forall j :: 1 <= j <= m ==> lo - hi <= t.v[j] <= 0
  {
    forall r | 1 <= r <= done ensures lo <= t.u[r] <= hi {
      assert Reduced(c, m, t, r, zero) >= 0;
      assert Reduced(c, m, t, t.p[t.q[r]], t.q[r]) == 0;
    }
    forall j | 1 <= j <= m ensures lo - hi <= t.v[j] <= 0 {
      if t.p[j] != 0 {
        assert Reduced(c, m, t, t.p[j], j) == 0;
      }
    }
  }

  // ----- The search tree grown for one row -----

  /** The columns already scanned (`order`, with `rank` its inverse and -1 elsewhere), each
      entered through a tight edge from a column scanned before it. */
  ghost predicate Tree(c: Matrix, m: nat, t: Tables, order: seq<int>, rank: seq<int>, way: seq<int>)
    requires Shape(c, m, t)
  {
    && |rank| == m + 1 && |way| == m + 1
    && (forall k :: 0 <= k < |order| ==> 0 <= order[k] <= m && rank[order[k]] == k)
    && (forall j :: 0 <= j <= m ==> -1 <= rank[j] < |order|)
    && (forall j :: 0 <= j <= m && rank[j] >= 0 ==> order[rank[j]] == j && 1 <= t.p[j] <= |c|)
    && (|order| > 0 ==> order[0] == 0)
    && (forall j :: 1 <= j <= m && rank[j] >= 0 ==> Entered(c, m, t, rank, way, j))
  }

  /** Column j is reached from way[j], scanned earlier, by an edge of reduced cost zero. */
  ghost predicate Entered(c: Matrix, m: nat, t: Tables, rank: seq<int>, way: seq<int>, j: int)
    requires Shape(c, m, t) && |rank| == m + 1 && |way| == m + 1 && 1 <= j <= m
  {
    && 0 <= way[j] <= m && 0 <= rank[way[j]]
    && (rank[j] >= 0 ==> rank[way[j]] < rank[j])
    && 1 <= t.p[way[j]] <= |c| && Reduced(c, m, t, t.p[way[j]], j) == 0
  }

  /** minv[j] is the least reduced cost from a scanned column's row to the unscanned j. */
  ghost predicate Frontier(c: Matrix, m: nat, t: Tables, rank: seq<int>, way: seq<int>, minv: seq<int>)
    requires Shape(c, m, t)
  {
    && |rank| == m + 1 && |way| == m + 1 && |minv| == m + 1
    && (forall j :: 1 <= j <= m && rank[j] < 0 ==>
          && 0 <= way[j] <= m && rank[way[j]] >= 0
          && 1 <= t.p[way[j]] <= |c| && minv[j] == Reduced(c, m, t, t.p[way[j]], j))
    && (forall j, k :: 1 <= j <= m && rank[j] < 0 && 0 <= k <= m && rank[k] >= 0 && 1 <= t.p[k] <= |c| ==>
          minv[j] <= Reduced(c, m, t, t.p[k], j))
  }

  /** What holds while row i is being inserted, whatever has been scanned. */
  ghost predicate Inserting(c: Matrix, m: nat, t: Tables, i: nat, base: int) {
    && Shape(c, m, t) && 1 <= i <= |c|
    && Located(c, m, t, i, -1) && t.p[0] == i
    && Tight(c, m, t, 0)
    && Signs(c, m, t)
    && (forall r :: i < r <= |c| ==> t.u[r] == 0)
    && t.u[0] == 0
    && Sum(t.u) + Sum(t.v) == 0
    && t.v[0] + t.u[i] == base
  }

  /** The state at the head of the search loop, `column` being scanned next. */
  ghost predicate Searching(c: Matrix, m: nat, t: Tables, i: nat, base: int, lo: int, hi: int,
                            order: seq<int>, rank: seq<int>, way: seq<int>, minv: seq<int>, column: int) {
    && Inserting(c, m, t, i, base)
    && Tree(c, m, t, order, rank, way)
    && |minv| == m + 1
    && 0 <= column <= m && rank[column] < 0
    && Feasible(c, m, t, if order == [] then i - 1 else i)
    && (order == [] ==>
          && column == 0 && t.u[i] == 0
          && (forall j :: 1 <= j <= m ==> minv[j] == I128_MAX && t.v[j] >= lo - hi))
    && (order != [] ==>
          && column != 0 && lo <= t.u[i]
          && Frontier(c, m, t, rank, way, minv)
          && minv[column] == 0)
  }

  /** Fewer rows than columns are held, so some column is still free. */
  lemma FreeColumn(c: Matrix, m: nat, t: Tables, i: nat) returns (z: int)
    requires Shape(c, m, t) && 1 <= i <= |c| <= m
    requires Located(c, m, t, i, -1) && t.p[0] == i
    ensures 1 <= z <= m && t.p[z] == 0
  {
    z := 1;
    while z <= m && t.p[z] != 0
      invariant 1 <= z <= m + 1
      invariant forall j :: 0 <= j < z ==> t.p[j] != 0
    {
      z := z + 1;
    }
    if z == m + 1 {
      forall a, b | 0 <= a < b < |t.p| ensures t.p[a] != t.p[b] {
        assert t.q[t.p[a]] == a && t.q[t.p[b]] == b;
      }
      Pigeonhole(t.p, i);
    }
  }

  /** The scanned columns hold distinct rows among 1..i, so there are at most i of them. */
  lemma TreeSize(c: Matrix, m: nat, t: Tables, i: nat, order: seq<int>, rank: seq<int>, way: seq<int>)
    requires Shape(c, m, t) && i <= |c|
    requires Located(c, m, t, i, -1) && Tree(c, m, t, order, rank, way)
    ensures |order| <= i
  {
    var held := seq(|order|, k requires 0 <= k < |order| => t.p[order[k]]);
    forall a, b | 0 <= a < b < |held| ensures held[a] != held[b] {
      assert rank[order[a]] == a && rank[order[b]] == b;
      assert t.q[t.p[order[a]]] == order[a] && t.q[t.p[order[b]]] == order[b];
    }
    forall a | 0 <= a < |held| ensures 1 <= held[a] <= i {
      assert rank[order[a]] == a;
    }
    Pigeonhole(held, i);
  }

  /** The effect of one pass over the columns: unscanned minima and entry columns improve. */
  ghost predicate Scanned(c: Matrix, m: nat, t: Tables, rank: seq<int>, column: int,
                          way: seq<int>, way': seq<int>, minv: seq<int>, minv': seq<int>)
    requires Shape(c, m, t)
  {
    && |rank| == m + 1 && |way| == m + 1 && |way'| == m + 1 && |minv| == m + 1 && |minv'| == m + 1
    && 0 <= column <= m && 1 <= t.p[column] <= |c|
    && (forall j :: 0 <= j <= m && (j == 0 || rank[j] >= 0) ==> way'[j] == way[j])
    && (forall j :: 1 <= j <= m && rank[j] < 0 ==> Relaxed(c, m, t, column, way, way', minv, minv', j))
  }

  ghost predicate Relaxed(c: Matrix, m: nat, t: Tables, column: int,
                          way: seq<int>, way': seq<int>, minv: seq<int>, minv': seq<int>, j: int)
    requires Shape(c, m, t) && 0 <= column <= m && 1 <= t.p[column] <= |c| && 1 <= j <= m
    requires |way| == m + 1 && |way'| == m + 1 && |minv| == m + 1 && |minv'| == m + 1
  {
    var reduced := Reduced(c, m, t, t.p[column], j);
    if reduced < minv[j] then minv'[j] == reduced && way'[j] == column
    else minv'[j] == minv[j] && way'[j] == way[j]
  }

  ghost predicate Least(m: nat, rank: seq<int>, minv: seq<int>, delta: int, next: int)
    requires |rank| == m + 1 && |minv| == m + 1
  {
    && 1 <= next <= m && rank[next] < 0 && delta == minv[next]
    && forall j :: 1 <= j <= m && rank[j] < 0 ==> delta <= minv[j]
  }

  lemma ScanGrowsTree(c: Matrix, m: nat, t: Tables, i: nat, base: int, lo: int, hi: int, order: seq<int>, rank: seq<int>,
                      way: seq<int>, way': seq<int>, minv: seq<int>, minv': seq<int>, column: int)
    requires Searching(c, m, t, i, base, lo, hi, order, rank, way, minv, column)
    requires t.p[column] != 0
    requires Scanned(c, m, t, rank[column := |order|], column, way, way', minv, minv')
    ensures Tree(c, m, t, order + [column], rank[column := |order|], way')
  {
    var order', rank' := order + [column], rank[column := |order|];
    hide Feasible, Tight, Signs, Located, Frontier, Relaxed, Reduced;
    forall k | 0 <= k < |order'| ensures 0 <= order'[k] <= m && rank'[order'[k]] == k {
      if k < |order| {
        assert rank[order[k]] == k;
      }
    }
    forall j | 1 <= j <= m && rank'[j] >= 0 ensures Entered(c, m, t, rank', way', j) {
      ScanKeepsEntered(c, m, t, i, base, lo, hi, order, rank, way, way', minv, minv', column, j);
    }
  }

  lemma ScanKeepsEntered(c: Matrix, m: nat, t: Tables, i: nat, base: int, lo: int, hi: int, order: seq<int>, rank: seq<int>,
                         way: seq<int>, way': seq<int>, minv: seq<int>, minv': seq<int>, column: int, j: int)
    requires Searching(c, m, t, i, base, lo, hi, order, rank, way, minv, column)
    requires t.p[column] != 0
    requires Scanned(c, m, t, rank[column := |order|], column, way, way', minv, minv')
    requires 1 <= j <= m && rank[column := |order|][j] >= 0
    ensures Entered(c, m, t, rank[column := |order|], way', j)
  {
    if j != column {
      assert Entered(c, m, t, rank, way, j);
    }
  }

  /** In range, a row's first reduced costs are below the `minimum` sentinel. */
  lemma BelowSentinel(c: Matrix, m: nat, t: Tables, i: nat, base: int, lo: int, hi: int, order: seq<int>, rank: seq<int>,
                      way: seq<int>, minv: seq<int>, column: int, j: int)
    requires Searching(c, m, t, i, base, lo, hi, order, rank, way, minv, column) && InRange(c, m, lo, hi)
    requires order == [] && 1 <= j <= m
    ensures lo <= Reduced(c, m, t, i, j) < I128_MAX
  {
    assert lo <= c[i - 1][j - 1] <= hi;
  }

  /** One unscanned column after the pass: its entry column, its minimum and its bound. */
  lemma RelaxedColumn(c: Matrix, m: nat, t: Tables, i: nat, base: int, lo: int, hi: int, order: seq<int>, rank: seq<int>,
                      way: seq<int>, way': seq<int>, minv: seq<int>, minv': seq<int>, column: int, j: int)
    requires Searching(c, m, t, i, base, lo, hi, order, rank, way, minv, column) && InRange(c, m, lo, hi)
    requires 1 <= t.p[column] <= |c| && 1 <= j <= m && rank[j] < 0 && j != column
    requires |way'| == m + 1 && |minv'| == m + 1
    requires Relaxed(c, m, t, column, way, way', minv, minv', j)
    ensures 0 <= way'[j] <= m && (way'[j] == column || rank[way'[j]] >= 0)
    ensures 1 <= t.p[way'[j]] <= |c| && minv'[j] == Reduced(c, m, t, t.p[way'[j]], j)
    ensures minv'[j] <= Reduced(c, m, t, t.p[column], j)
    ensures if order == [] then lo <= minv'[j] else 0 <= minv'[j] <= minv[j]
  {
    if order == [] {
      BelowSentinel(c, m, t, i, base, lo, hi, order, rank, way, minv, column, j);
    } else {
      assert minv[j] >= 0;
      assert Reduced(c, m, t, t.p[column], j) >= 0;
    }
  }

  lemma ScanKeepsEntries(c: Matrix, m: nat, t: Tables, i: nat, base: int, lo: int, hi: int, order: seq<int>,
                         rank: seq<int>, way: seq<int>, way': seq<int>, minv: seq<int>, minv': seq<int>, column: int)
    requires Searching(c, m, t, i, base, lo, hi, order, rank, way, minv, column) && InRange(c, m, lo, hi)
    requires 1 <= t.p[column] <= |c|
    requires Scanned(c, m, t, rank[column := |order|], column, way, way', minv, minv')
    ensures forall j :: 1 <= j <= m && rank[j] < 0 && j != column ==>
              && 0 <= way'[j] <= m && (way'[j] == column || rank[way'[j]] >= 0)
              && 1 <= t.p[way'[j]] <= |c| && minv'[j] == Reduced(c, m, t, t.p[way'[j]], j)
              && minv'[j] <= Reduced(c, m, t, t.p[column], j)
              && if order == [] then lo <= minv'[j] else 0 <= minv'[j] <= minv[j]
  {
    forall j | 1 <= j <= m && rank[j] < 0 && j != column
      ensures 0 <= way'[j] <= m && (way'[j] == column || rank[way'[j]] >= 0)
      ensures 1 <= t.p[way'[j]] <= |c| && minv'[j] == Reduced(c, m, t, t.p[way'[j]], j)
      ensures minv'[j] <= Reduced(c, m, t, t.p[column], j)
      ensures if order == [] then lo <= minv'[j] else 0 <= minv'[j] <= minv[j]
    {
      assert Relaxed(c, m, t, column, way, way', minv, minv', j);
      RelaxedColumn(c, m, t, i, base, lo, hi, order, rank, way, way', minv, minv', column, j);
    }
  }

  lemma ScanKeepsFrontier(c: Matrix, m: nat, t: Tables, order: seq<int>, rank: seq<int>,
                          way: seq<int>, way': seq<int>, minv: seq<int>, minv': seq<int>, column: int)
    requires Shape(c, m, t) && 0 <= column <= m && 1 <= t.p[column] <= |c|
    requires Tree(c, m, t, order, rank, way) && rank[column] < 0
    requires |minv| == m + 1 && |minv'| == m + 1 && |way'| == m + 1
    requires order != [] ==> Frontier(c, m, t, rank, way, minv)
    requires forall j :: 1 <= j <= m && rank[j] < 0 && j != column ==>
              && 0 <= way'[j] <= m && (way'[j] == column || rank[way'[j]] >= 0)
              && 1 <= t.p[way'[j]] <= |c| && minv'[j] == Reduced(c, m, t, t.p[way'[j]], j)
              && minv'[j] <= Reduced(c, m, t, t.p[column], j)
              && (order != [] ==> minv'[j] <= minv[j])
    ensures Frontier(c, m, t, rank[column := |order|], way', minv')
  {
    var rank' := rank[column := |order|];
    forall j, k | 1 <= j <= m && rank'[j] < 0 && 0 <= k <= m && rank'[k] >= 0 && 1 <= t.p[k] <= |c|
      ensures minv'[j] <= Reduced(c, m, t, t.p[k], j)
    {
      assert rank[j] < 0 && j != column;
      if k != column {
        assert rank[k] >= 0;
        assert minv[j] <= Reduced(c, m, t, t.p[k], j);
      }
    }
  }

  /** The effect of adding delta to the rows of the scanned columns and taking it off those columns. */
  ghost predicate Shifted(c: Matrix, m: nat, t: Tables, t': Tables, i: nat, rank: seq<int>, delta: int)
    requires Shape(c, m, t) && Shape(c, m, t')
  {
    && i <= |c| && |rank| == m + 1
    && t'.p == t.p && t'.q == t.q
    && (forall r :: 1 <= r <= i ==> 0 <= t.q[r] <= m)
    && (forall r :: 1 <= r <= i ==> t'.u[r] == t.u[r] + if rank[t.q[r]] >= 0 then delta else 0)
    && (forall r :: 0 <= r <= |c| && (r == 0 || i < r) ==> t'.u[r] == t.u[r])
    && (forall j :: 0 <= j <= m ==> t'.v[j] == t.v[j] - if rank[j] >= 0 then delta else 0)
    && Sum(t'.u) + Sum(t'.v) == Sum(t.u) + Sum(t.v)
  }

  /** Reduced costs move only across the boundary of the tree. */
  lemma ReducedShift(c: Matrix, m: nat, t: Tables, t': Tables, i: nat, rank: seq<int>, delta: int, r: int, j: int)
    requires Shape(c, m, t) && Shape(c, m, t') && Shifted(c, m, t, t', i, rank, delta)
    requires 1 <= r <= i && 1 <= j <= m
    ensures Reduced(c, m, t', r, j) == Reduced(c, m, t, r, j)
              - (if rank[t.q[r]] >= 0 then delta else 0) + (if rank[j] >= 0 then delta else 0)
  {
  }

  /** A reduced cost stays non-negative: across the boundary because delta is below the frontier
      minima, elsewhere because it does not fall. */
  lemma ShiftKeepsCell(c: Matrix, m: nat, t: Tables, t': Tables, i: nat, rank: seq<int>, way: seq<int>,
                       minv: seq<int>, delta: int, r: int, j: int)
    requires Shape(c, m, t) && Shape(c, m, t') && i <= |c| && 1 <= r <= i && 1 <= j <= m
    requires Located(c, m, t, i, -1) && Frontier(c, m, t, rank, way, minv)
    requires Shifted(c, m, t, t', i, rank, delta)
    requires rank[t.q[r]] < 0 || rank[j] >= 0 ==> Reduced(c, m, t, r, j) >= 0
    requires rank[j] < 0 ==> delta <= minv[j]
    requires rank[j] >= 0 ==> delta >= 0
    ensures Reduced(c, m, t', r, j) >= 0
  {
    ReducedShift(c, m, t, t', i, rank, delta, r, j);
    if rank[j] < 0 && rank[t.q[r]] >= 0 {
      assert t.p[t.q[r]] == r;
      assert minv[j] <= Reduced(c, m, t, t.p[t.q[r]], j);
    }
  }

  lemma ShiftKeepsFeasible(c: Matrix, m: nat, t: Tables, t': Tables, i: nat, order: seq<int>, rank: seq<int>,
                           way: seq<int>, minv: seq<int>, delta: int)
    requires Shape(c, m, t) && Shape(c, m, t') && 1 <= i <= |c|
    requires Located(c, m, t, i, -1) && t.p[0] == i
    requires Feasible(c, m, t, if |order| == 1 then i - 1 else i)
    requires Tree(c, m, t, order, rank, way) && Frontier(c, m, t, rank, way, minv) && |order| > 0
    requires |order| == 1 || delta >= 0
    requires forall j :: 1 <= j <= m && rank[j] < 0 ==> delta <= minv[j]
    requires Shifted(c, m, t, t', i, rank, delta)
    ensures Feasible(c, m, t', i)
  {
    assert rank[order[0]] == 0 && t.q[t.p[0]] == 0;
    assert forall r :: 1 <= r <= i ==> 0 <= t.q[r] <= m;
    assert |order| == 1 ==> forall j :: 1 <= j <= m ==> rank[j] < 0;
    hide Shifted, Frontier, Located, Tree, Reduced, Rectangular;
    forall r, j | 1 <= r <= i && 1 <= j <= m ensures Reduced(c, m, t', r, j) >= 0 {
      if rank[t.q[r]] < 0 || rank[j] >= 0 {
        assert |order| == 1 ==> r != i;
        assert Reduced(c, m, t, r, j) >= 0;
      }
      hide Feasible;
      ShiftKeepsCell(c, m, t, t', i, rank, way, minv, delta, r, j);
    }
  }

  lemma ShiftKeepsTree(c: Matrix, m: nat, t: Tables, t': Tables, i: nat, order: seq<int>, rank: seq<int>,
                       way: seq<int>, delta: int)
    requires Shape(c, m, t) && Shape(c, m, t') && 1 <= i <= |c|
    requires Located(c, m, t, i, -1)
    requires Tree(c, m, t, order, rank, way)
    requires Shifted(c, m, t, t', i, rank, delta)
    ensures Tree(c, m, t', order, rank, way)
  {
    forall j | 1 <= j <= m && rank[j] >= 0 ensures Entered(c, m, t', rank, way, j) {
      assert Entered(c, m, t, rank, way, j);
      var r := t.p[way[j]];
      assert t.q[r] == way[j];
      ReducedShift(c, m, t, t', i, rank, delta, r, j);
    }
  }

  /** Unscanned minima follow the potentials down. */
  ghost predicate Lowered(m: nat, rank: seq<int>, minv: seq<int>, minv': seq<int>, delta: int) {
    && |rank| == m + 1 && |minv| == m + 1 && |minv'| == m + 1
    && forall j :: 0 <= j <= m && rank[j] < 0 ==> minv'[j] == minv[j] - delta
  }

  lemma ShiftKeepsFrontier(c: Matrix, m: nat, t: Tables, t': Tables, i: nat, order: seq<int>, rank: seq<int>,
                           way: seq<int>, minv: seq<int>, minv': seq<int>, delta: int)
    requires Shape(c, m, t) && Shape(c, m, t') && 1 <= i <= |c|
    requires Located(c, m, t, i, -1)
    requires Tree(c, m, t, order, rank, way)
    requires Frontier(c, m, t, rank, way, minv) && Lowered(m, rank, minv, minv', delta)
    requires Shifted(c, m, t, t', i, rank, delta)
    ensures Frontier(c, m, t', rank, way, minv')
  {
    forall j, k | 1 <= j <= m && rank[j] < 0 && 0 <= k <= m && rank[k] >= 0 && 1 <= t.p[k] <= |c|
      ensures Reduced(c, m, t', t.p[k], j) == Reduced(c, m, t, t.p[k], j) - delta
      ensures minv'[j] <= Reduced(c, m, t', t.p[k], j)
    {
      assert t.q[t.p[k]] == k;
      ReducedShift(c, m, t, t', i, rank, delta, t.p[k], j);
      assert minv[j] <= Reduced(c, m, t, t.p[k], j);
    }
  }

  lemma ShiftKeepsInserting(c: Matrix, m: nat, t: Tables, t': Tables, i: nat, base: int, lo: int, hi: int, order: seq<int>,
                            rank: seq<int>, way: seq<int>, delta: int)
    requires Inserting(c, m, t, i, base) && Shape(c, m, t')
    requires Tree(c, m, t, order, rank, way) && |order| > 0
    requires |order| == 1 || delta >= 0
    requires Shifted(c, m, t, t', i, rank, delta)
    ensures Inserting(c, m, t', i, base)
    ensures t'.u[i] == t.u[i] + delta
  {
    assert rank[order[0]] == 0 && t.q[t.p[0]] == 0;
    forall j | 1 <= j <= m && 1 <= t.p[j] <= |c| ensures Reduced(c, m, t', t.p[j], j) == 0 {
      assert t.q[t.p[j]] == j;
      ReducedShift(c, m, t, t', i, rank, delta, t.p[j], j);
    }
    forall j | 1 <= j <= m ensures t'.v[j] <= 0 && (t'.p[j] == 0 ==> t'.v[j] == 0) {
      if |order| == 1 {
        assert order[0] == 0;
      }
    }
  }

  /** The state between the scan and the shift: the nearest column is delta away. */
  ghost predicate Measured(c: Matrix, m: nat, t: Tables, i: nat, base: int, lo: int,
                           order: seq<int>, rank: seq<int>, way: seq<int>, minv: seq<int>, delta: int) {
    && Inserting(c, m, t, i, base)
    && |order| > 0
    && Tree(c, m, t, order, rank, way)
    && Frontier(c, m, t, rank, way, minv)
    && Feasible(c, m, t, if |order| == 1 then i - 1 else i)
    && (forall j :: 1 <= j <= m && rank[j] < 0 ==> delta <= minv[j])
    && (|order| == 1 || delta >= 0)
    && lo <= t.u[i] + delta
  }

  lemma ScanMeasures(c: Matrix, m: nat, t: Tables, i: nat, base: int, lo: int, hi: int, order: seq<int>, rank: seq<int>,
                     way: seq<int>, way': seq<int>, minv: seq<int>, minv': seq<int>, column: int, delta: int, next: int)
    requires Searching(c, m, t, i, base, lo, hi, order, rank, way, minv, column) && InRange(c, m, lo, hi)
    requires t.p[column] != 0
    requires Scanned(c, m, t, rank[column := |order|], column, way, way', minv, minv')
    requires Least(m, rank[column := |order|], minv', delta, next)
    ensures Measured(c, m, t, i, base, lo, order + [column], rank[column := |order|], way', minv', delta)
  {
    hide Relaxed, Entered, Tight, Signs, Located, Sum, Tree, Frontier, Feasible, Reduced, InRange, Rectangular;
    SearchingFacts(c, m, t, i, base, lo, hi, order, rank, way, minv, column);
    ScanGrowsTree(c, m, t, i, base, lo, hi, order, rank, way, way', minv, minv', column);
    ScanKeepsEntries(c, m, t, i, base, lo, hi, order, rank, way, way', minv, minv', column);
    ScanKeepsFrontier(c, m, t, order, rank, way, way', minv, minv', column);
  }

  /** The shift restores the loop invariant with the nearest column next in line. */
  lemma ShiftAdvances(c: Matrix, m: nat, t: Tables, t': Tables, i: nat, base: int, lo: int, hi: int, order: seq<int>,
                      rank: seq<int>, way: seq<int>, minv: seq<int>, minv': seq<int>, delta: int, next: int)
    requires Measured(c, m, t, i, base, lo, order, rank, way, minv, delta)
    requires Least(m, rank, minv, delta, next)
    requires Shape(c, m, t') && Shifted(c, m, t, t', i, rank, delta)
    requires Lowered(m, rank, minv, minv', delta)
    ensures Searching(c, m, t', i, base, lo, hi, order, rank, way, minv', next)
  {
    ShiftKeepsFeasible(c, m, t, t', i, order, rank, way, minv, delta);
    ShiftKeepsTree(c, m, t, t', i, order, rank, way, delta);
    ShiftKeepsFrontier(c, m, t, t', i, order, rank, way, minv, minv', delta);
    ShiftKeepsInserting(c, m, t, t', i, base, lo, hi, order, rank, way, delta);
  }

  // ----- The array code -----

  /** One pass over the columns from `column`'s row: relax every unscanned column and find
      the nearest. `cells` counts the cost cells read. */
  method Scan(c: Matrix, m: nat, rowPotential: array<int>, columnPotential: array<int>, columnRow: array<int>,
              used: array<bool>, previous: array<int>, minimum: array<int>, column: int,
              ghost t: Tables, ghost rank: seq<int>, ghost free: int)
    returns (delta: int, next: int, ghost cells: nat)
    requires Shape(c, m, t) && t.u == rowPotential[..] && t.v == columnPotential[..] && t.p == columnRow[..]
    requires 0 <= column <= m && 1 <= t.p[column] <= |c|
    requires used.Length == m + 1 && |rank| == m + 1
    requires forall j :: 0 <= j <= m ==> used[j] == (rank[j] >= 0)
    requires previous.Length == m + 1 && minimum.Length == m + 1 && previous != minimum
    requires {previous, minimum} !! {rowPotential, columnPotential, columnRow}
    requires 1 <= free <= m && rank[free] < 0
    requires minimum[free] < I128_MAX || Reduced(c, m, t, t.p[column], free) < I128_MAX
    modifies previous, minimum
    ensures Scanned(c, m, t, rank, column, old(previous[..]), previous[..], old(minimum[..]), minimum[..])
    ensures Least(m, rank, minimum[..], delta, next)
    ensures cells <= m
  {
    var currentRow := columnRow[column];
    delta, next, cells := I128_MAX, 0, 0;
    ghost var way, minv := previous[..], minimum[..];
    for j := 1 to m + 1
      invariant cells <= j - 1
      invariant forall k :: j <= k <= m ==> minimum[k] == minv[k] && previous[k] == way[k]
      invariant forall k :: 0 <= k <= m && (k == 0 || rank[k] >= 0) ==> previous[k] == way[k]
      invariant forall k :: 1 <= k < j && rank[k] < 0 ==>
                  if Reduced(c, m, t, t.p[column], k) < minv[k]
                  then minimum[k] == Reduced(c, m, t, t.p[column], k) && previous[k] == column
                  else minimum[k] == minv[k] && previous[k] == way[k]
      invariant if next == 0 then delta == I128_MAX else 1 <= next < j && rank[next] < 0 && delta == minimum[next]
      invariant forall k :: 1 <= k < j && rank[k] < 0 ==> delta <= minimum[k]
      invariant delta <= I128_MAX && (free < j ==> next != 0)
    {
      if used[j] {
        continue;
      }
      var reduced := c[currentRow - 1][j - 1] - rowPotential[currentRow] - columnPotential[j];
      assert reduced == Reduced(c, m, t, t.p[column], j);
      cells := cells + 1;
      if reduced < minimum[j] {
        minimum[j] := reduced;
        previous[j] := column;
      }
      if minimum[j] < delta {
        delta := minimum[j];
        next := j;
      }
    }
    forall j | 1 <= j <= m && rank[j] < 0
      ensures Relaxed(c, m, t, column, way, previous[..], minv, minimum[..], j)
    {
      assert previous[..][j] == previous[j] && minimum[..][j] == minimum[j];
    }
  }

  /** The two writes made for one scanned column; what one gains the other gives up. */
  method ShiftPair(rowPotential: array<int>, columnPotential: array<int>, row: int, column: int, delta: int)
    requires rowPotential != columnPotential
    requires 0 <= row < rowPotential.Length && 0 <= column < columnPotential.Length
    modifies rowPotential, columnPotential
    ensures rowPotential[row] == old(rowPotential[row]) + delta
    ensures columnPotential[column] == old(columnPotential[column]) - delta
    ensures forall r :: 0 <= r < rowPotential.Length && r != row ==> rowPotential[r] == old(rowPotential[r])
    ensures forall j :: 0 <= j < columnPotential.Length && j != column ==>
              columnPotential[j] == old(columnPotential[j])
    ensures Sum(rowPotential[..]) + Sum(columnPotential[..]) == old(Sum(rowPotential[..]) + Sum(columnPotential[..]))
  {
    ghost var u, v := rowPotential[..], columnPotential[..];
    rowPotential[row] := rowPotential[row] + delta;
    columnPotential[column] := columnPotential[column] - delta;
    assert rowPotential[..] == u[row := u[row] + delta];
    assert columnPotential[..] == v[column := v[column] - delta];
    SumUpdate(u, row, u[row] + delta);
    SumUpdate(v, column, v[column] - delta);
  }

  /** Raise the rows of the scanned columns and lower those columns by delta; lower the minima
      of the others. */
  method Shift(m: nat, rowPotential: array<int>, columnPotential: array<int>, columnRow: array<int>,
               used: array<bool>, minimum: array<int>, delta: int, ghost q: seq<int>, ghost i: nat)
    requires rowPotential.Length == |q| > i
    requires columnPotential.Length == columnRow.Length == used.Length == minimum.Length == m + 1
    requires forall j :: 0 <= j <= m && used[j] ==> 1 <= columnRow[j] <= i && q[columnRow[j]] == j
    requires forall r :: 1 <= r <= i ==> 0 <= q[r] <= m && columnRow[q[r]] == r
    requires rowPotential != columnPotential && rowPotential != columnRow && columnPotential != columnRow
    requires minimum != rowPotential && minimum != columnPotential && minimum != columnRow
    modifies rowPotential, columnPotential, minimum
    ensures forall r :: 1 <= r <= i ==>
              rowPotential[r] == old(rowPotential[r]) + if used[q[r]] then delta else 0
    ensures forall r :: 0 <= r < |q| && (r == 0 || i < r) ==> rowPotential[r] == old(rowPotential[r])
    ensures forall j :: 0 <= j <= m ==>
              columnPotential[j] == old(columnPotential[j]) - if used[j] then delta else 0
    ensures forall j :: 0 <= j <= m && !used[j] ==> minimum[j] == old(minimum[j]) - delta
    ensures Sum(rowPotential[..]) + Sum(columnPotential[..]) == old(Sum(rowPotential[..]) + Sum(columnPotential[..]))
  {
    hide Sum;
    for j := 0 to m + 1
      invariant forall r :: 1 <= r <= i ==>
                  rowPotential[r] == old(rowPotential[r]) + if q[r] < j && used[q[r]] then delta else 0
      invariant forall r :: 0 <= r < |q| && (r == 0 || i < r) ==> rowPotential[r] == old(rowPotential[r])
      invariant forall k :: 0 <= k < j ==>
                  columnPotential[k] == old(columnPotential[k]) - if used[k] then delta else 0
      invariant forall k :: j <= k <= m ==> columnPotential[k] == old(columnPotential[k])
      invariant forall k :: 0 <= k < j && !used[k] ==> minimum[k] == old(minimum[k]) - delta
      invariant forall k :: j <= k <= m ==> minimum[k] == old(minimum[k])
      invariant Sum(rowPotential[..]) + Sum(columnPotential[..]) == old(Sum(rowPotential[..]) + Sum(columnPotential[..]))
    {
      if used[j] {
        ShiftPair(rowPotential, columnPotential, columnRow[j], j, delta);
      } else {
        minimum[j] := minimum[j] - delta;
      }
    }
  }

  /** A free column is always within reach of the comparison with the sentinel. */
  lemma FreeColumnInReach(c: Matrix, m: nat, t: Tables, i: nat, base: int, lo: int, hi: int, order: seq<int>, rank: seq<int>,
                          way: seq<int>, minv: seq<int>, column: int)
    returns (free: int)
    requires Searching(c, m, t, i, base, lo, hi, order, rank, way, minv, column) && InRange(c, m, lo, hi)
    requires 1 <= t.p[column] <= |c| <= m
    ensures 1 <= free <= m && free != column && rank[free] < 0
    ensures minv[free] < I128_MAX || Reduced(c, m, t, t.p[column], free) < I128_MAX
  {
    free := FreeColumn(c, m, t, i);
    if order == [] {
      BelowSentinel(c, m, t, i, base, lo, hi, order, rank, way, minv, column, free);
    } else {
      assert rank[order[0]] == 0;
      assert minv[free] <= Reduced(c, m, t, t.p[0], free);
      assert lo <= c[i - 1][free - 1] <= hi;
    }
  }

  /** What the array code needs of a search state. */
  lemma SearchingFacts(c: Matrix, m: nat, t: Tables, i: nat, base: int, lo: int, hi: int, order: seq<int>, rank: seq<int>,
                       way: seq<int>, minv: seq<int>, column: int)
    requires Searching(c, m, t, i, base, lo, hi, order, rank, way, minv, column)
    requires t.p[column] != 0
    ensures Shape(c, m, t) && i <= |c| && 0 <= column <= m && 1 <= t.p[column] <= |c|
    ensures |order| <= i && |rank| == |way| == |minv| == m + 1
    ensures forall j :: 0 <= j <= m && rank[column := |order|][j] >= 0 ==> 1 <= t.p[j] <= i && t.q[t.p[j]] == j
    ensures forall r :: 1 <= r <= i ==> 0 <= t.q[r] <= m && t.p[t.q[r]] == r
  {
    TreeSize(c, m, t, i, order, rank, way);
  }

  /** One iteration of the search loop on the arrays. */
  method Advance(c: Matrix, m: nat, rowPotential: array<int>, columnPotential: array<int>, columnRow: array<int>,
                 previous: array<int>, minimum: array<int>, used: array<bool>, column: int,
                 ghost i: nat, ghost q: seq<int>, ghost base: int, ghost lo: int, ghost hi: int,
                 ghost order: seq<int>, ghost rank: seq<int>, ghost reach: int)
    returns (next: int, ghost cells: nat, ghost ledger: Ledger)
    requires columnRow.Length == used.Length == m + 1 && 0 <= column <= m && columnRow[column] != 0
    requires rowPotential != columnPotential && rowPotential != columnRow && columnPotential != columnRow
    requires previous != minimum && {previous, minimum} !! {rowPotential, columnPotential, columnRow}
    requires |c| <= m && Rectangular(c, m) && InRange(c, m, lo, hi)
    requires Searching(c, m, Tables(rowPotential[..], columnPotential[..], columnRow[..], q), i, base, lo, hi,
                       order, rank, previous[..], minimum[..], column)
    requires |rank| == m + 1 && forall j :: 0 <= j <= m ==> used[j] == (rank[j] >= 0)
    requires -reach <= base <= reach
    modifies rowPotential, columnPotential, previous, minimum, used
    ensures Searching(c, m, Tables(rowPotential[..], columnPotential[..], columnRow[..], q), i, base, lo, hi,
                      order + [column], rank[column := |order|], previous[..], minimum[..], next)
    ensures forall j :: 0 <= j <= m ==> used[j] == (rank[column := |order|][j] >= 0)
    ensures cells <= m
    ensures columnPotential[0] in ledger.roots && Within(ledger, 2 * (hi - lo), reach + hi - lo, 0)
  {
    hide *;
    used[column] := true;
    ghost var t := Tables(rowPotential[..], columnPotential[..], columnRow[..], q);
    ghost var rank', way, minv := rank[column := |order|], previous[..], minimum[..];
    SearchingFacts(c, m, t, i, base, lo, hi, order, rank, way, minv, column);
    ghost var free := FreeColumnInReach(c, m, t, i, base, lo, hi, order, rank, way, minv, column);
    var delta;
    delta, next, cells := Scan(c, m, rowPotential, columnPotential, columnRow, used, previous, minimum, column, t, rank', free);
    ghost var minv' := minimum[..];
    ScanMeasures(c, m, t, i, base, lo, hi, order, rank, way, previous[..], minv, minv', column, delta, next);
    Shift(m, rowPotential, columnPotential, columnRow, used, minimum, delta, q, i);
    ghost var t' := Tables(rowPotential[..], columnPotential[..], columnRow[..], q);
    ShiftedTables(c, m, t, t', i, rank', delta);
    LoweredMinima(m, rank', minv', minimum[..], delta);
    ShiftAdvances(c, m, t, t', i, base, lo, hi, order + [column], rank', previous[..], minv', minimum[..], delta, next);
    TurnRoot(c, m, t, t', rank', columnRow[column], minv', minimum[..], delta);
    ledger := TurnLedger(c, m, t, t', rank', columnRow[column], minv', minimum[..], delta);
    TurnWithin(c, m, t, t', i, base, lo, hi, order, rank, way, previous[..], minv, minv', minimum[..], column, delta, next, reach);
  }

  /** Every number one turn of the search loop computes: in the scan of `row` before the shift from t to
      t', and in the shift itself. `minv` holds the minima between the two, `minv'` those after. */
  ghost function TurnLedger(c: Matrix, m: nat, t: Tables, t': Tables, rank: seq<int>, row: int, minv: seq<int>, minv': seq<int>, delta: int): Ledger
    requires Shape(c, m, t) && Shape(c, m, t') && |rank| == |minv| == |minv'| == m + 1 && 1 <= row <= |c|
  {
    var differences := set j | 1 <= j <= m && rank[j] < 0 :: c[row - 1][j - 1] - t.u[row];
    var reduced := set j | 1 <= j <= m && rank[j] < 0 :: Reduced(c, m, t, row, j);
    var minima := (set j | 1 <= j <= m && rank[j] < 0 :: minv[j]) + (set j | 1 <= j <= m && rank[j] < 0 :: minv'[j]);
    var potentials := (set r | 0 <= r <= |c| :: t'.u[r]) + (set j | 1 <= j <= m :: t'.v[j]);
    Ledger(differences + reduced + minima + potentials + {delta}, {t'.v[0]}, {})
  }

  lemma ShiftedTables(c: Matrix, m: nat, t: Tables, t': Tables, i: nat, rank: seq<int>, delta: int)
    requires Shape(c, m, t) && i <= |c| && |rank| == m + 1 && t'.p == t.p && t'.q == t.q
    requires |t'.u| == |t.u| && |t'.v| == |t.v|
    requires forall r :: 1 <= r <= i ==> 0 <= t.q[r] <= m
    requires forall r :: 1 <= r <= i ==> t'.u[r] == t.u[r] + if rank[t.q[r]] >= 0 then delta else 0
    requires forall r :: 0 <= r <= |c| && (r == 0 || i < r) ==> t'.u[r] == t.u[r]
    requires forall j :: 0 <= j <= m ==> t'.v[j] == t.v[j] - if rank[j] >= 0 then delta else 0
    requires Sum(t'.u) + Sum(t'.v) == Sum(t.u) + Sum(t.v)
    ensures Shape(c, m, t') && Shifted(c, m, t, t', i, rank, delta)
  {
  }

  lemma LoweredMinima(m: nat, rank: seq<int>, minv: seq<int>, minv': seq<int>, delta: int)
    requires |rank| == m + 1 && |minv| == m + 1 && |minv'| == m + 1
    requires forall j :: 0 <= j <= m && rank[j] < 0 ==> minv'[j] == minv[j] - delta
    ensures Lowered(m, rank, minv, minv', delta)
  {
  }

  lemma TurnRoot(c: Matrix, m: nat, t: Tables, t': Tables, rank: seq<int>, row: int, minv: seq<int>, minv': seq<int>, delta: int)
    requires Shape(c, m, t) && Shape(c, m, t') && |rank| == |minv| == |minv'| == m + 1 && 1 <= row <= |c|
    ensures TurnLedger(c, m, t, t', rank, row, minv, minv', delta).roots == {t'.v[0]}
  {
  }

  /** The loop invariant holds when the search for row i starts. */
  lemma SearchStarts(c: Matrix, m: nat, t: Tables, i: nat, lo: int, hi: int, rank: seq<int>, way: seq<int>, minv: seq<int>)
    requires |t.v| == m + 1 && Inserting(c, m, t, i, t.v[0]) && |way| == m + 1
    requires Feasible(c, m, t, i - 1)
    requires forall j :: 1 <= j <= m ==> t.v[j] >= lo - hi
    requires |rank| == m + 1 && forall j :: 0 <= j <= m ==> rank[j] == -1
    requires |minv| == m + 1 && forall j :: 0 <= j <= m ==> minv[j] == I128_MAX
    ensures Rectangular(c, m) && |t.p| == m + 1 && t.p[0] != 0
    ensures Searching(c, m, t, i, t.v[0], lo, hi, [], rank, way, minv, 0)
  {
  }

  /** The shortest-path search for row i: scan and shift until the next column is free. */
  method Search(c: Matrix, m: nat, rowPotential: array<int>, columnPotential: array<int>, columnRow: array<int>,
                previous: array<int>, ghost i: nat, ghost q: seq<int>, ghost lo: int, ghost hi: int, ghost reach: int)
    returns (column: int, ghost order: seq<int>, ghost rank: seq<int>, ghost minv: seq<int>, ghost cells: nat, ghost ledger: Ledger)
    requires |c| <= m && previous.Length == columnRow.Length == columnPotential.Length == m + 1
    requires rowPotential != columnPotential && rowPotential != columnRow && columnPotential != columnRow
    requires previous !in {rowPotential, columnPotential, columnRow}
    requires Inserting(c, m, Tables(rowPotential[..], columnPotential[..], columnRow[..], q), i, columnPotential[0])
    requires Feasible(c, m, Tables(rowPotential[..], columnPotential[..], columnRow[..], q), i - 1)
    requires forall j :: 1 <= j <= m ==> columnPotential[j] >= lo - hi
    requires InRange(c, m, lo, hi) && -reach <= columnPotential[0] <= reach
    modifies rowPotential, columnPotential, previous
    ensures 1 <= |order| <= i && 0 <= column <= m && columnRow[column] == 0
    ensures Searching(c, m, Tables(rowPotential[..], columnPotential[..], columnRow[..], q), i, old(columnPotential[0]),
                      lo, hi, order, rank, previous[..], minv, column)
    ensures cells <= Times(|order|, m)
    ensures columnPotential[0] in ledger.roots && Within(ledger, 2 * (hi - lo), reach + hi - lo, 0)
  {
    hide *;
    ghost var base := columnPotential[0];
    column := 0;
    var minimum := new int[m + 1](_ => I128_MAX);
    var used := new bool[m + 1](_ => false);
    order, rank, cells, ledger := [], seq(m + 1, _ => -1), 0, Blank();
    BlankWithin(2 * (hi - lo), reach + hi - lo, 0);
    ghost var t := Tables(rowPotential[..], columnPotential[..], columnRow[..], q);
    SearchStarts(c, m, t, i, lo, hi, rank, previous[..], minimum[..]);
    TimesNext(0, m);
    while true
      invariant 0 <= column <= m && columnRow[column] != 0
      invariant Searching(c, m, Tables(rowPotential[..], columnPotential[..], columnRow[..], q), i, base, lo, hi,
                          order, rank, previous[..], minimum[..], column)
      invariant |rank| == m + 1 && forall j :: 0 <= j <= m ==> used[j] == (rank[j] >= 0)
      invariant cells <= Times(|order|, m)
      invariant Within(ledger, 2 * (hi - lo), reach + hi - lo, 0)
      invariant order != [] ==> columnPotential[0] in ledger.roots
      decreases i - |order|
    {
      ghost var t := Tables(rowPotential[..], columnPotential[..], columnRow[..], q);
      SearchingFacts(c, m, t, i, base, lo, hi, order, rank, previous[..], minimum[..], column);
      var next;
      ghost var seen, more;
      next, seen, more := Advance(c, m, rowPotential, columnPotential, columnRow, previous, minimum, used, column,
                                  i, q, base, lo, hi, order, rank, reach);
      TimesNext(|order|, m);
      JoinedWithin(ledger, more, 2 * (hi - lo), reach + hi - lo, 0);
      JoinedRoots(ledger, more);
      cells, ledger := cells + seen, Joined(ledger, more);
      order, rank := order + [column], rank[column := |order|];
      t := Tables(rowPotential[..], columnPotential[..], columnRow[..], q);
      TreeBounds(c, m, t, i, base, lo, hi, order, rank, previous[..], minimum[..], next);
      column := next;
      if columnRow[column] == 0 {
        break;
      }
    }
    minv := minimum[..];
  }

  lemma TreeBounds(c: Matrix, m: nat, t: Tables, i: nat, base: int, lo: int, hi: int, order: seq<int>, rank: seq<int>,
                   way: seq<int>, minv: seq<int>, column: int)
    requires Searching(c, m, t, i, base, lo, hi, order, rank, way, minv, column)
    ensures |order| <= i && 0 <= column <= m
  {
    TreeSize(c, m, t, i, order, rank, way);
  }

  /** No value of the search loop leaves the range either: at its head every potential is as bounded
      as between rows, and every minimum lies within twice the spread of the costs. */
  lemma SearchBounds(c: Matrix, m: nat, t: Tables, i: nat, base: int, lo: int, hi: int, order: seq<int>, rank: seq<int>,
                     way: seq<int>, minv: seq<int>, column: int)
    requires Searching(c, m, t, i, base, lo, hi, order, rank, way, minv, column) && InRange(c, m, lo, hi) && |c| <= m
    ensures forall r :: 1 <= r <= i ==> lo <= t.u[r] <= hi
    ensures forall j :: 1 <= j <= m ==> lo - hi <= t.v[j] <= 0
    ensures t.v[0] == base - t.u[i]
    ensures order != [] ==> forall j :: 1 <= j <= m && rank[j] < 0 ==> 0 <= minv[j] <= 2 * (hi - lo)
  {
    var z := FreeColumn(c, m, t, i);
    hide Sum, Tree;
    forall r | 1 <= r <= i ensures lo <= t.u[r] <= hi {
      if r < i || order != [] {
        assert Reduced(c, m, t, r, z) >= 0;
      }
      if t.q[r] != 0 {
        assert t.p[t.q[r]] == r;
        assert Reduced(c, m, t, r, t.q[r]) == 0;
      }
    }
    forall j | 1 <= j <= m ensures lo - hi <= t.v[j] <= 0 {
      if t.p[j] != 0 {
        assert Reduced(c, m, t, t.p[j], j) == 0;
      }
    }
    if order != [] {
      forall j | 1 <= j <= m && rank[j] < 0 ensures 0 <= minv[j] <= 2 * (hi - lo) {
        assert 1 <= t.p[way[j]] <= i;
        assert Reduced(c, m, t, t.p[way[j]], j) >= 0;
      }
    }
  }

  /** Reduced costs stay within twice the spread while the potentials are as bounded as between rows. */
  lemma ReducedWithin(c: Matrix, m: nat, t: Tables, i: nat, lo: int, hi: int, r: int, j: int)
    requires Shape(c, m, t) && InRange(c, m, lo, hi) && 1 <= r <= i <= |c| && 1 <= j <= m
    requires lo <= t.u[r] <= hi && lo - hi <= t.v[j] <= 0
    ensures lo - hi <= c[r - 1][j - 1] - t.u[r] <= hi - lo
    ensures lo - hi <= Reduced(c, m, t, r, j) <= 2 * (hi - lo)
  {
    assert lo <= c[r - 1][j - 1] <= hi;
  }

  /** The numbers of the scan at column j: the difference, the reduced cost and the minimum. */
  ghost predicate CellWithin(c: Matrix, m: nat, t: Tables, row: int, minv: seq<int>, spread: int, j: int) {
    && Shape(c, m, t) && 1 <= row <= |c| && 1 <= j <= m && |minv| == m + 1
    && -spread <= c[row - 1][j - 1] - t.u[row] <= spread
    && -spread <= Reduced(c, m, t, row, j) <= 2 * spread
    && -spread <= minv[j] <= 2 * spread
  }

  /** The numbers of the shift: potentials and minima. */
  ghost predicate TablesWithin(c: Matrix, m: nat, t: Tables, rank: seq<int>, minv: seq<int>, spread: int) {
    && Shape(c, m, t) && |rank| == |minv| == m + 1
    && (forall r :: 0 <= r <= |c| ==> -spread <= t.u[r] <= spread)
    && (forall j :: 1 <= j <= m ==> -spread <= t.v[j] <= 0)
    && (forall j :: 1 <= j <= m && rank[j] < 0 ==> 0 <= minv[j] <= 2 * spread)
  }

  lemma ScanWithin(c: Matrix, m: nat, t: Tables, i: nat, base: int, lo: int, hi: int, order: seq<int>, rank: seq<int>,
                   way: seq<int>, way': seq<int>, minv: seq<int>, minv': seq<int>, column: int, delta: int, j: int)
    requires Searching(c, m, t, i, base, lo, hi, order, rank, way, minv, column) && InRange(c, m, lo, hi) && |c| <= m
    requires 0 <= column <= m && |rank| == m + 1 && 1 <= t.p[column] <= i
    requires Measured(c, m, t, i, base, lo, order + [column], rank[column := |order|], way', minv', delta)
    requires 1 <= j <= m && rank[column := |order|][j] < 0
    ensures CellWithin(c, m, t, t.p[column], minv', hi - lo, j)
  {
    SearchBounds(c, m, t, i, base, lo, hi, order, rank, way, minv, column);
    hide Feasible, Tight, Signs, Tree, Reduced, InRange, Searching;
    ReducedWithin(c, m, t, i, lo, hi, t.p[column], j);
    ReducedWithin(c, m, t, i, lo, hi, t.p[way'[j]], j);
  }

  /** Every number of one turn of the search loop is in range. */
  lemma TurnWithin(c: Matrix, m: nat, t: Tables, t': Tables, i: nat, base: int, lo: int, hi: int, order: seq<int>, rank: seq<int>,
                   way: seq<int>, way': seq<int>, minv: seq<int>, minv': seq<int>, minv'': seq<int>, column: int, delta: int,
                   next: int, reach: int)
    requires Searching(c, m, t, i, base, lo, hi, order, rank, way, minv, column) && InRange(c, m, lo, hi) && |c| <= m
    requires 0 <= column <= m && |rank| == m + 1 && 1 <= t.p[column] <= i
    requires Measured(c, m, t, i, base, lo, order + [column], rank[column := |order|], way', minv', delta)
    requires |minv'| == m + 1 && Least(m, rank[column := |order|], minv', delta, next)
    requires Searching(c, m, t', i, base, lo, hi, order + [column], rank[column := |order|], way', minv'', next)
    requires -reach <= base <= reach
    ensures Within(TurnLedger(c, m, t, t', rank[column := |order|], t.p[column], minv', minv'', delta),
                   2 * (hi - lo), reach + hi - lo, 0)
  {
    hide *;
    var rank' := rank[column := |order|];
    SearchedParts(c, m, t, i, base, lo, hi, order, rank, way, minv, column);
    TurnEnds(c, m, t, t', i, base, lo, hi, order, rank, way', minv', minv'', column, delta, next);
    forall j | 1 <= j <= m && rank'[j] < 0 ensures CellWithin(c, m, t, t.p[column], minv', hi - lo, j) {
      ScanWithin(c, m, t, i, base, lo, hi, order, rank, way, way', minv, minv', column, delta, j);
    }
    LedgerWithin(c, m, t, t', rank', t.p[column], minv', minv'', delta, next, hi - lo, reach + hi - lo);
  }

  /** The numbers after the shift. */
  lemma TurnEnds(c: Matrix, m: nat, t: Tables, t': Tables, i: nat, base: int, lo: int, hi: int, order: seq<int>, rank: seq<int>,
                 way': seq<int>, minv': seq<int>, minv'': seq<int>, column: int, delta: int, next: int)
    requires Shape(c, m, t) && InRange(c, m, lo, hi) && |c| <= m
    requires 0 <= column <= m && |rank| == m + 1
    requires |minv'| == m + 1 && Least(m, rank[column := |order|], minv', delta, next)
    requires Searching(c, m, t', i, base, lo, hi, order + [column], rank[column := |order|], way', minv'', next)
    ensures Shape(c, m, t) && Shape(c, m, t') && |t.p| == |t'.v| == |minv''| == m + 1 && 1 <= i <= |c| < |t'.u|
    ensures TablesWithin(c, m, t', rank[column := |order|], minv'', hi - lo)
    ensures 1 <= next <= m && rank[column := |order|][next] < 0 && delta == minv'[next]
    ensures t'.v[0] == base - t'.u[i] && lo <= t'.u[i] <= hi && lo <= 0 <= hi
  {
    hide Tree, Frontier, Feasible, Tight, Signs, Sum, Located, Reduced;
    SearchBounds(c, m, t', i, base, lo, hi, order + [column], rank[column := |order|], way', minv'', next);
  }

  lemma LedgerWithin(c: Matrix, m: nat, t: Tables, t': Tables, rank: seq<int>, row: int, minv: seq<int>, minv': seq<int>,
                     delta: int, next: int, spread: int, roots: int)
    requires Shape(c, m, t) && Shape(c, m, t') && |rank| == |minv| == |minv'| == m + 1 && 1 <= row <= |c|
    requires forall j :: 1 <= j <= m && rank[j] < 0 ==> CellWithin(c, m, t, row, minv, spread, j)
    requires TablesWithin(c, m, t', rank, minv', spread)
    requires 1 <= next <= m && rank[next] < 0 && delta == minv[next]
    requires -roots <= t'.v[0] <= roots
    ensures Within(TurnLedger(c, m, t, t', rank, row, minv, minv', delta), 2 * spread, roots, 0)
  {
    hide Reduced;
  }

  // ----- Augmentation -----

  /** Moving a row from its column to the hole along a tight edge moves the hole. */
  lemma MoveRow(c: Matrix, m: nat, t: Tables, i: nat, hole: int, prior: int)
    requires Shape(c, m, t) && i <= |c| && 1 <= hole <= m && 0 <= prior <= m && prior != hole
    requires Located(c, m, t, i, hole) && Tight(c, m, t, hole) && Signs(c, m, t)
    requires 1 <= t.p[prior] <= i && Reduced(c, m, t, t.p[prior], hole) == 0
    ensures var t' := t.(p := t.p[hole := t.p[prior]], q := t.q[t.p[prior] := hole]);
            Located(c, m, t', i, prior) && Tight(c, m, t', prior) && Signs(c, m, t')
  {
    var row := t.p[prior];
    var t' := t.(p := t.p[hole := row], q := t.q[row := hole]);
    assert t.q[row] == prior;
    forall r | 1 <= r <= i && r != row ensures t.q[r] != prior && t.q[r] != hole {
      assert t.p[t.q[r]] == r;
    }
    forall j | 0 <= j <= m && j != prior && j != hole ensures t.p[j] != row {
      assert t.p[j] != 0 ==> t.q[t.p[j]] == j;
    }
    forall j | 1 <= j <= m && j != prior && 1 <= t'.p[j] <= |c| ensures Reduced(c, m, t', t'.p[j], j) == 0 {
      if j != hole {
        assert Reduced(c, m, t, t.p[j], j) == 0;
      } else {
        assert Reduced(c, m, t', row, j) == Reduced(c, m, t, row, j);
      }
    }
  }

  /** The path still to be walked from `column`: its columns rank below `bound` and are untouched. */
  ghost predicate Walking(c: Matrix, m: nat, t: Tables, cur: Tables, i: nat, rank: seq<int>, way: seq<int>,
                          column: int, bound: int) {
    && Shape(c, m, t) && Shape(c, m, cur) && i <= |c| && |rank| == m + 1 && |way| == m + 1 && 0 <= column <= m
    && cur.u == t.u && cur.v == t.v
    && Located(c, m, cur, i, column) && Tight(c, m, cur, column) && Signs(c, m, cur)
    && (column != 0 ==>
          && 0 <= way[column] <= m && 0 <= rank[way[column]] < bound && way[column] != column
          && 1 <= t.p[way[column]] <= i && Reduced(c, m, t, t.p[way[column]], column) == 0)
    && (forall j :: 0 <= j <= m && 0 <= rank[j] < bound ==> cur.p[j] == t.p[j])
  }

  lemma WalkStarts(c: Matrix, m: nat, t: Tables, i: nat, base: int, lo: int, hi: int, order: seq<int>, rank: seq<int>,
                   way: seq<int>, minv: seq<int>, column: int)
    requires Searching(c, m, t, i, base, lo, hi, order, rank, way, minv, column)
    requires order != [] && t.p[column] == 0
    ensures Walking(c, m, t, t, i, rank, way, column, |order|)
  {
  }

  lemma WalkStep(c: Matrix, m: nat, t: Tables, cur: Tables, i: nat, order: seq<int>, rank: seq<int>, way: seq<int>,
                 column: int, bound: int)
    requires Walking(c, m, t, cur, i, rank, way, column, bound) && column != 0
    requires Tree(c, m, t, order, rank, way) && Located(c, m, t, i, -1)
    ensures rank[way[column]] < bound
    ensures 1 <= cur.p[way[column]] <= i
    ensures Walking(c, m, t,
              cur.(p := cur.p[column := cur.p[way[column]]], q := cur.q[cur.p[way[column]] := column]),
              i, rank, way, way[column], rank[way[column]])
  {
    var prior := way[column];
    MoveRow(c, m, cur, i, column, prior);
    if prior != 0 {
      assert Entered(c, m, t, rank, way, prior);
    }
  }

  /** Walk back to the root, handing each column the row of the column it was entered from. */
  method Augment(c: Matrix, m: nat, columnRow: array<int>, previous: array<int>, last: int,
                 ghost t: Tables, ghost i: nat, ghost order: seq<int>, ghost rank: seq<int>)
    returns (ghost cur: Tables)
    requires columnRow != previous && previous.Length == m + 1
    requires columnRow[..] == t.p && Walking(c, m, t, t, i, rank, previous[..], last, |order|)
    requires Tree(c, m, t, order, rank, previous[..]) && Located(c, m, t, i, -1)
    modifies columnRow
    ensures cur.p == columnRow[..]
    ensures Walking(c, m, t, cur, i, rank, previous[..], 0, -1)
  {
    var column := last;
    ghost var bound := |order|;
    cur := t;
    while column != 0
      invariant cur.p == columnRow[..]
      invariant Walking(c, m, t, cur, i, rank, previous[..], column, bound)
      decreases bound
    {
      var prior := previous[column];
      WalkStep(c, m, t, cur, i, order, rank, previous[..], column, bound);
      ghost var row := cur.p[prior];
      columnRow[column] := columnRow[prior];
      cur := cur.(p := cur.p[column := row], q := cur.q[row := column]);
      bound := rank[prior];
      column := prior;
    }
  }

  // ----- Optimality by duality -----

  /** One distinct column (0-based) for every row. */
  ghost predicate IsAssignment(c: Matrix, m: nat, a: seq<int>) {
    && |a| == |c|
    && (forall r :: 0 <= r < |a| ==> 0 <= a[r] < m)
    && (forall r, s :: 0 <= r < s < |a| ==> a[r] != a[s])
  }

  /** The cost of the first k rows of an assignment. */
  ghost function Cost(c: Matrix, m: nat, a: seq<int>, k: nat): int
    requires Rectangular(c, m) && k <= |a| <= |c| && forall r :: 0 <= r < |a| ==> 0 <= a[r] < m
  {
    if k == 0 then 0 else Cost(c, m, a, k - 1) + c[k - 1][a[k - 1]]
  }

  /** The 1-based columns of an assignment. */
  ghost function OneBased(a: seq<int>): (b: seq<int>) {
    seq(|a|, r requires 0 <= r < |a| => a[r] + 1)
  }

  /** Weak duality, with equality on rows whose cells are tight. */
  lemma {:induction false} CostAgainstDuals(c: Matrix, m: nat, t: Tables, a: seq<int>, k: nat)
    requires Shape(c, m, t) && k <= |a| <= |c| && Feasible(c, m, t, k) && t.u[0] == 0
    requires forall r :: 0 <= r < |a| ==> 0 <= a[r] < m
    ensures Cost(c, m, a, k) >= Sum(t.u[..k + 1]) + Picked(t.v, OneBased(a), k)
    ensures (forall r :: 0 <= r < k ==> Reduced(c, m, t, r + 1, a[r] + 1) == 0) ==>
              Cost(c, m, a, k) == Sum(t.u[..k + 1]) + Picked(t.v, OneBased(a), k)
  {
    if k > 0 {
      CostAgainstDuals(c, m, t, a, k - 1);
      assert t.u[..k + 1][..k] == t.u[..k];
      assert Reduced(c, m, t, k, a[k - 1] + 1) >= 0;
    } else {
      assert t.u[..1] == [t.u[0]];
    }
  }

  lemma {:induction false} SumBeyond(u: seq<int>, k: nat)
    requires k <= |u| && forall r :: k <= r < |u| ==> u[r] == 0
    ensures Sum(u) == Sum(u[..k])
    decreases |u|
  {
    if k < |u| {
      SumBeyond(u[..|u| - 1], k);
      assert u[..|u| - 1][..k] == u[..k];
    } else {
      assert u[..k] == u;
    }
  }

  /** The columns of the first `done` rows in a settled state, 0-based. */
  ghost function Columns(t: Tables, done: nat): (a: seq<int>)
    requires done < |t.q|
  {
    seq(done, r requires 0 <= r < done => t.q[r + 1] - 1)
  }

  lemma ColumnsAssign(c: Matrix, m: nat, t: Tables, done: nat)
    requires Shape(c, m, t) && done <= |c| && Located(c, m, t, done, 0)
    ensures forall r :: 0 <= r < done ==> 0 <= Columns(t, done)[r] < m
    ensures forall r, s :: 0 <= r < s < done ==> Columns(t, done)[r] != Columns(t, done)[s]
  {
    var a := Columns(t, done);
    forall r, s | 0 <= r < s < done ensures a[r] != a[s] {
      assert t.p[t.q[r + 1]] == r + 1 && t.p[t.q[s + 1]] == s + 1;
    }
  }

  /** The matched rows pick up every non-zero column potential. */
  lemma ColumnsPick(c: Matrix, m: nat, t: Tables, done: nat)
    requires Shape(c, m, t) && done <= |c| && Located(c, m, t, done, 0) && Signs(c, m, t)
    ensures forall r :: 0 <= r < done ==> 0 <= Columns(t, done)[r] < m
    ensures Picked(t.v, OneBased(Columns(t, done)), done) == Sum(t.v[0 := 0])
  {
    var a := Columns(t, done);
    ColumnsAssign(c, m, t, done);
    var b, w := OneBased(a), t.v[0 := 0];
    assert forall r :: 0 <= r < done ==> b[r] == t.q[r + 1];
    forall j | 0 <= j < |w| && w[j] != 0 ensures 1 <= t.p[j] <= done && b[t.p[j] - 1] == j {
      assert j != 0;
    }
    PickedUnaffected(t.v, b, done, 0, 0);
    PickedExactly(w, b, t.p, done);
  }

  lemma ColumnsTight(c: Matrix, m: nat, t: Tables, done: nat)
    requires Shape(c, m, t) && done <= |c| && Located(c, m, t, done, 0) && Tight(c, m, t, 0)
    ensures forall r :: 0 <= r < done ==> 0 <= Columns(t, done)[r] < m
    ensures forall r :: 0 <= r < done ==> Reduced(c, m, t, r + 1, Columns(t, done)[r] + 1) == 0
  {
    forall r | 0 <= r < done ensures Reduced(c, m, t, r + 1, Columns(t, done)[r] + 1) == 0 {
      assert t.p[t.q[r + 1]] == r + 1;
    }
  }

  /** Strong duality: the root potential carries the cost matched so far. */
  lemma SettledCost(c: Matrix, m: nat, t: Tables, done: nat, zero: int)
    requires Settled(c, m, t, done, zero)
    ensures forall r :: 0 <= r < done ==> 0 <= Columns(t, done)[r] < m
    ensures Cost(c, m, Columns(t, done), done) == -t.v[0] == Sum(t.u[..done + 1]) + Sum(t.v[0 := 0])
  {
    hide Sum, Cost, Picked, Located, Tight, Signs, Feasible, OneBased, Reduced, Rectangular;
    ColumnsTight(c, m, t, done);
    ColumnsPick(c, m, t, done);
    CostAgainstDuals(c, m, t, Columns(t, done), done);
    SumBeyond(t.u, done + 1);
    SumUpdate(t.v, 0, 0);
  }

  /** No other assignment costs less. */
  ghost predicate MinimumCost(c: Matrix, m: nat, a: seq<int>)
    requires Rectangular(c, m)
  {
    && IsAssignment(c, m, a)
    && forall b :: IsAssignment(c, m, b) ==> Cost(c, m, a, |c|) <= Cost(c, m, b, |c|)
  }

  /** A settled state with every row matched is a minimum-cost assignment. */
  lemma SettledMinimum(c: Matrix, m: nat, t: Tables, zero: int)
    requires Settled(c, m, t, |c|, zero)
    ensures MinimumCost(c, m, Columns(t, |c|))
  {
    ColumnsAssign(c, m, t, |c|);
    SettledCost(c, m, t, |c|, zero);
    hide Sum, Cost, Located, Tight, Columns;
    forall b | IsAssignment(c, m, b) ensures Cost(c, m, Columns(t, |c|), |c|) <= Cost(c, m, b, |c|) {
      WeakDuality(c, m, t, b);
    }
  }

  lemma WeakDuality(c: Matrix, m: nat, t: Tables, b: seq<int>)
    requires Shape(c, m, t) && IsAssignment(c, m, b) && Feasible(c, m, t, |c|) && t.u[0] == 0
    requires forall j :: 1 <= j <= m ==> t.v[j] <= 0
    ensures Cost(c, m, b, |c|) >= Sum(t.u[..|c| + 1]) + Sum(t.v[0 := 0])
  {
    CostAgainstDuals(c, m, t, b, |c|);
    PickedUnaffected(t.v, OneBased(b), |c|, 0, 0);
    PickedAtLeast(t.v[0 := 0], OneBased(b), |c|);
  }

  // ----- The whole algorithm -----

  /** A settled state becomes the start of the next row once column 0 holds that row. */
  lemma RowStarts(c: Matrix, m: nat, t: Tables, i: nat, lo: int, hi: int, zero: int)
    requires 1 <= i <= |c| && Settled(c, m, t, i - 1, zero) && InRange(c, m, lo, hi)
    ensures Inserting(c, m, t.(p := t.p[0 := i], q := t.q[i := 0]), i, t.v[0])
    ensures Feasible(c, m, t.(p := t.p[0 := i], q := t.q[i := 0]), i - 1)
    ensures forall j :: 1 <= j <= m ==> t.v[j] >= lo - hi
  {
    var t' := t.(p := t.p[0 := i], q := t.q[i := 0]);
    PotentialBounds(c, m, t, i - 1, lo, hi, zero);
    forall r, j | 1 <= r <= i - 1 && 1 <= j <= m ensures Reduced(c, m, t', r, j) >= 0 {
      assert Reduced(c, m, t, r, j) >= 0;
    }
    forall j | 1 <= j <= m && 1 <= t'.p[j] <= |c| ensures Reduced(c, m, t', t'.p[j], j) == 0 {
      assert Reduced(c, m, t, t.p[j], j) == 0;
    }
  }

  /** After the augmentation the state is settled again; the root moved by the new row's potential. */
  lemma RowEnds(c: Matrix, m: nat, t: Tables, cur: Tables, i: nat, base: int, lo: int, hi: int, order: seq<int>,
                rank: seq<int>, way: seq<int>, minv: seq<int>, column: int)
    requires Searching(c, m, t, i, base, lo, hi, order, rank, way, minv, column) && InRange(c, m, lo, hi)
    requires order != [] && t.p[column] == 0
    requires Walking(c, m, t, cur, i, rank, way, 0, -1)
    ensures Settled(c, m, cur, i, column)
    ensures lo <= base - cur.v[0] <= hi
  {
    forall r, j | 1 <= r <= i && 1 <= j <= m ensures Reduced(c, m, cur, r, j) >= 0 {
      assert Reduced(c, m, t, r, j) >= 0;
    }
    assert Reduced(c, m, t, i, column) >= 0 && lo <= c[i - 1][column - 1] <= hi;
  }

  ghost predicate RootWithin(done: nat, lo: int, hi: int, matched: int) {
    done * lo <= matched <= done * hi
  }

  lemma RootGrows(done: nat, lo: int, hi: int, matched: int, step: int)
    requires RootWithin(done, lo, hi, matched) && lo <= step <= hi
    ensures RootWithin(done + 1, lo, hi, matched + step)
  {
  }

  /** One row of the outer loop. */
  method InsertRow(c: Matrix, m: nat, rowPotential: array<int>, columnPotential: array<int>, columnRow: array<int>,
                   previous: array<int>, row: nat, ghost q: seq<int>, ghost lo: int, ghost hi: int, ghost zero: int, ghost reach: int)
    returns (ghost q': seq<int>, ghost zero': int, ghost cells: nat, ghost ledger: Ledger)
    requires 1 <= row <= |c| <= m && previous.Length == columnRow.Length == columnPotential.Length == m + 1
    requires rowPotential != columnPotential && rowPotential != columnRow && columnPotential != columnRow
    requires previous !in {rowPotential, columnPotential, columnRow}
    requires Settled(c, m, Tables(rowPotential[..], columnPotential[..], columnRow[..], q), row - 1, zero)
    requires InRange(c, m, lo, hi) && -reach <= columnPotential[0] <= reach
    modifies rowPotential, columnPotential, columnRow, previous
    ensures Settled(c, m, Tables(rowPotential[..], columnPotential[..], columnRow[..], q'), row, zero')
    ensures lo <= old(columnPotential[0]) - columnPotential[0] <= hi
    ensures cells <= Times(|c|, m)
    ensures columnPotential[0] in ledger.roots && Within(ledger, 2 * (hi - lo), reach + hi - lo, 0)
  {
    ghost var t := Tables(rowPotential[..], columnPotential[..], columnRow[..], q);
    ghost var base := columnPotential[0];
    assert |q| == |c| + 1;
    hide *;
    RowStarts(c, m, t, row, lo, hi, zero);
    columnRow[0] := row;
    q' := q[row := 0];
    assert Tables(rowPotential[..], columnPotential[..], columnRow[..], q') == t.(p := t.p[0 := row], q := t.q[row := 0]);
    var column;
    ghost var order, rank, minv;
    column, order, rank, minv, cells, ledger :=
      Search(c, m, rowPotential, columnPotential, columnRow, previous, row, q', lo, hi, reach);
    TimesMonotone(|order|, |c|, m, m);
    ghost var found := Tables(rowPotential[..], columnPotential[..], columnRow[..], q');
    WalkStarts(c, m, found, row, base, lo, hi, order, rank, previous[..], minv, column);
    SearchedParts(c, m, found, row, base, lo, hi, order, rank, previous[..], minv, column);
    ghost var cur := Augment(c, m, columnRow, previous, column, found, row, order, rank);
    RowEnds(c, m, found, cur, row, base, lo, hi, order, rank, previous[..], minv, column);
    WalkKeepsDuals(c, m, found, cur, row, rank, previous[..], 0, -1);
    q', zero' := cur.q, column;
    assert cur == Tables(rowPotential[..], columnPotential[..], columnRow[..], q');
  }

  lemma SearchedParts(c: Matrix, m: nat, t: Tables, i: nat, base: int, lo: int, hi: int, order: seq<int>, rank: seq<int>,
                      way: seq<int>, minv: seq<int>, column: int)
    requires Searching(c, m, t, i, base, lo, hi, order, rank, way, minv, column)
    ensures Shape(c, m, t) && i <= |c| && Tree(c, m, t, order, rank, way) && Located(c, m, t, i, -1)
  {
  }

  lemma WalkKeepsDuals(c: Matrix, m: nat, t: Tables, cur: Tables, i: nat, rank: seq<int>, way: seq<int>, column: int, bound: int)
    requires Walking(c, m, t, cur, i, rank, way, column, bound)
    ensures cur.u == t.u && cur.v == t.v
  {
  }

  lemma SettledInitially(c: Matrix, m: nat, t: Tables, lo: int, hi: int)
    requires Rectangular(c, m) && |t.u| == |t.q| == |c| + 1 && |t.v| == |t.p| == m + 1
    requires forall r :: 0 <= r <= |c| ==> t.u[r] == 0
    requires forall j :: 0 <= j <= m ==> t.v[j] == 0 && t.p[j] == 0
    ensures Settled(c, m, t, 0, 0)
    ensures RootWithin(0, lo, hi, -t.v[0])
  {
    SumOfZeros(t.u);
    SumOfZeros(t.v);
  }

  /** The final read-out of the columns' rows. */
  method ReadAssignment(n: nat, m: nat, columnRow: array<int>, ghost q: seq<int>) returns (assignment: seq<int>)
    requires columnRow.Length == m + 1 && |q| == n + 1
    requires forall j :: 1 <= j <= m ==> 0 <= columnRow[j] <= n
    requires forall j :: 1 <= j <= m && columnRow[j] != 0 ==> q[columnRow[j]] == j
    requires forall r :: 1 <= r <= n ==> 1 <= q[r] <= m && columnRow[q[r]] == r
    ensures |assignment| == n && forall r :: 0 <= r < n ==> assignment[r] == q[r + 1] - 1
  {
    var slots := new int[n](_ => m);
    for column := 1 to m + 1
      invariant forall r :: 0 <= r < n && q[r + 1] < column ==> slots[r] == q[r + 1] - 1
    {
      if columnRow[column] != 0 {
        slots[columnRow[column] - 1] := column - 1;
      }
    }
    assignment := slots[..];
  }

  /** The outer loop. */
  method InsertRows(c: Matrix, m: nat, rowPotential: array<int>, columnPotential: array<int>, columnRow: array<int>,
                    previous: array<int>, ghost q: seq<int>, ghost lo: int, ghost hi: int)
    returns (ghost q': seq<int>, ghost zero: int, ghost cells: nat, ghost ledger: Ledger)
    requires |c| <= m && previous.Length == columnRow.Length == columnPotential.Length == m + 1 && columnPotential[0] == 0
    requires rowPotential != columnPotential && rowPotential != columnRow && columnPotential != columnRow
    requires previous !in {rowPotential, columnPotential, columnRow}
    requires Settled(c, m, Tables(rowPotential[..], columnPotential[..], columnRow[..], q), 0, 0)
    requires RootWithin(0, lo, hi, 0) && InRange(c, m, lo, hi)
    modifies rowPotential, columnPotential, columnRow, previous
    ensures Settled(c, m, Tables(rowPotential[..], columnPotential[..], columnRow[..], q'), |c|, zero)
    ensures RootWithin(|c|, lo, hi, -columnPotential[0])
    ensures cells <= Times(|c|, Times(|c|, m))
    ensures |c| > 0 ==> columnPotential[0] in ledger.roots
    ensures hi >= lo && Within(ledger, 2 * (hi - lo), Times(|c|, hi - lo), 0)
  {
    assert lo <= 0 <= hi;
    hide *;
    ghost var spread: nat, allowance := hi - lo, Times(|c|, m);
    q', zero, cells, ledger := q, 0, 0, Blank();
    TimesNext(0, allowance);
    TimesNext(0, spread);
    BlankWithin(2 * spread, 0, 0);
    for row := 1 to |c| + 1
      invariant Settled(c, m, Tables(rowPotential[..], columnPotential[..], columnRow[..], q'), row - 1, zero)
      invariant RootWithin(row - 1, lo, hi, -columnPotential[0])
      invariant cells <= Times(row - 1, allowance)
      invariant columnPotential[0] <= Times(row - 1, spread) && -columnPotential[0] <= Times(row - 1, spread)
      invariant Within(ledger, 2 * spread, Times(row - 1, spread), 0)
      invariant row > 1 ==> columnPotential[0] in ledger.roots
    {
      ghost var base, reach: int := columnPotential[0], Times(row - 1, spread);
      ghost var seen, more;
      q', zero, seen, more := InsertRow(c, m, rowPotential, columnPotential, columnRow, previous, row, q', lo, hi, zero, reach);
      RootGrows(row - 1, lo, hi, -base, base - columnPotential[0]);
      TimesNext(row - 1, allowance);
      TimesNext(row - 1, spread);
      WithinMore(ledger, 2 * spread, reach, 0, 2 * spread, reach + spread, 0);
      JoinedWithin(ledger, more, 2 * spread, reach + spread, 0);
      JoinedRoots(ledger, more);
      cells, ledger := cells + seen, Joined(ledger, more);
    }
  }

  /** Dual potentials proving that an assignment is optimal: every reduced cost is non-negative and
      zero on the assignment, and a column left out has potential zero. */
  ghost predicate Certifies(c: Matrix, m: nat, t: Tables, a: seq<int>) {
    && Shape(c, m, t) && IsAssignment(c, m, a)
    && Feasible(c, m, t, |c|)
    && (forall r :: 0 <= r < |c| ==> Reduced(c, m, t, r + 1, a[r] + 1) == 0)
    && (forall j :: 1 <= j <= m ==> t.v[j] <= 0)
    && (forall j :: 1 <= j <= m && j - 1 !in a ==> t.v[j] == 0)
  }

  /** The rectangular Hungarian algorithm. For every cost matrix with at least one row and no more
      rows than columns, the result is a minimum-cost assignment, certified by potentials that stay
      in range, and at most rows * rows * columns cells are read. */
  method Solve(c: Matrix, ghost lo: int, ghost hi: int)
    returns (assignment: seq<int>, ghost t: Tables, ghost cells: nat, ghost ledger: Ledger)
    requires 0 < |c| <= |c[0]| && Rectangular(c, |c[0]|) && InRange(c, |c[0]|, lo, hi)
    ensures MinimumCost(c, |c[0]|, assignment)
    ensures Certifies(c, |c[0]|, t, assignment)
    ensures Cost(c, |c[0]|, assignment, |c|) == -t.v[0]
    ensures (forall r :: 1 <= r <= |c| ==> lo <= t.u[r] <= hi) && (forall j :: 1 <= j <= |c[0]| ==> lo - hi <= t.v[j] <= 0)
    ensures RootWithin(|c|, lo, hi, -t.v[0])
    ensures cells <= Times(|c|, Times(|c|, |c[0]|))
    ensures t.v[0] in ledger.roots
    ensures hi - lo >= 0 && Within(ledger, 2 * (hi - lo), Times(|c|, hi - lo), 0)
  {
    hide *;
    var rows, columns := |c|, |c[0]|;
    var rowPotential := new int[rows + 1](_ => 0);
    var columnPotential := new int[columns + 1](_ => 0);
    var columnRow := new int[columns + 1](_ => 0);
    var previous := new int[columns + 1](_ => 0);
    ghost var m, q, zero := columns, seq(rows + 1, _ => 0), 0;
    SettledInitially(c, m, Tables(rowPotential[..], columnPotential[..], columnRow[..], q), lo, hi);
    q, zero, cells, ledger := InsertRows(c, columns, rowPotential, columnPotential, columnRow, previous, q, lo, hi);
    t := Tables(rowPotential[..], columnPotential[..], columnRow[..], q);
    SettledParts(c, m, t, zero);
    assignment := ReadAssignment(rows, columns, columnRow, q);
    assert assignment == Columns(t, rows);
    SettledCertifies(c, m, t, zero);
    SettledCost(c, m, t, rows, zero);
    PotentialBounds(c, m, t, rows, lo, hi, zero);
    SettledMinimum(c, m, t, zero);
  }

  lemma SettledParts(c: Matrix, m: nat, t: Tables, zero: int)
    requires Settled(c, m, t, |c|, zero)
    ensures Shape(c, m, t) && |t.q| == |c| + 1 && |t.p| == m + 1
    ensures forall j :: 1 <= j <= m ==> 0 <= t.p[j] <= |c| && (t.p[j] != 0 ==> t.q[t.p[j]] == j)
    ensures forall r :: 1 <= r <= |c| ==> 1 <= t.q[r] <= m && t.p[t.q[r]] == r
    ensures |Columns(t, |c|)| == |c| && forall r :: 0 <= r < |c| ==> Columns(t, |c|)[r] == t.q[r + 1] - 1
  {
  }

  lemma UnlistedColumnFree(c: Matrix, m: nat, t: Tables, zero: int, j: nat)
    requires Settled(c, m, t, |c|, zero) && 1 <= j <= m && j - 1 !in Columns(t, |c|)
    ensures t.v[j] == 0
  {
    hide Reduced, Feasible, Tight, Sum, Columns;
    if t.p[j] != 0 {
      ListedColumn(c, m, t, zero, j);
    }
  }

  lemma ListedColumn(c: Matrix, m: nat, t: Tables, zero: int, j: nat)
    requires Settled(c, m, t, |c|, zero) && 1 <= j <= m && t.p[j] != 0
    ensures j - 1 in Columns(t, |c|)
  {
    hide Reduced, Feasible, Tight, Sum;
    assert Columns(t, |c|)[t.p[j] - 1] == j - 1;
  }

  lemma SettledSigns(c: Matrix, m: nat, t: Tables, zero: int)
    requires Settled(c, m, t, |c|, zero)
    ensures Shape(c, m, t) && Located(c, m, t, |c|, 0) && Tight(c, m, t, 0) && Feasible(c, m, t, |c|)
    ensures forall j :: 1 <= j <= m ==> t.v[j] <= 0
  {
    hide Reduced, Sum;
  }

  lemma SettledCertifies(c: Matrix, m: nat, t: Tables, zero: int)
    requires Settled(c, m, t, |c|, zero)
    ensures Certifies(c, m, t, Columns(t, |c|))
  {
    hide Settled, Reduced, Feasible, Tight, Sum, Located, Rectangular;
    SettledSigns(c, m, t, zero);
    ColumnsAssign(c, m, t, |c|);
    ColumnsTight(c, m, t, |c|);
    forall j | 1 <= j <= m && j - 1 !in Columns(t, |c|) ensures t.v[j] == 0 {
      UnlistedColumnFree(c, m, t, zero, j);
    }
  }
}
