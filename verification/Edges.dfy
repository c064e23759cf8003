/** Building the sparse graph: sources are put into buckets, each candidate looks only into its own
    bucket, and the adjacency lists that result are exactly the pairs that score. */
module Edges {
  import opened Wrappers
  import opened Sums
  import opened Matching
  import opened Files
  import opened Objective
  import opened Sorting
  import Components

  type Buckets = map<BucketKey, seq<nat>>

  function BucketOf(p: Problem, j: nat): BucketKey
    requires j < |p.sources|
  {
    SourceBucket(p.sources[j].1, p.policy)
  }

  /** The index holds exactly the first `upto` sources, each in its own bucket, in order. */
  ghost predicate Indexes(p: Problem, buckets: Buckets, upto: nat)
    requires upto <= |p.sources|
  {
    && (forall j: nat :: j < upto ==> BucketOf(p, j) in buckets && j in buckets[BucketOf(p, j)])
    && (forall k, i :: k in buckets && 0 <= i < |buckets[k]| ==> buckets[k][i] < upto && BucketOf(p, buckets[k][i]) == k)
    && (forall k, i, j :: k in buckets && 0 <= i < j < |buckets[k]| ==> buckets[k][i] < buckets[k][j])
  }

  method BuildBuckets(p: Problem) returns (buckets: Buckets)
    ensures Indexes(p, buckets, |p.sources|)
  {
    hide BucketOf;
    buckets := map[];
    for index := 0 to |p.sources|
      invariant Indexes(p, buckets, index)
    {
      var key := BucketOf(p, index);
      var listed := if key in buckets then buckets[key] else [];
      buckets := buckets[key := listed + [index]];
    }
  }

  // ----- One row of the adjacency lists -----

  /** The list names each scoring column among `columns` once, with its score. */
  ghost predicate ListsRow(row: seq<Option<nat>>, list: seq<(nat, nat)>, columns: seq<nat>) {
    && (forall k :: 0 <= k < |list| ==> list[k].0 < |row| && row[list[k].0] == Some(list[k].1) && list[k].0 in columns)
    && (forall k, l :: 0 <= k < l < |list| ==> list[k].0 < list[l].0)
    && (forall c :: c in columns && c < |row| && row[c].Some? ==> exists k :: 0 <= k < |list| && list[k].0 == c)
  }

  /** ...and every scoring column of the row is there. */
  ghost predicate ListsWholeRow(row: seq<Option<nat>>, list: seq<(nat, nat)>) {
    && (forall k :: 0 <= k < |list| ==> list[k].0 < |row| && row[list[k].0] == Some(list[k].1))
    && (forall k, l :: 0 <= k < l < |list| ==> list[k].0 < list[l].0)
    && (forall c: nat :: c < |row| && row[c].Some? ==> exists k :: 0 <= k < |list| && list[k].0 == c)
  }

  /** A source that scores is in the candidate's bucket. */
  lemma InBucket(p: Problem, buckets: Buckets, i: nat, c: nat)
    requires Indexes(p, buckets, |p.sources|) && i < |p.candidates| && c < |p.sources| && ScoreAt(p, i, c).Some?
    ensures var key := CandidateBucket(p.candidates[i], p.policy); key in buckets && c in buckets[key]
  {
    hide CandidateBucket, SourceBucket, EdgeScore;
    ScoredPairSharesBucket(p.names, p.candidates[i], p.sources[c].1, p.policy, p.seasonMode);
    assert BucketOf(p, c) == CandidateBucket(p.candidates[i], p.policy);
  }

  /** Looking only into the candidate's bucket finds the whole row. */
  lemma BucketLosesNothing(p: Problem, buckets: Buckets, i: nat, list: seq<(nat, nat)>)
    requires Indexes(p, buckets, |p.sources|) && i < |p.candidates|
    requires var key := CandidateBucket(p.candidates[i], p.policy);
             ListsRow(Scores(p)[i], list, if key in buckets then buckets[key] else [])
    ensures ListsWholeRow(Scores(p)[i], list)
  {
    hide CandidateBucket, SourceBucket, EdgeScore, Indexes;
    forall c: nat | c < |Scores(p)[i]| && Scores(p)[i][c].Some?
      ensures var key := CandidateBucket(p.candidates[i], p.policy); key in buckets && c in buckets[key]
    {
      InBucket(p, buckets, i, c);
    }
  }

  // ----- Counting and summing -----

  function Ones(g: Graph): Graph {
    seq(|g|, r requires 0 <= r < |g| =>
      seq(|g[r]|, c requires 0 <= c < |g[r]| => if g[r][c].Some? then Some(1) else None))
  }

  /** How many pairs score. */
  function EdgeCount(p: Problem): int {
    GraphTotal(Ones(Scores(p)))
  }

  function ListValues(list: seq<(nat, nat)>): (values: seq<int>) {
    seq(|list|, k requires 0 <= k < |list| => list[k].1 as int)
  }

  /** Summing a complete adjacency list sums the row. */
  lemma ListSumsRow(row: seq<Option<nat>>, list: seq<(nat, nat)>)
    requires ListsWholeRow(row, list)
    ensures Sum(ListValues(list)) == RowTotal(row)
  {
    var columns := seq(|list|, k requires 0 <= k < |list| => list[k].0 as int);
    var at := seq(|row|, c requires 0 <= c < |row| =>
                if row[c].Some? then (var k :| 0 <= k < |list| && list[k].0 == c; k + 1) else 0);
    PickedExactly(RowValues(row), columns, at, |list|);
    PickedIsSum(RowValues(row), columns, ListValues(list));
  }

  /** A row's list, with every score replaced by one. */
  function Unscored(list: seq<(nat, nat)>): seq<(nat, nat)> {
    seq(|list|, k requires 0 <= k < |list| => (list[k].0, 1))
  }

  lemma ListCountsRow(g: Graph, r: nat, list: seq<(nat, nat)>)
    requires r < |g| && ListsWholeRow(g[r], list)
    ensures |list| == RowTotal(Ones(g)[r])
  {
    var ones := Unscored(list);
    assert ListsWholeRow(Ones(g)[r], ones) by {
      forall c: nat | c < |g[r]| && Ones(g)[r][c].Some? ensures exists k :: 0 <= k < |ones| && ones[k].0 == c {
        var k :| 0 <= k < |list| && list[k].0 == c;
        assert ones[k].0 == c;
      }
    }
    ListSumsRow(Ones(g)[r], ones);
    SumOfOnes(ListValues(ones));
  }

  lemma {:induction false} SumOfOnes(s: seq<int>)
    requires forall i :: 0 <= i < |s| ==> s[i] == 1
    ensures Sum(s) == |s|
  {
    if |s| > 0 {
      SumOfOnes(s[..|s| - 1]);
    }
  }

  /** A list of some of a row's scoring columns is no longer than their number. */
  lemma PartOfRow(g: Graph, r: nat, list: seq<(nat, nat)>, columns: seq<nat>)
    requires r < |g| && ListsRow(g[r], list, columns)
    ensures |list| <= RowTotal(Ones(g)[r])
  {
    var row := Ones(g)[r];
    var at := seq(|list|, k requires 0 <= k < |list| => list[k].0 as int);
    var ones := seq(|list|, _ => 1);
    PickedAtMost(RowValues(row), at, |list|);
    PickedIsSum(RowValues(row), at, ones);
    SumOfOnes(ones);
  }

  // ----- The whole graph -----

  type Lists = seq<seq<(nat, nat)>>

  ghost predicate ForwardLists(p: Problem, edges: Lists, upto: nat)
    requires upto <= |p.candidates|
  {
    |edges| == upto && forall r :: 0 <= r < upto ==> ListsWholeRow(Scores(p)[r], edges[r])
  }

  ghost predicate ReverseLists(p: Problem, reverse: seq<seq<nat>>, upto: nat) {
    && |reverse| == |p.sources|
    && (forall c, k :: 0 <= c < |reverse| && 0 <= k < |reverse[c]| ==>
          reverse[c][k] < upto && reverse[c][k] < |p.candidates| && ScoreAt(p, reverse[c][k], c).Some?)
    && (forall r: nat, c: nat :: r < upto && r < |p.candidates| && c < |p.sources| && ScoreAt(p, r, c).Some? ==> r in reverse[c])
  }

  /** The reverse lists while row i is being added: its first columns are in. */
  ghost predicate ReverseGrowing(p: Problem, reverse: seq<seq<nat>>, i: nat, row: seq<(nat, nat)>)
    requires i < |p.candidates|
  {
    && |reverse| == |p.sources|
    && (forall c, k :: 0 <= c < |reverse| && 0 <= k < |reverse[c]| ==>
          reverse[c][k] <= i && ScoreAt(p, reverse[c][k], c).Some?)
    && (forall r: nat, c: nat :: r < i && c < |p.sources| && ScoreAt(p, r, c).Some? ==> r in reverse[c])
    && (forall k :: 0 <= k < |row| ==> row[k].0 < |reverse| && i in reverse[row[k].0])
  }

  lemma ReverseRowDone(p: Problem, reverse: seq<seq<nat>>, i: nat, row: seq<(nat, nat)>)
    requires i < |p.candidates| && ReverseGrowing(p, reverse, i, row) && ListsWholeRow(Scores(p)[i], row)
    ensures ReverseLists(p, reverse, i + 1)
  {
    hide EdgeScore;
    forall r: nat, c: nat | r < i + 1 && c < |p.sources| && ScoreAt(p, r, c).Some? ensures r in reverse[c] {
      if r == i {
        assert Scores(p)[i][c].Some?;
      }
    }
  }

  lemma ReverseGrows(p: Problem, reverse: seq<seq<nat>>, i: nat, row: seq<(nat, nat)>, c: nat, value: nat)
    requires i < |p.candidates| && ReverseGrowing(p, reverse, i, row)
    requires c < |p.sources| && ScoreAt(p, i, c) == Some(value)
    ensures ReverseGrowing(p, reverse[c := reverse[c] + [i]], i, row + [(c, value)])
  {
    hide ScoreAt;
  }

  lemma RowGrows(row: seq<Option<nat>>, list: seq<(nat, nat)>, columns: seq<nat>, t: nat)
    requires t < |columns| && columns[t] < |row| && ListsRow(row, list, columns[..t])
    requires forall i, j :: 0 <= i < j < |columns| ==> columns[i] < columns[j]
    ensures row[columns[t]].Some? ==> ListsRow(row, list + [(columns[t], row[columns[t]].value)], columns[..t + 1])
    ensures row[columns[t]].None? ==> ListsRow(row, list, columns[..t + 1])
  {
    assert columns[..t + 1] == columns[..t] + [columns[t]];
    if row[columns[t]].Some? {
      var more := list + [(columns[t], row[columns[t]].value)];
      forall c | c in columns[..t + 1] && c < |row| && row[c].Some? ensures exists k :: 0 <= k < |more| && more[k].0 == c {
        if c == columns[t] {
          assert more[|list|].0 == c;
        } else {
          var k :| 0 <= k < |list| && list[k].0 == c;
          assert more[k].0 == c;
        }
      }
    }
  }

  /** The pairs of one candidate, unless the edge budget runs out. */
  method RowEdges(p: Problem, i: nat, columns: seq<nat>, reverse: seq<seq<nat>>, count: nat)
    returns (over: bool, row: seq<(nat, nat)>, reverse': seq<seq<nat>>, count': nat)
    requires i < |p.candidates| && ReverseLists(p, reverse, i)
    requires forall k :: 0 <= k < |columns| ==> columns[k] < |p.sources|
    requires forall k, l :: 0 <= k < l < |columns| ==> columns[k] < columns[l]
    requires count <= p.policy.maxCandidateEdges
    ensures count' == count + |row|
    ensures over <==> count' > p.policy.maxCandidateEdges
    ensures exists t :: 0 <= t <= |columns| && ListsRow(Scores(p)[i], row, columns[..t])
    ensures !over ==> ListsRow(Scores(p)[i], row, columns) && ReverseGrowing(p, reverse', i, row)
  {
    hide EdgeScore, ListsRow;
    row, reverse', count', over := [], reverse, count, false;
    RowStarts(p, i, columns, reverse);
    for t := 0 to |columns|
      invariant ListsRow(Scores(p)[i], row, columns[..t])
      invariant ReverseGrowing(p, reverse', i, row)
      invariant count' == count + |row| <= p.policy.maxCandidateEdges
    {
      var j := columns[t];
      RowGrows(Scores(p)[i], row, columns, t);
      match EdgeScore(p.names, p.candidates[i], p.sources[j].1, p.policy, p.seasonMode)
      case Some(value) =>
        assert ScoreAt(p, i, j) == Some(value) == Scores(p)[i][j];
        count' := count' + 1;
        if count' > p.policy.maxCandidateEdges {
          row := row + [(j, value)];
          over := true;
          return;
        }
        ReverseGrows(p, reverse', i, row, j, value);
        row := row + [(j, value)];
        reverse' := reverse'[j := reverse'[j] + [i]];
      case None =>
        assert Scores(p)[i][j] == ScoreAt(p, i, j);
    }
    assert columns[..|columns|] == columns;
  }

  lemma RowStarts(p: Problem, i: nat, columns: seq<nat>, reverse: seq<seq<nat>>)
    requires i < |p.candidates| && ReverseLists(p, reverse, i)
    ensures ListsRow(Scores(p)[i], [], columns[..0]) && ReverseGrowing(p, reverse, i, [])
  {
  }

  // ----- All rows -----

  /** The number of scoring pairs on each row. */
  function RowCounts(p: Problem): (counts: seq<int>)
    ensures Sum(counts) == EdgeCount(p)
    ensures |counts| == |p.candidates|
    ensures forall r :: 0 <= r < |counts| ==> counts[r] == RowTotal(Ones(Scores(p))[r]) >= 0
  {
    TotalNonNegative(Ones(Scores(p)));
    RowTotals(Ones(Scores(p)))
  }

  lemma RowTooMany(p: Problem, i: nat, row: seq<(nat, nat)>, columns: seq<nat>)
    requires i < |p.candidates| && ListsRow(Scores(p)[i], row, columns)
    ensures Sum(RowCounts(p)[..i]) + |row| <= EdgeCount(p)
  {
    hide EdgeScore, ListsRow, Scores, Ones, Sum, RowTotal;
    ScoresShape(p);
    PartOfRow(Scores(p), i, row, columns);
    PrefixAtMostSum(RowCounts(p), i, |row|);
  }

  lemma ScoresShape(p: Problem)
    ensures |Scores(p)| == |p.candidates| && |Ones(Scores(p))| == |p.candidates|
    ensures |Weights(p)| == |p.candidates|
    ensures forall r :: 0 <= r < |p.candidates| ==> |Scores(p)[r]| == |p.sources| && |Weights(p)[r]| == |p.sources|
  {
  }

  lemma RowCounted(p: Problem, i: nat, row: seq<(nat, nat)>)
    requires i < |p.candidates| && ListsWholeRow(Scores(p)[i], row)
    ensures Sum(RowCounts(p)[..i + 1]) == Sum(RowCounts(p)[..i]) + |row|
  {
    hide EdgeScore, ListsWholeRow, Scores, Ones, Sum, RowTotal;
    ScoresShape(p);
    ListCountsRow(Scores(p), i, row);
    SumPrefix(RowCounts(p), i);
  }

  /** The adjacency lists of the whole problem, unless the edge budget runs out. */
  method BuildEdges(p: Problem, buckets: Buckets)
    returns (over: bool, edges: Lists, reverse: seq<seq<nat>>)
    requires Indexes(p, buckets, |p.sources|)
    ensures over <==> EdgeCount(p) > p.policy.maxCandidateEdges
    ensures !over ==> ForwardLists(p, edges, |p.candidates|) && ReverseLists(p, reverse, |p.candidates|)
  {
    hide EdgeScore, ListsRow, ListsWholeRow, Scores, Sum, CandidateBucket, ReverseLists, ReverseGrowing, EdgeCount, BucketOf;
    edges, reverse := [], seq(|p.sources|, _ => []);
    var count: nat := 0;
    ScoresShape(p);
    NoLists(p, reverse);
    for i := 0 to |p.candidates|
      invariant ForwardLists(p, edges, i) && ReverseLists(p, reverse, i)
      invariant count == Sum(RowCounts(p)[..i]) && count <= p.policy.maxCandidateEdges
    {
      var key := CandidateBucket(p.candidates[i], p.policy);
      var listed := if key in buckets then buckets[key] else [];
      var row, over', reverse', count' := [], false, reverse, count;
      over', row, reverse', count' := RowEdges(p, i, listed, reverse, count);
      if over' {
        ghost var t :| 0 <= t <= |listed| && ListsRow(Scores(p)[i], row, listed[..t]);
        RowTooMany(p, i, row, listed[..t]);
        return true, edges, reverse';
      }
      BucketLosesNothing(p, buckets, i, row);
      ReverseRowDone(p, reverse', i, row);
      RowCounted(p, i, row);
      edges, reverse, count := edges + [row], reverse', count';
    }
    over := false;
    assert RowCounts(p)[..|p.candidates|] == RowCounts(p);
  }

  lemma NoLists(p: Problem, reverse: seq<seq<nat>>)
    requires |reverse| == |p.sources| && forall c :: 0 <= c < |reverse| ==> reverse[c] == []
    ensures ForwardLists(p, [], 0) && ReverseLists(p, reverse, 0)
    ensures RowCounts(p)[..0] == [] && Sum([]) == 0
  {
  }

  /** The lists describe the weighted graph from both sides. */
  lemma ListsAreAdjacency(p: Problem, edges: Lists, reverse: seq<seq<nat>>)
    requires ForwardLists(p, edges, |p.candidates|) && ReverseLists(p, reverse, |p.candidates|)
    ensures Components.Adjacency(Weights(p), |p.sources|, edges, reverse)
  {
    hide EdgeScore, EdgeWeight;
    ScoresShape(p);
    var g := Weights(p);
    forall r, k | 0 <= r < |edges| && 0 <= k < |edges[r]| ensures Edge(g, r, edges[r][k].0) {
      assert ListsWholeRow(Scores(p)[r], edges[r]);
    }
    forall r: nat, c: nat | Edge(g, r, c) ensures exists k :: 0 <= k < |edges[r]| && edges[r][k].0 == c {
      assert ListsWholeRow(Scores(p)[r], edges[r]) && Scores(p)[r][c].Some?;
    }
    forall r: nat, c: nat | Edge(g, r, c) ensures r in reverse[c] {
      assert ScoreAt(p, r, c).Some?;
    }
    forall c, k | 0 <= c < |reverse| && 0 <= k < |reverse[c]| ensures Edge(g, reverse[c][k], c) {
      assert ScoreAt(p, reverse[c][k], c).Some?;
    }
  }

  // ----- The units -----

  function ListTotals(edges: Lists): (totals: seq<int>) {
    seq(|edges|, r requires 0 <= r < |edges| => Sum(ListValues(edges[r])))
  }

  method SumOfScores(edges: Lists) returns (total: int)
    ensures total == Sum(ListTotals(edges))
  {
    hide Sum, ListValues, ListTotals;
    total := 0;
    SumEmpty();
    ListTotalsShape(edges);
    for r := 0 to |edges|
      invariant total == Sum(ListTotals(edges)[..r])
    {
      ghost var before := total;
      var values := ListValues(edges[r]);
      for k := 0 to |values|
        invariant total == before + Sum(values[..k])
      {
        SumPrefix(values, k);
        total := total + values[k];
      }
      assert values[..|values|] == values;
      SumPrefix(ListTotals(edges), r);
    }
    assert ListTotals(edges)[..|edges|] == ListTotals(edges);
  }

  lemma SumEmpty()
    ensures Sum([]) == 0
    ensures forall s: seq<int> {:trigger s[..0]} :: Sum(s[..0]) == 0
  {
  }

  lemma ListTotalsShape(edges: Lists)
    ensures |ListTotals(edges)| == |edges|
    ensures forall r :: 0 <= r < |edges| ==> ListTotals(edges)[r] == Sum(ListValues(edges[r]))
  {
  }

  lemma ScoresSummed(p: Problem, edges: Lists)
    requires ForwardLists(p, edges, |p.candidates|)
    ensures Sum(ListTotals(edges)) + 1 == ScoreUnit(p)
  {
    var g := Scores(p);
    hide EdgeScore, ListsWholeRow, Sum, ListValues, RowTotal;
    ScoresShape(p);
    forall r | 0 <= r < |edges| ensures Sum(ListValues(edges[r])) == RowTotal(g[r]) {
      ListSumsRow(g[r], edges[r]);
    }
    assert ListTotals(edges) == RowTotals(g);
  }

  method TotalPrimaryBytes(p: Problem) returns (total: nat)
    ensures total == PrimaryBytes(p)
  {
    hide Sum, Primary;
    total := 0;
    SumEmpty();
    for i := 0 to |p.candidates|
      invariant total == Sum(PrimarySizes(p)[..i])
    {
      SumPrefix(PrimarySizes(p), i);
      if Primary(p.candidates[i], p.policy) {
        total := total + p.candidates[i].size;
      }
    }
    assert PrimarySizes(p)[..|p.candidates|] == PrimarySizes(p);
  }
}
