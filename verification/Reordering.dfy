/** Decisions do not depend on the order in which candidate files, sources and source files come. */
module Reordering {
  import opened Wrappers
  import opened Sums
  import opened Matching
  import opened Files
  import opened Sorting
  import opened Objective
  import opened Edges
  import opened Components
  import opened Assign
  import opened Decision
  import opened Evaluate
  import Reindex

  // ----- Renumbering the columns of a graph -----

  /** g' is g with column c renumbered to back[c]; at undoes back. */
  ghost predicate Relabelled(g: Graph, g': Graph, columns: nat, at: seq<nat>, back: seq<nat>) {
    && |g| == |g'| && |at| == |back| == columns
    && (forall j :: 0 <= j < columns ==> at[j] < columns && back[at[j]] == j)
    && (forall c :: 0 <= c < columns ==> back[c] < columns && at[back[c]] == c)
    && (forall r :: 0 <= r < |g| ==> |g[r]| == |g'[r]| == columns)
    && (forall r, j :: 0 <= r < |g| && 0 <= j < columns ==> g'[r][j] == g[r][at[j]])
  }

  lemma RelabelledBack(g: Graph, g': Graph, columns: nat, at: seq<nat>, back: seq<nat>)
    requires Relabelled(g, g', columns, at, back)
    ensures Relabelled(g', g, columns, back, at) && |g| == |g'|
  {
  }

  lemma RelabelledEdge(g: Graph, g': Graph, columns: nat, at: seq<nat>, back: seq<nat>, r: nat, j: nat)
    requires Relabelled(g, g', columns, at, back)
    ensures Edge(g', r, j) <==> j < columns && Edge(g, r, at[j])
  {
  }

  ghost function Relabel(m: Pairing, at: seq<nat>): Pairing
    requires forall r :: r in m ==> m[r] < |at|
  {
    map r | r in m :: at[m[r]]
  }

  lemma MatchingInRange(g: Graph, g': Graph, columns: nat, at: seq<nat>, back: seq<nat>, m: Pairing)
    requires Relabelled(g, g', columns, at, back) && IsMatching(g', m)
    ensures forall r :: r in m ==> m[r] < columns && r < |g'|
  {
    forall r | r in m ensures m[r] < columns && r < |g'| {
      assert Edge(g', r, m[r]);
    }
  }

  /** A matching keeps its weight under the renumbering. */
  lemma RelabelMatching(g: Graph, g': Graph, columns: nat, at: seq<nat>, back: seq<nat>, m: Pairing)
    requires Relabelled(g, g', columns, at, back) && IsMatching(g', m)
    ensures forall r :: r in m ==> m[r] < columns
    ensures IsMatching(g, Relabel(m, at)) && Weight(g, Relabel(m, at)) == Weight(g', m)
  {
    MatchingInRange(g, g', columns, at, back, m);
    var n := Relabel(m, at);
    forall r | r in n ensures Edge(g, r, n[r]) {
      RelabelledEdge(g, g', columns, at, back, r, m[r]);
      assert Edge(g', r, m[r]);
    }
    forall r, s | r in n && s in n && r != s ensures n[r] != n[s] {
      assert back[at[m[r]]] == m[r] && back[at[m[s]]] == m[s];
    }
    RelabelGains(g, g', columns, at, back, m);
  }

  lemma RelabelGains(g: Graph, g': Graph, columns: nat, at: seq<nat>, back: seq<nat>, m: Pairing)
    requires Relabelled(g, g', columns, at, back) && IsMatching(g', m)
    requires forall r :: r in m ==> m[r] < columns
    requires IsMatching(g, Relabel(m, at))
    ensures Gains(g, Relabel(m, at)) == Gains(g', m)
  {
    forall r | 0 <= r < |g| ensures Gain(g, Relabel(m, at), r) == Gain(g', m, r) {
    }
  }

  lemma RelabelTwice(m: Pairing, columns: nat, at: seq<nat>, back: seq<nat>)
    requires |at| == |back| == columns
    requires forall c :: 0 <= c < columns ==> at[c] < columns && back[at[c]] == c
    requires forall r :: r in m ==> m[r] < columns
    ensures Relabel(Relabel(m, at), back) == m
  {
  }

  lemma RelabelMaximum(g: Graph, g': Graph, columns: nat, at: seq<nat>, back: seq<nat>, rows: set<nat>, m: Pairing)
    requires Relabelled(g, g', columns, at, back) && Maximum(g', rows, m)
    ensures forall r :: r in m ==> m[r] < columns
    ensures Maximum(g, rows, Relabel(m, at))
  {
    RelabelMatching(g, g', columns, at, back, m);
    RelabelledBack(g, g', columns, at, back);
    forall n | MatchingOn(g, rows, n) ensures Weight(g, n) <= Weight(g, Relabel(m, at)) {
      RelabelMatching(g', g, columns, back, at, n);
      assert MatchingOn(g', rows, Relabel(n, back));
    }
  }

  lemma RelabelAmbiguous(g: Graph, g': Graph, columns: nat, at: seq<nat>, back: seq<nat>, rows: set<nat>)
    requires Relabelled(g, g', columns, at, back) && AmbiguousMaximum(g', rows)
    ensures AmbiguousMaximum(g, rows)
  {
    var m, n :| Maximum(g', rows, m) && Maximum(g', rows, n) && m != n;
    RelabelMaximum(g, g', columns, at, back, rows, m);
    RelabelMaximum(g, g', columns, at, back, rows, n);
    RelabelTwice(m, columns, at, back);
    RelabelTwice(n, columns, at, back);
    assert Relabel(m, at) != Relabel(n, at);
  }

  lemma RelabelUnique(g: Graph, g': Graph, columns: nat, at: seq<nat>, back: seq<nat>, rows: set<nat>, m: Pairing)
    requires Relabelled(g, g', columns, at, back) && UniqueMaximum(g', rows, m)
    ensures forall r :: r in m ==> m[r] < columns
    ensures UniqueMaximum(g, rows, Relabel(m, at))
  {
    RelabelMaximum(g, g', columns, at, back, rows, m);
    RelabelledBack(g, g', columns, at, back);
    forall n | Maximum(g, rows, n) ensures n == Relabel(m, at) {
      RelabelMaximum(g', g, columns, back, at, rows, n);
      MatchingInRange(g', g, columns, back, at, n);
      RelabelTwice(n, columns, back, at);
    }
  }

  // ----- Components under the renumbering -----

  ghost function Preimage(cols: set<nat>, columns: nat, at: seq<nat>): set<nat>
    requires |at| == columns
  {
    set j: nat | j < columns && at[j] in cols
  }

  lemma PreimageClosed(g: Graph, g': Graph, columns: nat, at: seq<nat>, back: seq<nat>, a: set<nat>, b: set<nat>)
    requires Relabelled(g, g', columns, at, back) && Closed(g, a, b)
    ensures Closed(g', a, Preimage(b, columns, at))
  {
    forall r: nat, j: nat | Edge(g', r, j) ensures r in a <==> j in Preimage(b, columns, at) {
      RelabelledEdge(g, g', columns, at, back, r, j);
    }
  }

  lemma RelabelReachedRow(g: Graph, g': Graph, columns: nat, at: seq<nat>, back: seq<nat>, start: nat, r: nat)
    requires Relabelled(g, g', columns, at, back) && Reached(g', start, (true, r))
    ensures Reached(g, start, (true, r))
  {
    forall a, b | Closed(g, a, b) && start in a ensures Member(a, b, (true, r)) {
      PreimageClosed(g, g', columns, at, back, a, b);
      assert Member(a, Preimage(b, columns, at), (true, r));
    }
  }

  lemma RelabelReachedColumn(g: Graph, g': Graph, columns: nat, at: seq<nat>, back: seq<nat>, start: nat, j: nat)
    requires Relabelled(g, g', columns, at, back) && j < columns && Reached(g', start, (false, j))
    ensures Reached(g, start, (false, at[j]))
  {
    forall a, b | Closed(g, a, b) && start in a ensures Member(a, b, (false, at[j])) {
      PreimageClosed(g, g', columns, at, back, a, b);
      assert Member(a, Preimage(b, columns, at), (false, j));
    }
  }

  lemma RelabelReachedRows(g: Graph, g': Graph, columns: nat, at: seq<nat>, back: seq<nat>, start: nat)
    requires Relabelled(g, g', columns, at, back)
    ensures ReachedRows(g', start) == ReachedRows(g, start)
  {
    RelabelledBack(g, g', columns, at, back);
    forall r: nat ensures r in ReachedRows(g', start) <==> r in ReachedRows(g, start) {
      if r in ReachedRows(g', start) {
        RelabelReachedRow(g, g', columns, at, back, start, r);
      }
      if r in ReachedRows(g, start) {
        RelabelReachedRow(g', g, columns, back, at, start, r);
      }
    }
  }

  /** Injective renumbering keeps the size of a set. */
  lemma {:induction false} ImageSize(s: set<nat>, columns: nat, at: seq<nat>, back: seq<nat>, t: set<nat>)
    requires |at| == |back| == columns && forall j :: 0 <= j < columns ==> at[j] < columns && back[at[j]] == j
    requires forall j :: j in s ==> j < columns && at[j] in t
    ensures |s| <= |t|
    decreases s
  {
    if s != {} {
      var j :| j in s;
      forall k | k in s - {j} ensures at[k] in t - {at[j]} {
        assert back[at[k]] == k && back[at[j]] == j;
      }
      ImageSize(s - {j}, columns, at, back, t - {at[j]});
    }
  }

  lemma RelabelReachedColumns(g: Graph, g': Graph, columns: nat, at: seq<nat>, back: seq<nat>, start: nat)
    requires Relabelled(g, g', columns, at, back)
    ensures |ReachedColumns(g', columns, start)| == |ReachedColumns(g, columns, start)|
  {
    RelabelledBack(g, g', columns, at, back);
    var s', s := ReachedColumns(g', columns, start), ReachedColumns(g, columns, start);
    forall j | j in s' ensures j < columns && at[j] in s {
      RelabelReachedColumn(g, g', columns, at, back, start, j);
    }
    forall c | c in s ensures c < columns && back[c] in s' {
      RelabelReachedColumn(g', g, columns, back, at, start, c);
    }
    ImageSize(s', columns, at, back, s);
    ImageSize(s, columns, back, at, s');
  }

  lemma RelabelHasEdge(g: Graph, g': Graph, columns: nat, at: seq<nat>, back: seq<nat>, r: nat)
    requires Relabelled(g, g', columns, at, back)
    ensures HasEdge(g', r) <==> HasEdge(g, r)
  {
    RelabelledBack(g, g', columns, at, back);
    if c: nat :| Edge(g', r, c) {
      RelabelledEdge(g, g', columns, at, back, r, c);
    }
    if c: nat :| Edge(g, r, c) {
      RelabelledEdge(g', g, columns, back, at, r, c);
    }
  }

  /** The verdict does not depend on the numbering of the columns. */
  lemma {:induction false} RelabelRun(g: Graph, g': Graph, columns: nat, at: seq<nat>, back: seq<nat>, policy: Policy,
                                      start: nat, seen: set<nat>, operations: nat)
    requires Relabelled(g, g', columns, at, back) && start <= |g|
    ensures Run(g', columns, policy, start, seen, operations) == Run(g, columns, policy, start, seen, operations)
    decreases |g| - start
  {
    hide AmbiguousMaximum, HasEdge, Charge, ComponentTooBig, ReachedRows, ReachedColumns, Run, Relabelled;
    RunEnds(g, columns, policy, seen, operations);
    RunEnds(g', columns, policy, seen, operations);
    assert |g'| == |g| by {
      RelabelledBack(g, g', columns, at, back);
    }
    if start < |g| {
      RelabelHasEdge(g, g', columns, at, back, start);
      RelabelRun(g, g', columns, at, back, policy, start + 1, seen, operations);
      if start in seen || !HasEdge(g, start) {
        RunSkips(g, columns, policy, start, seen, operations);
        RunSkips(g', columns, policy, start, seen, operations);
      } else {
        var rows, cols := ReachedRows(g, start), ReachedColumns(g, columns, start);
        RelabelReachedRows(g, g', columns, at, back, start);
        RelabelReachedColumns(g, g', columns, at, back, start);
        RelabelAmbiguousBoth(g, g', columns, at, back, rows);
        RunStep(g, columns, policy, start, seen, operations);
        RunStep(g', columns, policy, start, seen, operations);
        RelabelRun(g, g', columns, at, back, policy, start + 1, seen + rows, operations + Charge(|rows|, |cols|));
      }
    }
  }

  lemma RelabelAmbiguousBoth(g: Graph, g': Graph, columns: nat, at: seq<nat>, back: seq<nat>, rows: set<nat>)
    requires Relabelled(g, g', columns, at, back)
    ensures AmbiguousMaximum(g', rows) <==> AmbiguousMaximum(g, rows)
  {
    hide AmbiguousMaximum;
    RelabelledBack(g, g', columns, at, back);
    if AmbiguousMaximum(g', rows) {
      RelabelAmbiguous(g, g', columns, at, back, rows);
    }
    if AmbiguousMaximum(g, rows) {
      RelabelAmbiguous(g', g, columns, back, at, rows);
    }
  }

  lemma RunEnds(g: Graph, columns: nat, policy: Policy, seen: set<nat>, operations: nat)
    ensures Run(g, columns, policy, |g|, seen, operations) == Settled
  {
  }

  lemma RunSkips(g: Graph, columns: nat, policy: Policy, start: nat, seen: set<nat>, operations: nat)
    requires start < |g| && (start in seen || !HasEdge(g, start))
    ensures Run(g, columns, policy, start, seen, operations) == Run(g, columns, policy, start + 1, seen, operations)
  {
    hide HasEdge;
  }

  // ----- Reordering the sources of a problem -----

  ghost predicate SameProblem(p: Problem, p': Problem) {
    && p'.names == p.names && p'.candidates == p.candidates && p'.policy == p.policy && p'.seasonMode == p.seasonMode
    && multiset(p'.sources) == multiset(p.sources)
  }

  lemma {:induction false} SumReordered(a: seq<int>, b: seq<int>)
    requires multiset(a) == multiset(b)
    ensures Sum(a) == Sum(b)
  {
    assert |a| == |multiset(a)| == |multiset(b)| == |b|;
    if |a| > 0 {
      var i := SplitFirst(a, b);
      SumReordered(a[1..], Remove(b, i));
      assert a == [a[0]] + a[1..];
      SumConcat([a[0]], a[1..]);
      SumConcat(b[..i], b[i + 1..]);
      assert b == b[..i] + ([b[i]] + b[i + 1..]);
      SumConcat(b[..i], [b[i]] + b[i + 1..]);
      SumConcat([b[i]], b[i + 1..]);
    }
  }

  /** What one source file scores against candidate i, as a function of the file. */
  function ScoreValue(p: Problem, i: nat): ((SourceId, SourceFile)) -> int
    requires i < |p.candidates|
  {
    (s: (SourceId, SourceFile)) => EdgeValue(EdgeScore(p.names, p.candidates[i], s.1, p.policy, p.seasonMode)) as int
  }

  function ScoreCount(p: Problem, i: nat): ((SourceId, SourceFile)) -> int
    requires i < |p.candidates|
  {
    (s: (SourceId, SourceFile)) => if EdgeScore(p.names, p.candidates[i], s.1, p.policy, p.seasonMode).Some? then 1 else 0
  }

  lemma RowSumsReordered(p: Problem, p': Problem, i: nat)
    requires SameProblem(p, p') && i < |p.candidates|
    ensures RowTotal(Scores(p')[i]) == RowTotal(Scores(p)[i])
    ensures RowTotal(Ones(Scores(p'))[i]) == RowTotal(Ones(Scores(p))[i])
  {
    hide EdgeScore, Sum;
    MapReordered(ScoreValue(p, i), p'.sources, p.sources);
    MapReordered(ScoreCount(p, i), p'.sources, p.sources);
    assert RowValues(Scores(p)[i]) == Map(ScoreValue(p, i), p.sources);
    assert RowValues(Scores(p')[i]) == Map(ScoreValue(p, i), p'.sources);
    assert RowValues(Ones(Scores(p))[i]) == Map(ScoreCount(p, i), p.sources);
    assert RowValues(Ones(Scores(p'))[i]) == Map(ScoreCount(p, i), p'.sources);
    SumReordered(Map(ScoreValue(p, i), p'.sources), Map(ScoreValue(p, i), p.sources));
    SumReordered(Map(ScoreCount(p, i), p'.sources), Map(ScoreCount(p, i), p.sources));
  }

  lemma UnitsReordered(p: Problem, p': Problem)
    requires SameProblem(p, p')
    ensures ScoreUnit(p') == ScoreUnit(p) && RequiredUnit(p') == RequiredUnit(p) && EdgeCount(p') == EdgeCount(p)
  {
    hide EdgeScore, Sum, Scores, Ones, RowTotal, Primary, Times;
    ScoresShape(p);
    ScoresShape(p');
    forall i | 0 <= i < |p.candidates|
      ensures RowTotal(Scores(p')[i]) == RowTotal(Scores(p)[i])
      ensures RowTotal(Ones(Scores(p'))[i]) == RowTotal(Ones(Scores(p))[i])
    {
      RowSumsReordered(p, p', i);
    }
    assert RowTotals(Scores(p')) == RowTotals(Scores(p));
    assert RowTotals(Ones(Scores(p'))) == RowTotals(Ones(Scores(p)));
    assert PrimarySizes(p') == PrimarySizes(p);
  }

  lemma Inverse(at: seq<nat>) returns (back: seq<nat>)
    requires NoRepeats(at) && forall j :: 0 <= j < |at| ==> at[j] < |at|
    requires forall c: nat :: c < |at| ==> c in at
    ensures |back| == |at|
    ensures forall j :: 0 <= j < |at| ==> back[at[j]] == j
    ensures forall c :: 0 <= c < |at| ==> back[c] < |at| && at[back[c]] == c
  {
    back := seq(|at|, c requires 0 <= c < |at| => if c in at then Reindex.Position(at, c) else 0);
    forall j | 0 <= j < |at| ensures back[at[j]] == j {
      Reindex.PositionOf(at, j);
    }
  }

  /** The positions of a reordering, and their inverse. */
  lemma Numbering(p: Problem, p': Problem) returns (at: seq<nat>, back: seq<nat>)
    requires SameProblem(p, p')
    ensures |at| == |p.sources| == |p'.sources|
    ensures forall j :: 0 <= j < |at| ==> at[j] < |at| && p'.sources[j] == p.sources[at[j]]
    ensures Relabelled(Weights(p), Weights(p'), |p.sources|, at, back)
  {
    hide *;
    SameSources(p, p');
    at := Rearrangement(p.sources, p'.sources);
    back := Inverse(at);
    MakeInverses(at, back);
    WeightsFollow(p, p', at, back);
  }

  ghost predicate Inverses(at: seq<nat>, back: seq<nat>) {
    && |back| == |at|
    && (forall j :: 0 <= j < |at| ==> at[j] < |at| && back[at[j]] == j)
    && (forall c :: 0 <= c < |at| ==> back[c] < |at| && at[back[c]] == c)
  }

  lemma MakeInverses(at: seq<nat>, back: seq<nat>)
    requires |back| == |at| && forall j :: 0 <= j < |at| ==> at[j] < |at| && back[at[j]] == j
    requires forall c :: 0 <= c < |at| ==> back[c] < |at| && at[back[c]] == c
    ensures Inverses(at, back)
  {
  }

  lemma SameSources(p: Problem, p': Problem)
    requires SameProblem(p, p')
    ensures multiset(p'.sources) == multiset(p.sources) && p'.candidates == p.candidates
  {
  }

  lemma WeightsFollow(p: Problem, p': Problem, at: seq<nat>, back: seq<nat>)
    requires SameProblem(p, p') && Inverses(at, back) && |at| == |p.sources| == |p'.sources|
    requires forall j :: 0 <= j < |at| ==> at[j] < |at| && p'.sources[j] == p.sources[at[j]]
    ensures Relabelled(Weights(p), Weights(p'), |p.sources|, at, back)
  {
    hide *;
    SameSources(p, p');
    ScoresShape(p);
    ScoresShape(p');
    UnitsReordered(p, p');
    forall r, j | 0 <= r < |p.candidates| && 0 <= j < |at| ensures Weights(p')[r][j] == Weights(p)[r][at[j]] {
      CellReordered(p, p', at, r, j);
    }
    MakeRelabelled(Weights(p), Weights(p'), at, back);
  }

  lemma MakeRelabelled(g: Graph, g': Graph, at: seq<nat>, back: seq<nat>)
    requires |g| == |g'| && Inverses(at, back) && forall j :: 0 <= j < |at| ==> at[j] < |at|
    requires forall r :: 0 <= r < |g| ==> |g[r]| == |g'[r]| == |at|
    requires forall r, j :: 0 <= r < |g| && 0 <= j < |at| ==> g'[r][j] == g[r][at[j]]
    ensures Relabelled(g, g', |at|, at, back)
  {
  }

  lemma CellReordered(p: Problem, p': Problem, at: seq<nat>, r: nat, j: nat)
    requires SameProblem(p, p') && r < |p.candidates| && j < |at| == |p'.sources| == |p.sources|
    requires at[j] < |p.sources| && p'.sources[j] == p.sources[at[j]]
    requires ScoreUnit(p') == ScoreUnit(p) && RequiredUnit(p') == RequiredUnit(p)
    ensures Weights(p')[r][j] == Weights(p)[r][at[j]] && ScoreAt(p', r, j) == ScoreAt(p, r, at[j])
  {
    hide EdgeScore, EdgeWeight, ScoreUnit, RequiredUnit;
  }

  /** Verdict and mappings of a problem do not depend on the order of the source files. */
  lemma ProblemReordered(p: Problem, p': Problem)
    requires SameProblem(p, p')
    ensures OutcomeOf(p') == OutcomeOf(p)
    ensures MappingsOf(p') == MappingsOf(p)
  {
    hide Weights, EdgeCount, Run, MappingsTo, IsTheMaximum, UniqueMaximum;
    var at, back := Numbering(p, p');
    UnitsReordered(p, p');
    ScoresShape(p);
    ScoresShape(p');
    RelabelRun(Weights(p), Weights(p'), |p.sources|, at, back, p.policy, 0, {}, 0);
    RelabelledBack(Weights(p), Weights(p'), |p.sources|, at, back);
    if m' :| IsTheMaximum(p', m') {
      MaximumReordered(p, p', at, back, m');
    } else if m :| IsTheMaximum(p, m) {
      MaximumExistsBack(p, p', at, back, m);
    } else {
      NoMappings(p, |p.candidates|);
      NoMappings(p', |p.candidates|);
    }
  }

  lemma {:induction false} NoMappings(p: Problem, k: nat)
    requires k <= |p.candidates|
    ensures MappingsTo(p, map[], k) == []
  {
    if k > 0 {
      NoMappings(p, k - 1);
    }
  }

  lemma SameRowSets(g: Graph, g': Graph)
    requires |g| == |g'|
    ensures AllRows(g) == AllRows(g')
  {
  }

  lemma MaximumExistsBack(p: Problem, p': Problem, at: seq<nat>, back: seq<nat>, m: Pairing)
    requires Relabelled(Weights(p'), Weights(p), |p.sources|, back, at) && |p'.sources| == |p.sources|
    requires IsTheMaximum(p, m)
    ensures exists m' :: IsTheMaximum(p', m')
  {
    hide Weights, UniqueMaximum;
    RelabelUnique(Weights(p'), Weights(p), |p.sources|, back, at, AllRows(Weights(p)), m);
    SameRowSets(Weights(p), Weights(p'));
    var m' := Relabel(m, back);
    assert IsTheMaximum(p', m');
  }

  lemma MaximumReordered(p: Problem, p': Problem, at: seq<nat>, back: seq<nat>, m': Pairing)
    requires SameProblem(p, p') && Relabelled(Weights(p), Weights(p'), |p.sources|, at, back)
    requires |at| == |p.sources| == |p'.sources|
    requires forall j :: 0 <= j < |at| ==> at[j] < |at| && p'.sources[j] == p.sources[at[j]]
    requires IsTheMaximum(p', m')
    ensures MappingsOf(p') == MappingsOf(p)
  {
    hide Weights, UniqueMaximum, MappingsTo;
    RelabelUnique(Weights(p), Weights(p'), |p.sources|, at, back, AllRows(Weights(p')), m');
    SameRowSets(Weights(p), Weights(p'));
    assert |Weights(p)| == |Weights(p')|;
    var m := Relabel(m', at);
    MaximumIsThe(p', m');
    MaximumIsThe(p, m);
    RowsReordered(p, p', at, m', |p.candidates|);
  }

  lemma {:induction false} RowsReordered(p: Problem, p': Problem, at: seq<nat>, m': Pairing, k: nat)
    requires SameProblem(p, p') && k <= |p.candidates|
    requires |at| == |p.sources| == |p'.sources|
    requires forall j :: 0 <= j < |at| ==> at[j] < |at| && p'.sources[j] == p.sources[at[j]]
    requires forall r :: r in m' ==> m'[r] < |at|
    ensures MappingsTo(p', m', k) == MappingsTo(p, Relabel(m', at), k)
  {
    hide EdgeScore;
    if k > 0 {
      RowsReordered(p, p', at, m', k - 1);
    }
  }

  // ----- Reordering a request -----

  /** The same source, with its files in any order. */
  ghost predicate SameSource(s: Source, s': Source) {
    && s'.id == s.id && s'.kind == s.kind && s'.release == s.release && s'.hashes == s.hashes && s'.available == s.available
    && multiset(s'.files) == multiset(s.files)
  }

  ghost predicate Alike(a: seq<Source>, b: seq<Source>) {
    |a| == |b| && forall i :: 0 <= i < |a| ==> SameSource(a[i], b[i])
  }

  /** q' is q with its candidate files, its sources and the files of each source in another order;
      `shuffled` are q's sources in the order of q'. */
  ghost predicate Reordered(q: Request, q': Request, shuffled: seq<Source>) {
    && q'.names == q.names && q'.release == q.release && q'.policy == q.policy
    && q'.candidate.hashes == q.candidate.hashes && q'.candidate.pieceLength == q.candidate.pieceLength
    && multiset(q'.candidate.files) == multiset(q.candidate.files)
    && multiset(shuffled) == multiset(q.sources) && Alike(shuffled, q'.sources)
  }

  lemma FilterSize<T(!new)>(keep: T -> bool, s: seq<T>, t: seq<T>)
    requires multiset(s) == multiset(t)
    ensures |Filter(keep, s)| == |Filter(keep, t)|
  {
    FilterReordered(keep, s, t);
    assert |Filter(keep, s)| == |multiset(Filter(keep, s))| == |multiset(Filter(keep, t))| == |Filter(keep, t)|;
  }

  lemma EvidenceReordered(q: Request, q': Request, shuffled: seq<Source>)
    requires Reordered(q, q', shuffled)
    ensures BaseEvidence(q') == BaseEvidence(q) && RequiredBytes(q') == RequiredBytes(q)
  {
    hide Filter, Sum;
    var files, files' := q.candidate.files, q'.candidate.files;
    assert |files| == |multiset(files)| == |multiset(files')| == |files'|;
    FilterSize(IsRequired(q.policy), files, files');
    FilterSize(IsPrimary(q.policy), files, files');
    MapReordered(RequiredSize(q.policy), files, files');
    SumReordered(Map(RequiredSize(q.policy), files), Map(RequiredSize(q.policy), files'));
  }

  lemma SafeReordered(q: Request, q': Request, shuffled: seq<Source>)
    requires Reordered(q, q', shuffled) && SafeFiles(q)
    ensures SafeFiles(q')
  {
    hide UnsafePath, PathsClash;
    var files, files' := q.candidate.files, q'.candidate.files;
    MapReordered(Ordinal, files, files');
    ReorderingNoRepeats(Map(Ordinal, files), Map(Ordinal, files'));
    MapReordered(ComposedPath(q.names), files, files');
    ReorderingNoRepeats(Map(ComposedPath(q.names), files), Map(ComposedPath(q.names), files'));
    forall f | f in files' ensures f in files {
      SameElements(files, files', f);
    }
    forall f, h | f in files' && h in files' ensures !PathsClash(q', f, h) {
      ClashSame(q, q', f, h);
    }
  }

  lemma ClashSame(q: Request, q': Request, f: TorrentFile, h: TorrentFile)
    requires q'.names == q.names
    ensures PathsClash(q', f, h) == PathsClash(q, f, h)
  {
  }

  /** Reordering the other way round. */
  lemma ReorderedBack(q: Request, q': Request, shuffled: seq<Source>) returns (shuffled': seq<Source>)
    requires Reordered(q, q', shuffled)
    ensures Reordered(q', q, shuffled')
  {
    var at := Rearrangement(shuffled, q.sources);
    assert |q.sources| == |multiset(q.sources)| == |multiset(shuffled)| == |shuffled|;
    shuffled' := seq(|at|, j requires 0 <= j < |at| => q'.sources[at[j]]);
    forall j | 0 <= j < |at| ensures SameSource(shuffled'[j], q.sources[j]) {
      assert SameSource(shuffled[at[j]], q'.sources[at[j]]);
    }
    PermutedMultiset(q'.sources, shuffled', at);
  }

  lemma {:induction false} PermutedMultiset<T>(s: seq<T>, t: seq<T>, at: seq<nat>)
    requires |at| == |s| == |t| && NoRepeats(at) && forall j :: 0 <= j < |at| ==> at[j] < |s| && t[j] == s[at[j]]
    ensures multiset(t) == multiset(s)
    decreases |s|
  {
    if |s| > 0 {
      var k := |s| - 1;
      var last := at[k];
      var rest := seq(k, j requires 0 <= j < k => if at[j] < last then at[j] else at[j] - 1);
      forall j | 0 <= j < k ensures at[j] != last && rest[j] < k && Remove(s, last)[rest[j]] == t[j] {
      }
      forall i, j | 0 <= i < j < k ensures rest[i] != rest[j] {
        assert at[i] != at[j] && at[i] != last && at[j] != last;
      }
      hide NoRepeats;
      PermutedRest(s, t, last, rest);
      PermutedMultiset(Remove(s, last), t[..k], rest);
    }
  }

  lemma PermutedRest<T>(s: seq<T>, t: seq<T>, last: nat, rest: seq<nat>)
    requires |s| == |t| > 0 && last < |s| && t[|t| - 1] == s[last]
    ensures multiset(t[..|t| - 1]) == multiset(Remove(s, last)) ==> multiset(t) == multiset(s)
  {
    RemoveOne(s, last);
    assert t == t[..|t| - 1] + [t[|t| - 1]];
  }

  lemma ValidReordered(q: Request, q': Request, shuffled: seq<Source>)
    requires Reordered(q, q', shuffled)
    ensures InvalidManifest(q') == InvalidManifest(q)
  {
    hide SafeFiles;
    var shuffled' := ReorderedBack(q, q', shuffled);
    assert |q.candidate.files| == |multiset(q.candidate.files)| == |multiset(q'.candidate.files)| == |q'.candidate.files|;
    if SafeFiles(q) {
      SafeReordered(q, q', shuffled);
    }
    if SafeFiles(q') {
      SafeReordered(q', q, shuffled');
    }
  }

  /** A source of one request has its counterpart in the other. */
  lemma Counterpart(q: Request, q': Request, shuffled: seq<Source>, i: nat) returns (j: nat)
    requires Reordered(q, q', shuffled) && i < |q.sources|
    ensures j < |q'.sources| && SameSource(q.sources[i], q'.sources[j])
  {
    SameElements(q.sources, shuffled, q.sources[i]);
    j :| 0 <= j < |shuffled| && shuffled[j] == q.sources[i];
  }

  lemma PresentReordered(q: Request, q': Request, shuffled: seq<Source>)
    requires Reordered(q, q', shuffled) && Present(q)
    ensures Present(q')
  {
    var i :| 0 <= i < |q.sources| && SameTorrent(q.candidate.hashes, q.sources[i].hashes);
    var j := Counterpart(q, q', shuffled, i);
  }

  lemma QbitReordered(q: Request, q': Request, shuffled: seq<Source>, id: SourceId)
    requires Reordered(q, q', shuffled) && IsQbitSource(q, id)
    ensures IsQbitSource(q', id)
  {
    var i :| 0 <= i < |q.sources| && q.sources[i].id == id && q.sources[i].kind == QbittorrentTorrent;
    var j := Counterpart(q, q', shuffled, i);
  }

  // ----- The sorted sources and candidates -----

  lemma CandidatesReordered(q: Request, q': Request, shuffled: seq<Source>)
    requires Reordered(q, q', shuffled) && NoRepeats(Map(Ordinal, q.candidate.files))
    ensures CandidateFiles(q') == CandidateFiles(q)
  {
    FilterReordered(Unpadded, q.candidate.files, q'.candidate.files);
    FilterKeepsDistinctKeys(Ordinal, Unpadded, q.candidate.files);
    SortForgetsOrder(Ordinal, Filter(Unpadded, q.candidate.files), Filter(Unpadded, q'.candidate.files));
  }

  /** A test that looks at nothing but what alike sources share. */
  ghost predicate Respects(keep: Source -> bool) {
    forall s, s' :: SameSource(s, s') ==> keep(s) == keep(s')
  }

  lemma {:induction false} AlikeFilter(keep: Source -> bool, a: seq<Source>, b: seq<Source>)
    requires Alike(a, b) && Respects(keep)
    ensures Alike(Filter(keep, a), Filter(keep, b))
  {
    hide SameSource, Alike;
    AlikeParts(a, b);
    if |a| > 0 {
      AlikeFilter(keep, a[1..], b[1..]);
      AlikeCons(a[0], b[0], Filter(keep, a[1..]), Filter(keep, b[1..]));
    } else {
      NoneAlike();
    }
  }

  lemma AlikeCons(x: Source, y: Source, a: seq<Source>, b: seq<Source>)
    requires SameSource(x, y) && Alike(a, b)
    ensures Alike([x] + a, [y] + b)
  {
    hide SameSource;
  }

  lemma NoneAlike()
    ensures Alike([], [])
  {
  }

  lemma AlikeParts(a: seq<Source>, b: seq<Source>)
    requires Alike(a, b)
    ensures |a| == |b| && (|a| > 0 ==> SameSource(a[0], b[0]) && Alike(a[1..], b[1..]))
  {
  }

  lemma SameOrder(x: Source, y: Source, s: Source, t: Source)
    requires SameSource(x, y) && SameSource(s, t)
    ensures KeyOrder(SourceKey)(x, s) == KeyOrder(SourceKey)(y, t)
  {
    KeyOrderAt(SourceKey, x, s);
    KeyOrderAt(SourceKey, y, t);
    assert SourceKey(x) == SourceKey(y) && SourceKey(s) == SourceKey(t);
  }

  lemma {:induction false} AlikeInsert(x: Source, y: Source, a: seq<Source>, b: seq<Source>)
    requires SameSource(x, y) && Alike(a, b)
    ensures Alike(Insert(x, a, KeyOrder(SourceKey)), Insert(y, b, KeyOrder(SourceKey)))
  {
    hide SameSource, Alike, KeyOrder;
    AlikeParts(a, b);
    AlikeCons(x, y, a, b);
    if |a| > 0 {
      SameOrder(x, y, a[0], b[0]);
      AlikeInsert(x, y, a[1..], b[1..]);
      AlikeCons(a[0], b[0], Insert(x, a[1..], KeyOrder(SourceKey)), Insert(y, b[1..], KeyOrder(SourceKey)));
    }
  }

  lemma {:induction false} AlikeSort(a: seq<Source>, b: seq<Source>)
    requires Alike(a, b)
    ensures Alike(SortByKey(SourceKey, a), SortByKey(SourceKey, b))
  {
    if |a| > 0 {
      hide Insert;
      assert SameSource(a[0], b[0]);
      AlikeSort(a[1..], b[1..]);
      AlikeInsert(a[0], b[0], SortByKey(SourceKey, a[1..]), SortByKey(SourceKey, b[1..]));
    }
  }

  lemma SourcesReordered(q: Request, q': Request, shuffled: seq<Source>)
    requires Reordered(q, q', shuffled) && NoRepeats(Map(SourceKey, q.sources))
    ensures Alike(SortedSources(q), SortedSources(q'))
  {
    FilterReordered(Available, q.sources, shuffled);
    FilterKeepsDistinctKeys(SourceKey, Available, q.sources);
    SortForgetsOrder(SourceKey, Filter(Available, q.sources), Filter(Available, shuffled));
    assert Respects(Available);
    AlikeFilter(Available, shuffled, q'.sources);
    AlikeSort(Filter(Available, shuffled), Filter(Available, q'.sources));
  }

  lemma BudgetReordered(q: Request, q': Request, shuffled: seq<Source>)
    requires Reordered(q, q', shuffled)
    ensures InputOverBudget(q') == InputOverBudget(q)
  {
    hide Filter, Sum;
    FilterSize(Unpadded, q.candidate.files, q'.candidate.files);
    FilterReordered(Available, q.sources, shuffled);
    MapReordered(FileCount, Filter(Available, q.sources), Filter(Available, shuffled));
    SumReordered(Map(FileCount, Filter(Available, q.sources)), Map(FileCount, Filter(Available, shuffled)));
    assert Respects(Available);
    AlikeFilter(Available, shuffled, q'.sources);
    var a, b := Filter(Available, shuffled), Filter(Available, q'.sources);
    forall i | 0 <= i < |a| ensures FileCount(a[i]) == FileCount(b[i]) {
      assert SameSource(a[i], b[i]);
      assert |a[i].files| == |multiset(a[i].files)| == |multiset(b[i].files)| == |b[i].files|;
    }
    assert Map(FileCount, a) == Map(FileCount, b);
  }

  // ----- The decision on given mappings -----

  lemma {:induction false} FilterSame<T(!new)>(keep: T -> bool, keep': T -> bool, s: seq<T>)
    requires forall x :: x in s ==> keep(x) == keep'(x)
    ensures Filter(keep, s) == Filter(keep', s)
  {
    if |s| > 0 {
      FilterSame(keep, keep', s[1..]);
    }
  }

  lemma FirstTwoDiffer(keys: seq<int>)
    requires NoRepeats(keys)
    ensures |keys| > 1 ==> keys[0] != keys[1]
  {
  }

  lemma AtMostOne(keys: seq<int>, x: int)
    requires NoRepeats(keys) && forall k :: 0 <= k < |keys| ==> keys[k] == x
    ensures |keys| <= 1
  {
    FirstTwoDiffer(keys);
    hide NoRepeats;
  }

  lemma ByOrdinalReordered(q: Request, q': Request, shuffled: seq<Source>, ordinal: nat)
    requires Reordered(q, q', shuffled) && NoRepeats(Map(Ordinal, q.candidate.files))
    ensures Filter(ByOrdinal(ordinal), q'.candidate.files) == Filter(ByOrdinal(ordinal), q.candidate.files)
  {
    var a, b := Filter(ByOrdinal(ordinal), q.candidate.files), Filter(ByOrdinal(ordinal), q'.candidate.files);
    FilterReordered(ByOrdinal(ordinal), q.candidate.files, q'.candidate.files);
    FilterKeepsDistinctKeys(Ordinal, ByOrdinal(ordinal), q.candidate.files);
    assert forall x :: x in a ==> ByOrdinal(ordinal)(x);
    hide Filter;
    var keys := Map(Ordinal, a);
    forall k | 0 <= k < |a| ensures keys[k] == ordinal {
      assert a[k] in a;
    }
    AtMostOne(keys, ordinal);
    assert |a| == |multiset(a)| == |multiset(b)| == |b|;
    if |a| == 1 {
      SameElements(a, b, b[0]);
      assert b[0] in a;
      assert b == [b[0]] && a == [a[0]];
    }
  }

  lemma SelectedReordered(q: Request, q': Request, shuffled: seq<Source>, test: TorrentFile -> bool, mappings: seq<FileMapping>)
    requires Reordered(q, q', shuffled) && NoRepeats(Map(Ordinal, q.candidate.files))
    ensures Selected(q', test, mappings) == Selected(q, test, mappings)
  {
    hide Filter;
    forall f | f in mappings ensures FileWith(q', f.ordinal, test) == FileWith(q, f.ordinal, test) {
      ByOrdinalReordered(q, q', shuffled, f.ordinal);
    }
    FilterSame((f: FileMapping) => FileWith(q, f.ordinal, test), (f: FileMapping) => FileWith(q', f.ordinal, test), mappings);
  }

  lemma DecideReordered(q: Request, q': Request, shuffled: seq<Source>, mode: Mode, mappings: seq<FileMapping>, n: nat)
    requires Reordered(q, q', shuffled) && NoRepeats(Map(Ordinal, q.candidate.files))
    ensures Decide(q', mode, mappings, n) == Decide(q, mode, mappings, n)
  {
    hide Filter, Sum, Selected, BaseEvidence, RequiredBytes, SourceIds, IsQbitSource;
    EvidenceReordered(q, q', shuffled);
    SelectedReordered(q, q', shuffled, IsRequired(q.policy), mappings);
    SelectedReordered(q, q', shuffled, IsPrimary(q.policy), mappings);
    var shuffled' := ReorderedBack(q, q', shuffled);
    var ids := SourceIds(mappings);
    forall id | id in ids ensures IsQbitSource(q', id) == IsQbitSource(q, id) {
      if IsQbitSource(q, id) {
        QbitReordered(q, q', shuffled, id);
      }
      if IsQbitSource(q', id) {
        QbitReordered(q', q, shuffled', id);
      }
    }
    FilterSame((id: SourceId) => IsQbitSource(q, id), (id: SourceId) => IsQbitSource(q', id), ids);
  }

  // ----- The evaluations -----

  /** What evaluations read of the request agrees. */
  ghost predicate Agree(q: Request, q': Request) {
    && q'.names == q.names && q'.release == q.release && q'.policy == q.policy
    && CandidateFiles(q') == CandidateFiles(q)
    && forall mode, mappings, n :: Decide(q', mode, mappings, n) == Decide(q, mode, mappings, n)
  }

  lemma ReorderedAgree(q: Request, q': Request, shuffled: seq<Source>)
    requires Reordered(q, q', shuffled) && NoRepeats(Map(Ordinal, q.candidate.files))
    ensures Agree(q, q')
  {
    CandidatesReordered(q, q', shuffled);
    forall mode, mappings, n ensures Decide(q', mode, mappings, n) == Decide(q, mode, mappings, n) {
      DecideReordered(q, q', shuffled, mode, mappings, n);
    }
  }

  lemma FailureSame(q: Request, q': Request, a: seq<(SourceId, SourceFile)>, b: seq<(SourceId, SourceFile)>)
    requires Agree(q, q') && multiset(a) == multiset(b)
    ensures FailureReason(q', b) == FailureReason(q, a)
  {
    hide Required, SizeConflict, CandidateFiles, Decide;
    var mine := CandidateFiles(q);
    forall j | 0 <= j < |a| ensures a[j] in b {
      SameElements(a, b, a[j]);
    }
    forall j | 0 <= j < |b| ensures b[j] in a {
      SameElements(a, b, b[j]);
    }
  }

  lemma JudgedSame(q: Request, q': Request, s: Source, s': Source, mappings: seq<FileMapping>)
    requires Agree(q, q') && SameSource(s, s')
    ensures JudgeSource(q', s', mappings) == JudgeSource(q, s, mappings)
  {
    hide CandidateFiles, Decide, Required, Primary, FailureReason, Tagged, Filter, Maps, MapsExactly;
    TaggedSame(s, s');
    FailureSame(q, q', Tagged(s), Tagged(s'));
    assert AllRequired(q', mappings) == AllRequired(q, mappings);
    assert AllExact(q', mappings) == AllExact(q, mappings);
    PrimarySame(q, q', mappings);
  }

  lemma PrimarySame(q: Request, q': Request, mappings: seq<FileMapping>)
    requires Agree(q, q')
    ensures AnyPrimary(q', mappings) == AnyPrimary(q, mappings)
  {
    hide CandidateFiles, Decide, Primary, Filter;
    forall i | 0 <= i < |mappings| ensures MapsPrimary(q', mappings[i]) == MapsPrimary(q, mappings[i]) {
    }
  }

  lemma TaggedSame(s: Source, s': Source)
    requires SameSource(s, s')
    ensures multiset(Tagged(s')) == multiset(Tagged(s))
  {
    MapReordered(TagWith(s.id), s'.files, s.files);
  }

  lemma SourceSame(q: Request, q': Request, s: Source, s': Source)
    requires Agree(q, q') && SameSource(s, s')
    ensures SourceEvaluated(q', s') == SourceEvaluated(q, s)
  {
    hide CandidateFiles, Decide, JudgeSource, Tagged, OutcomeOf, MappingsOf, Incompatible;
    TaggedSame(s, s');
    ProblemReordered(SourceProblem(q, s), SourceProblem(q', s'));
    JudgedSame(q, q', s, s', MappingsOf(SourceProblem(q, s)));
  }

  lemma {:induction false} ConcatSame(a: seq<Source>, b: seq<Source>)
    requires Alike(a, b)
    ensures multiset(Concat(Map(Tagged, a))) == multiset(Concat(Map(Tagged, b)))
  {
    if |a| > 0 {
      hide Tagged;
      assert SameSource(a[0], b[0]);
      TaggedSame(a[0], b[0]);
      ConcatSame(a[1..], b[1..]);
      assert Map(Tagged, a)[1..] == Map(Tagged, a[1..]) && Map(Tagged, b)[1..] == Map(Tagged, b[1..]);
    }
  }

  lemma SeasonSame(q: Request, q': Request, a: seq<Source>, b: seq<Source>)
    requires Agree(q, q') && Alike(a, b)
    ensures SeasonEvaluated(q', b) == SeasonEvaluated(q, a)
  {
    hide CandidateFiles, Decide, OutcomeOf, MappingsOf, Incompatible, Filter, AnyPrimary, Concat;
    assert Respects(EpisodeOf(q.release));
    AlikeFilter(EpisodeOf(q.release), a, b);
    ConcatSame(Filter(EpisodeOf(q.release), a), Filter(EpisodeOf(q.release), b));
    var x, y := EpisodeFiles(q, a), EpisodeFiles(q', b);
    assert |x| == |multiset(x)| == |multiset(y)| == |y|;
    ProblemReordered(SeasonProblem(q, a), SeasonProblem(q', b));
    PrimarySame(q, q', MappingsOf(SeasonProblem(q, a)));
  }

  lemma EvaluationsSame(q: Request, q': Request, a: seq<Source>, b: seq<Source>)
    requires Agree(q, q') && Alike(a, b)
    ensures Evaluations(q', b) == Evaluations(q, a)
  {
    hide CandidateFiles, Decide, SourceEvaluated, SeasonEvaluated;
    forall i | 0 <= i < |a| ensures SourceEvaluated(q', b[i]) == SourceEvaluated(q, a[i]) {
      SourceSame(q, q', a[i], b[i]);
    }
    SeasonSame(q, q', a, b);
  }

  /** The decision is the same under any reordering of the candidate's files, of the sources and of
      the files inside each source, as long as source identities are distinct. */
  lemma DecisionIgnoresOrder(q: Request, q': Request, shuffled: seq<Source>)
    requires Reordered(q, q', shuffled) && NoRepeats(Map(SourceKey, q.sources))
    ensures Evaluated(q') == Evaluated(q)
  {
    hide InvalidManifest, Evaluations, RequiredBytes, InputOverBudget, SortedSources, Choose, BaseEvidence, Present, Reordered, Alike;
    var shuffled' := ReorderedBack(q, q', shuffled);
    EvidenceReordered(q, q', shuffled);
    ValidReordered(q, q', shuffled);
    if Present(q) {
      PresentReordered(q, q', shuffled);
    }
    if Present(q') {
      PresentReordered(q', q, shuffled');
    }
    BudgetReordered(q, q', shuffled);
    if InvalidManifest(q) == None {
      ValidDistinct(q);
      SourcesReordered(q, q', shuffled);
      ReorderedAgree(q, q', shuffled);
      EvaluationsSame(q, q', SortedSources(q), SortedSources(q'));
    }
  }

  lemma ValidDistinct(q: Request)
    requires InvalidManifest(q) == None
    ensures NoRepeats(Map(Ordinal, q.candidate.files))
  {
    hide UnsafePath, PathsClash;
  }
}
