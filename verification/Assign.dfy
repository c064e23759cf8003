/** The assignment of candidate files to source files: component by component, each solved to
    optimality, with an operation budget charged before the work and ambiguity refused. */
module Assign {
  import opened Wrappers
  import opened Sums
  import opened Matching
  import opened Sorting
  import opened Files
  import opened Objective
  import opened Reindex
  import opened Edges
  import opened Components
  import opened Ledgers
  import OptimalAssignment
  import Hungarian

  // ----- What the assignment should be -----

  datatype Outcome = OverBudget | Ambiguous | Settled

  ghost predicate HasEdge(g: Graph, r: nat) {
    exists c: nat :: Edge(g, r, c)
  }

  /** The node is in every closed part that holds the start. */
  ghost predicate Reached(g: Graph, start: nat, x: Node) {
    forall a, b :: Closed(g, a, b) && start in a ==> Member(a, b, x)
  }

  ghost function ReachedRows(g: Graph, start: nat): set<nat> {
    set r: nat | r < |g| && Reached(g, start, (true, r))
  }

  ghost function ReachedColumns(g: Graph, columns: nat, start: nat): set<nat> {
    set c: nat | c < columns && Reached(g, start, (false, c))
  }

  /** The search finds exactly the nodes that every closed part holding the start must hold. */
  lemma ComponentIsReached(g: Graph, columns: nat, start: nat, rows: set<nat>, cols: set<nat>)
    requires IsComponent(g, columns, start, rows, cols)
    ensures rows == ReachedRows(g, start) && cols == ReachedColumns(g, columns, start)
  {
    forall r: nat ensures r in rows <==> r < |g| && Reached(g, start, (true, r)) {
      if Reached(g, start, (true, r)) {
        assert Member(rows, cols, (true, r));
      }
    }
    forall c: nat ensures c in cols <==> c < columns && Reached(g, start, (false, c)) {
      if Reached(g, start, (false, c)) {
        assert Member(rows, cols, (false, c));
      }
    }
  }

  /** Operations charged for a component: solves, times rows squared, times columns with dummies. */
  ghost function Charge(rows: nat, cols: nat): nat {
    Times(OptimalAssignment.Alternatives(rows, cols), OptimalAssignment.SolveCells(rows, cols))
  }

  ghost predicate ComponentTooBig(policy: Policy, rows: nat, cols: nat) {
    rows + cols > policy.maxAssignmentComponentFiles || rows + cols > policy.maxAssignmentFiles
  }

  /** The verdict from candidate `start` on: the first component that is too big, too costly or
      ambiguous decides. */
  ghost function Run(g: Graph, columns: nat, policy: Policy, start: nat, seen: set<nat>, operations: nat): Outcome
    requires start <= |g|
    decreases |g| - start
  {
    if start == |g| then Settled
    else if start in seen || !HasEdge(g, start) then Run(g, columns, policy, start + 1, seen, operations)
    else
      var rows, cols := ReachedRows(g, start), ReachedColumns(g, columns, start);
      if ComponentTooBig(policy, |rows|, |cols|) then OverBudget
      else if operations + Charge(|rows|, |cols|) > policy.maxAssignmentOperations then OverBudget
      else if AmbiguousMaximum(g, rows) then Ambiguous
      else Run(g, columns, policy, start + 1, seen + rows, operations + Charge(|rows|, |cols|))
  }

  predicate TooManyFiles(p: Problem) {
    || |p.candidates| > p.policy.maxAssignmentFiles
    || |p.sources| > p.policy.maxAssignmentFiles - |p.candidates|
  }

  ghost function OutcomeOf(p: Problem): Outcome {
    if TooManyFiles(p) then OverBudget
    else if EdgeCount(p) > p.policy.maxCandidateEdges then OverBudget
    else
      ScoresShape(p);
      Run(Weights(p), |p.sources|, p.policy, 0, {}, 0)
  }

  /** The weights of a problem within its file and edge budgets leave the solver room. */
  ghost predicate ObjectiveFits(p: Problem, cap: nat) {
    !TooManyFiles(p) && EdgeCount(p) <= p.policy.maxCandidateEdges ==> OptimalAssignment.WeightsFit(Weights(p), cap)
  }

  // ----- The matrices of one component -----

  method Positions(columns: seq<nat>) returns (positions: map<nat, nat>)
    requires NoRepeats(columns)
    ensures forall j :: 0 <= j < |columns| ==> columns[j] in positions && positions[columns[j]] == j
  {
    positions := map[];
    for j := 0 to |columns|
      invariant forall k :: 0 <= k < j ==> columns[k] in positions && positions[columns[k]] == k
    {
      positions := positions[columns[j] := j];
    }
  }

  ghost predicate Listed(list: seq<(nat, nat)>, k: nat, c: nat)
    requires k <= |list|
  {
    exists l :: 0 <= l < k && list[l].0 == c
  }

  lemma ListedStep(list: seq<(nat, nat)>, k: nat, c: nat)
    requires k < |list|
    ensures Listed(list, k + 1, c) <==> Listed(list, k, c) || list[k].0 == c
  {
  }

  /** One row of the score and weight matrices of a component. */
  method ComponentRow(p: Problem, i: nat, list: seq<(nat, nat)>, columns: seq<nat>, positions: map<nat, nat>,
                      scoreUnit: nat, requiredUnit: nat)
    returns (raw: seq<Option<nat>>, weights: seq<Option<nat>>)
    requires i < |p.candidates| && ListsWholeRow(Scores(p)[i], list)
    requires NoRepeats(columns) && forall j :: 0 <= j < |columns| ==> columns[j] < |p.sources|
    requires forall j :: 0 <= j < |columns| ==> columns[j] in positions && positions[columns[j]] == j
    requires forall k :: 0 <= k < |list| ==> list[k].0 in columns
    requires scoreUnit == ScoreUnit(p) && requiredUnit == RequiredUnit(p)
    ensures |raw| == |weights| == |columns|
    ensures forall j :: 0 <= j < |columns| ==> raw[j] == ScoreAt(p, i, columns[j]) && weights[j] == WeightAt(p, i, columns[j])
  {
    hide EdgeScore, EdgeWeight, ScoreUnit, RequiredUnit, Listed;
    raw, weights := seq(|columns|, _ => None), seq(|columns|, _ => None);
    NothingListed(list);
    for k := 0 to |list|
      invariant |raw| == |weights| == |columns|
      invariant forall j :: 0 <= j < |columns| ==>
                  raw[j] == (if Listed(list, k, columns[j]) then ScoreAt(p, i, columns[j]) else None)
      invariant forall j :: 0 <= j < |columns| ==>
                  weights[j] == (if Listed(list, k, columns[j]) then WeightAt(p, i, columns[j]) else None)
    {
      var (source, value) := list[k];
      var column := positions[source];
      assert Scores(p)[i][source] == Some(value) == ScoreAt(p, i, source);
      forall j | 0 <= j < |columns| ensures Listed(list, k + 1, columns[j]) <==> Listed(list, k, columns[j]) || j == column {
        ListedStep(list, k, columns[j]);
      }
      raw := raw[column := Some(value)];
      weights := weights[column := Some(EdgeWeight(p.policy, scoreUnit, requiredUnit, p.candidates[i], value))];
    }
    forall j | 0 <= j < |columns|
      ensures Listed(list, |list|, columns[j]) || ScoreAt(p, i, columns[j]) == None
    {
      WholeRowListed(p, i, list, columns[j]);
    }
  }

  lemma NothingListed(list: seq<(nat, nat)>)
    ensures forall c :: !Listed(list, 0, c)
  {
  }

  lemma WholeRowListed(p: Problem, i: nat, list: seq<(nat, nat)>, c: nat)
    requires i < |p.candidates| && ListsWholeRow(Scores(p)[i], list) && c < |p.sources|
    ensures Listed(list, |list|, c) || ScoreAt(p, i, c) == None
  {
    assert Scores(p)[i][c] == ScoreAt(p, i, c);
  }

  /** The scores of the component, in its own numbering. */
  ghost predicate RawScores(p: Problem, candidates: seq<nat>, sources: seq<nat>, raw: Graph) {
    && |raw| == |candidates|
    && (forall i :: 0 <= i < |candidates| ==> candidates[i] < |p.candidates| && |raw[i]| == |sources|)
    && (forall j :: 0 <= j < |sources| ==> sources[j] < |p.sources|)
    && (forall i, j :: 0 <= i < |candidates| && 0 <= j < |sources| ==> raw[i][j] == ScoreAt(p, candidates[i], sources[j]))
  }

  /** The score and weight matrices of a component, in its own numbering. */
  method ComponentMatrices(p: Problem, edges: Lists, candidates: seq<nat>, sources: seq<nat>, scoreUnit: nat, requiredUnit: nat)
    returns (raw: Graph, weights: Graph)
    requires ForwardLists(p, edges, |p.candidates|)
    requires NoRepeats(candidates) && NoRepeats(sources)
    requires forall i :: 0 <= i < |candidates| ==> candidates[i] < |p.candidates|
    requires forall j :: 0 <= j < |sources| ==> sources[j] < |p.sources|
    requires forall r: nat, c: nat :: r in candidates && Edge(Weights(p), r, c) ==> c in sources
    requires scoreUnit == ScoreUnit(p) && requiredUnit == RequiredUnit(p)
    ensures Compact(Weights(p), candidates, sources, weights)
    ensures RawScores(p, candidates, sources, raw)
  {
    hide EdgeScore, EdgeWeight, ScoreUnit, RequiredUnit, ListsWholeRow, ScoreAt, WeightAt, Scores, Weights, Compact;
    var positions := Positions(sources);
    raw, weights := [], [];
    for row := 0 to |candidates|
      invariant |raw| == |weights| == row
      invariant forall i :: 0 <= i < row ==> |raw[i]| == |weights[i]| == |sources|
      invariant forall i, j :: 0 <= i < row && 0 <= j < |sources| ==> raw[i][j] == ScoreAt(p, candidates[i], sources[j])
      invariant forall i, j :: 0 <= i < row && 0 <= j < |sources| ==> weights[i][j] == WeightAt(p, candidates[i], sources[j])
    {
      var candidate := candidates[row];
      RowStaysInside(p, candidate, edges[candidate], sources);
      var rawRow, weightRow := ComponentRow(p, candidate, edges[candidate], sources, positions, scoreUnit, requiredUnit);
      raw, weights := raw + [rawRow], weights + [weightRow];
    }
    MatricesCompact(p, candidates, sources, weights);
  }

  lemma RowStaysInside(p: Problem, r: nat, list: seq<(nat, nat)>, sources: seq<nat>)
    requires r < |p.candidates| && ListsWholeRow(Scores(p)[r], list)
    requires forall c: nat :: Edge(Weights(p), r, c) ==> c in sources
    ensures forall k :: 0 <= k < |list| ==> list[k].0 in sources
  {
    hide EdgeScore, EdgeWeight;
    forall k | 0 <= k < |list| ensures list[k].0 in sources {
      SameEdges(p, r, list[k].0);
      assert Edge(Scores(p), r, list[k].0);
    }
  }

  lemma MatricesCompact(p: Problem, candidates: seq<nat>, sources: seq<nat>, weights: Graph)
    requires NoRepeats(candidates) && NoRepeats(sources) && |weights| == |candidates|
    requires forall i :: 0 <= i < |candidates| ==> candidates[i] < |p.candidates| && |weights[i]| == |sources|
    requires forall j :: 0 <= j < |sources| ==> sources[j] < |p.sources|
    requires forall i, j :: 0 <= i < |candidates| && 0 <= j < |sources| ==>
               weights[i][j] == WeightAt(p, candidates[i], sources[j])
    requires forall r: nat, c: nat :: r in candidates && Edge(Weights(p), r, c) ==> c in sources
    ensures Compact(Weights(p), candidates, sources, weights)
  {
    hide WeightAt;
  }

  // ----- The pairs -----

  /** A candidate index, a source index and the score of the pair. */
  type Triple = (nat, nat, nat)

  /** The triples list exactly the matching, each candidate once, with its score. */
  ghost predicate ListsTriples(p: Problem, pairs: seq<Triple>, m: Pairing) {
    && (forall i, j :: 0 <= i < j < |pairs| ==> pairs[i].0 != pairs[j].0)
    && (forall i :: 0 <= i < |pairs| ==>
          && pairs[i].0 in m && m[pairs[i].0] == pairs[i].1
          && pairs[i].0 < |p.candidates| && pairs[i].1 < |p.sources|
          && ScoreAt(p, pairs[i].0, pairs[i].1) == Some(pairs[i].2))
    && (forall r :: r in m ==> exists i :: 0 <= i < |pairs| && pairs[i].0 == r)
  }

  lemma TriplesAppend(p: Problem, pairs: seq<Triple>, m: Pairing, more: seq<Triple>, n: Pairing)
    requires ListsTriples(p, pairs, m) && ListsTriples(p, more, n) && m.Keys !! n.Keys
    ensures ListsTriples(p, pairs + more, m + n)
  {
    hide EdgeScore, ScoreAt;
    var all := pairs + more;
    forall r | r in m + n ensures exists i :: 0 <= i < |all| && all[i].0 == r {
      if r in n {
        var i :| 0 <= i < |more| && more[i].0 == r;
        assert all[|pairs| + i].0 == r;
      } else {
        var i :| 0 <= i < |pairs| && pairs[i].0 == r;
        assert all[i].0 == r;
      }
    }
  }

  /** The selected pairs of a component, back in the numbering of the problem. */
  method ComponentTriples(p: Problem, candidates: seq<nat>, sources: seq<nat>, raw: Graph, weights: Graph,
                          selected: seq<(nat, nat)>, ghost n: Pairing)
    returns (pairs: seq<Triple>)
    requires Compact(Weights(p), candidates, sources, weights)
    requires IsMatching(weights, n) && OptimalAssignment.Lists(selected, n)
    requires forall k :: k in n ==> n[k] < |sources|
    requires RawScores(p, candidates, sources, raw)
    ensures ListsTriples(p, pairs, Lift(candidates, sources, n))
  {
    hide EdgeScore, ScoreAt, Lift, Weights;
    pairs := [];
    SelectedInRange(p, candidates, sources, weights, selected, n);
    for k := 0 to |selected|
      invariant |pairs| == k
      invariant forall i :: 0 <= i < k ==>
                  && pairs[i].0 == candidates[selected[i].0] && pairs[i].1 == sources[selected[i].1]
                  && ScoreAt(p, candidates[selected[i].0], sources[selected[i].1]) == Some(pairs[i].2)
    {
      var (row, column) := selected[k];
      pairs := pairs + [(candidates[row], sources[column], raw[row][column].value)];
    }
    TriplesOfLift(p, candidates, sources, weights, selected, n, pairs);
  }

  /** Selected positions lie in the component and are edges. */
  lemma SelectedInRange(p: Problem, candidates: seq<nat>, sources: seq<nat>, weights: Graph, selected: seq<(nat, nat)>, n: Pairing)
    requires Compact(Weights(p), candidates, sources, weights)
    requires IsMatching(weights, n) && OptimalAssignment.Lists(selected, n)
    ensures forall i :: 0 <= i < |selected| ==>
              && selected[i].0 < |candidates| && selected[i].1 < |sources|
              && candidates[selected[i].0] < |p.candidates| && sources[selected[i].1] < |p.sources|
              && ScoreAt(p, candidates[selected[i].0], sources[selected[i].1]).Some?
  {
    hide EdgeScore, EdgeWeight;
    forall i | 0 <= i < |selected|
      ensures selected[i].0 < |candidates| && selected[i].1 < |sources|
      ensures candidates[selected[i].0] < |p.candidates| && sources[selected[i].1] < |p.sources|
      ensures ScoreAt(p, candidates[selected[i].0], sources[selected[i].1]).Some?
    {
      var (row, column) := selected[i];
      assert Edge(weights, row, n[row]);
      SameEdges(p, candidates[row], sources[column]);
      assert Edge(Weights(p), candidates[row], sources[column]);
    }
  }

  lemma TriplesOfLift(p: Problem, candidates: seq<nat>, sources: seq<nat>, weights: Graph,
                      selected: seq<(nat, nat)>, n: Pairing, pairs: seq<Triple>)
    requires Compact(Weights(p), candidates, sources, weights)
    requires IsMatching(weights, n) && OptimalAssignment.Lists(selected, n)
    requires forall k :: k in n ==> n[k] < |sources|
    requires |pairs| == |selected|
    requires forall i :: 0 <= i < |selected| ==>
               && selected[i].0 < |candidates| && selected[i].1 < |sources|
               && candidates[selected[i].0] < |p.candidates| && sources[selected[i].1] < |p.sources|
               && pairs[i].0 == candidates[selected[i].0] && pairs[i].1 == sources[selected[i].1]
               && ScoreAt(p, candidates[selected[i].0], sources[selected[i].1]) == Some(pairs[i].2)
    ensures ListsTriples(p, pairs, Lift(candidates, sources, n))
  {
    hide EdgeScore, ScoreAt, Weights, Lift;
    var m := Lift(candidates, sources, n);
    forall i | 0 <= i < |pairs| ensures pairs[i].0 in m && m[pairs[i].0] == pairs[i].1 {
      OptimalAssignment.ListsAt(selected, n, i);
      LiftAt(Weights(p), candidates, sources, weights, n, selected[i].0);
    }
    forall r | r in m ensures exists i :: 0 <= i < |pairs| && pairs[i].0 == r {
      LiftKey(candidates, sources, n, r);
      var row := Position(candidates, r);
      assert (row, n[row]) in selected;
      var i :| 0 <= i < |selected| && selected[i] == (row, n[row]);
      assert pairs[i].0 == r;
    }
    forall i, j | 0 <= i < j < |pairs| ensures pairs[i].0 != pairs[j].0 {
      assert selected[i].0 < selected[j].0;
    }
  }

  lemma LiftKey(rows: seq<nat>, columns: seq<nat>, n: Pairing, r: nat)
    requires forall i :: i in n ==> n[i] < |columns|
    requires r in Lift(rows, columns, n)
    ensures r in rows && Position(rows, r) in n
  {
  }

  // ----- One component -----

  lemma DistinctSize(s: seq<nat>)
    requires NoRepeats(s)
    ensures |Elements(s)| == |s|
  {
    if |s| > 0 {
      var rest := s[..|s| - 1];
      DistinctSize(rest);
      assert Elements(s) == Elements(rest) + {s[|s| - 1]};
    }
  }

  /** Solve a component that fits the budget. */
  method SolveOne(p: Problem, edges: Lists, candidates: seq<nat>, sources: seq<nat>, scoreUnit: nat, requiredUnit: nat,
                  ghost start: nat, ghost cap: nat)
    returns (ambiguous: bool, pairs: seq<Triple>, ghost m: Pairing, ghost cells: nat, ghost ledger: Ledger)
    requires ForwardLists(p, edges, |p.candidates|) && OptimalAssignment.WeightsFit(Weights(p), cap)
    requires IsComponent(Weights(p), |p.sources|, start, Elements(candidates), Elements(sources))
    requires NoRepeats(candidates) && NoRepeats(sources)
    requires scoreUnit == ScoreUnit(p) && requiredUnit == RequiredUnit(p)
    ensures ambiguous ==> AmbiguousMaximum(Weights(p), Elements(candidates))
    ensures !ambiguous ==> UniqueMaximum(Weights(p), Elements(candidates), m) && ListsTriples(p, pairs, m)
    ensures cells <= Charge(|candidates|, |sources|)
    ensures OptimalAssignment.SolveWithin(ledger, |candidates|, |sources|, cap)
  {
    hide *;
    ComponentInside(p, start, candidates, sources);
    var raw, weights := ComponentMatrices(p, edges, candidates, sources, scoreUnit, requiredUnit);
    WeightsPositive(p);
    CompactFits(Weights(p), candidates, sources, weights, cap);
    var selected;
    ghost var n;
    ambiguous, selected, n, cells, ledger := OptimalAssignment.SolveComponent(weights, |sources|, cap);
    ChargeIs(|candidates|, |sources|);
    if ambiguous {
      LiftAmbiguous(Weights(p), candidates, sources, weights);
      pairs := [];
      m := map[];
    } else {
      LiftUnique(Weights(p), candidates, sources, weights, n);
      MaximumParts(weights, n);
      pairs := ComponentTriples(p, candidates, sources, raw, weights, selected, n);
      m := Lift(candidates, sources, n);
    }
  }

  lemma ChargeIs(rows: nat, cols: nat)
    ensures Charge(rows, cols)
         == Times(OptimalAssignment.Alternatives(rows, cols), OptimalAssignment.SolveCells(rows, cols))
  {
  }

  lemma MaximumParts(g: Graph, n: Pairing)
    requires UniqueMaximum(g, AllRows(g), n)
    ensures IsMatching(g, n)
  {
  }

  lemma ComponentInside(p: Problem, start: nat, candidates: seq<nat>, sources: seq<nat>)
    requires IsComponent(Weights(p), |p.sources|, start, Elements(candidates), Elements(sources))
    ensures forall i :: 0 <= i < |candidates| ==> candidates[i] < |p.candidates|
    ensures forall j :: 0 <= j < |sources| ==> sources[j] < |p.sources|
    ensures forall r: nat, c: nat :: r in candidates && Edge(Weights(p), r, c) ==> c in sources
  {
    ScoresShape(p);
    hide Weights;
    forall i | 0 <= i < |candidates| ensures candidates[i] < |p.candidates| {
      assert candidates[i] in Elements(candidates);
    }
    forall j | 0 <= j < |sources| ensures sources[j] < |p.sources| {
      assert sources[j] in Elements(sources);
    }
    forall r: nat, c: nat | r in candidates && Edge(Weights(p), r, c) ensures c in sources {
      assert r in Elements(candidates) && c in Elements(sources);
    }
  }

  lemma CompactFits(g: Graph, rows: seq<nat>, columns: seq<nat>, w: Graph, cap: nat)
    requires Compact(g, rows, columns, w) && PositiveWeights(g) && OptimalAssignment.WeightsFit(g, cap)
    ensures OptimalAssignment.RectangularGraph(w, |columns|) && PositiveWeights(w) && OptimalAssignment.WeightsFit(w, cap)
    ensures |w| == |rows|
  {
    forall r: nat, c: nat | Edge(w, r, c) ensures 0 < w[r][c].value <= cap {
      assert Edge(g, rows[r], columns[c]);
    }
  }

  // ----- All components -----

  datatype AssignmentError = BudgetExceeded

  datatype Assignment = Assignment(pairs: seq<Triple>, ambiguous: bool)

  /** What holds before candidate `start` is looked at, `rows` and `cols` being settled. */
  ghost predicate Progress(p: Problem, start: nat, rows: set<nat>, cols: set<nat>, m: Pairing, operations: nat) {
    && start <= |p.candidates| && |Weights(p)| == |p.candidates|
    && Closed(Weights(p), rows, cols)
    && UniqueMaximum(Weights(p), rows, m)
    && (forall r: nat :: r < start && HasEdge(Weights(p), r) ==> r in rows)
    && Run(Weights(p), |p.sources|, p.policy, start, rows, operations)
       == Run(Weights(p), |p.sources|, p.policy, 0, {}, 0)
    && operations <= p.policy.maxAssignmentOperations
  }

  lemma ProgressStarts(p: Problem)
    ensures Progress(p, 0, {}, {}, map[], 0) && ListsTriples(p, [], map[])
  {
    ScoresShape(p);
    hide Weights;
    var g := Weights(p);
    forall n | MatchingOn(g, {}, n) ensures n == map[] {
      assert n.Keys == {};
    }
    assert MatchingOn(g, {}, map[]);
    assert Closed(g, {}, {});
  }

  lemma ProgressSkips(p: Problem, start: nat, rows: set<nat>, cols: set<nat>, m: Pairing, operations: nat)
    requires Progress(p, start, rows, cols, m, operations) && start < |p.candidates|
    requires start in rows || !HasEdge(Weights(p), start)
    ensures Progress(p, start + 1, rows, cols, m, operations)
  {
    hide Weights, HasEdge, UniqueMaximum, Closed;
  }

  /** The component of `start` decides the verdict unless it is settled. */
  lemma RunAt(p: Problem, start: nat, rows: set<nat>, cols: set<nat>, m: Pairing, operations: nat, more: set<nat>, cols': set<nat>)
    requires Progress(p, start, rows, cols, m, operations) && start < |p.candidates|
    requires start !in rows && HasEdge(Weights(p), start)
    requires IsComponent(Weights(p), |p.sources|, start, more, cols')
    ensures var whole := Run(Weights(p), |p.sources|, p.policy, 0, {}, 0);
            var charged := operations + Charge(|more|, |cols'|);
            if ComponentTooBig(p.policy, |more|, |cols'|) || charged > p.policy.maxAssignmentOperations then whole == OverBudget
            else if AmbiguousMaximum(Weights(p), more) then whole == Ambiguous
            else whole == Run(Weights(p), |p.sources|, p.policy, start + 1, rows + more, charged)
  {
    hide Weights, HasEdge, UniqueMaximum, Closed, IsComponent, Charge, AmbiguousMaximum, ReachedRows, ReachedColumns, Run, ComponentTooBig;
    ComponentIsReached(Weights(p), |p.sources|, start, more, cols');
    RunStep(Weights(p), |p.sources|, p.policy, start, rows, operations);
  }

  lemma RunStep(g: Graph, columns: nat, policy: Policy, start: nat, seen: set<nat>, operations: nat)
    requires start < |g| && start !in seen && HasEdge(g, start)
    ensures var verdict := Run(g, columns, policy, start, seen, operations);
            var rows, cols := ReachedRows(g, start), ReachedColumns(g, columns, start);
            var charged := operations + Charge(|rows|, |cols|);
            if ComponentTooBig(policy, |rows|, |cols|) || charged > policy.maxAssignmentOperations then verdict == OverBudget
            else if AmbiguousMaximum(g, rows) then verdict == Ambiguous
            else verdict == Run(g, columns, policy, start + 1, seen + rows, charged)
  {
    hide HasEdge, Charge, AmbiguousMaximum, ReachedRows, ReachedColumns, ComponentTooBig;
  }

  lemma ProgressSettles(p: Problem, start: nat, rows: set<nat>, cols: set<nat>, m: Pairing, operations: nat,
                        more: set<nat>, cols': set<nat>, n: Pairing)
    requires Progress(p, start, rows, cols, m, operations) && start < |p.candidates|
    requires start !in rows && HasEdge(Weights(p), start)
    requires IsComponent(Weights(p), |p.sources|, start, more, cols') && more !! rows
    requires UniqueMaximum(Weights(p), more, n)
    requires !ComponentTooBig(p.policy, |more|, |cols'|)
    requires operations + Charge(|more|, |cols'|) <= p.policy.maxAssignmentOperations
    ensures Progress(p, start + 1, rows + more, cols + cols', m + n, operations + Charge(|more|, |cols'|))
    ensures m.Keys !! n.Keys
  {
    RunAt(p, start, rows, cols, m, operations, more, cols');
    UniqueNotAmbiguous(Weights(p), more, n);
    JoinUnique(Weights(p), rows, cols, m, more, n);
    UniqueKeys(Weights(p), rows, m);
    UniqueKeys(Weights(p), more, n);
    ComponentStart(Weights(p), |p.sources|, start, more, cols');
    ClosedUnion(Weights(p), rows, cols, more, cols');
    hide Weights, HasEdge, UniqueMaximum, Closed, IsComponent, Charge, AmbiguousMaximum, Run;
  }

  lemma UniqueKeys(g: Graph, rows: set<nat>, n: Pairing)
    requires UniqueMaximum(g, rows, n)
    ensures n.Keys <= rows
  {
  }

  lemma ComponentStart(g: Graph, columns: nat, start: nat, rows: set<nat>, cols: set<nat>)
    requires IsComponent(g, columns, start, rows, cols)
    ensures start in rows && Closed(g, rows, cols)
  {
  }

  lemma ClosedUnion(g: Graph, rows: set<nat>, cols: set<nat>, rows': set<nat>, cols': set<nat>)
    requires Closed(g, rows, cols) && Closed(g, rows', cols')
    ensures Closed(g, rows + rows', cols + cols')
  {
  }

  /** With every candidate looked at, the settled matching is the unique maximum of the graph. */
  lemma ProgressEnds(p: Problem, rows: set<nat>, cols: set<nat>, m: Pairing, operations: nat)
    requires Progress(p, |p.candidates|, rows, cols, m, operations)
    ensures Run(Weights(p), |p.sources|, p.policy, 0, {}, 0) == Settled
    ensures UniqueMaximum(Weights(p), AllRows(Weights(p)), m)
  {
    var g := Weights(p);
    hide Weights;
    forall n ensures MatchingOn(g, AllRows(g), n) <==> MatchingOn(g, rows, n) {
      if IsMatching(g, n) {
        forall r | r in n ensures r in rows && r in AllRows(g) {
          assert Edge(g, r, n[r]);
          assert HasEdge(g, r);
        }
      }
    }
    SameUnique(g, rows, AllRows(g), m);
  }

  lemma SameUnique(g: Graph, rows: set<nat>, rows': set<nat>, m: Pairing)
    requires forall n :: MatchingOn(g, rows', n) <==> MatchingOn(g, rows, n)
    requires UniqueMaximum(g, rows, m)
    ensures UniqueMaximum(g, rows', m)
  {
    hide MatchingOn, IsMatching, Weight;
    forall n ensures Maximum(g, rows', n) <==> Maximum(g, rows, n) {
    }
  }

  lemma AmbiguousWhole(p: Problem, rows: set<nat>, cols: set<nat>, start: nat)
    requires IsComponent(Weights(p), |p.sources|, start, rows, cols) && AmbiguousMaximum(Weights(p), rows)
    ensures AmbiguousMaximum(Weights(p), AllRows(Weights(p)))
  {
    hide Weights, AmbiguousMaximum;
    AmbiguityLifts(Weights(p), rows, cols, AllRows(Weights(p)));
  }

  lemma RowHasEdge(p: Problem, edges: Lists, r: nat)
    requires ForwardLists(p, edges, |p.candidates|) && r < |p.candidates|
    ensures edges[r] != [] <==> HasEdge(Weights(p), r)
  {
    hide EdgeScore, EdgeWeight;
    ScoresShape(p);
    assert ListsWholeRow(Scores(p)[r], edges[r]);
    if edges[r] != [] {
      SameEdges(p, r, edges[r][0].0);
      assert Edge(Scores(p), r, edges[r][0].0);
    }
    if c: nat :| Edge(Weights(p), r, c) {
      SameEdges(p, r, c);
      assert Scores(p)[r][c].Some?;
    }
  }

  /** The most candidates a component has, and the most pairs one of its matchings has. */
  datatype Most = Most(rows: nat, pairs: nat)

  /** No component with a source that the budgets let through is larger. */
  ghost predicate BoundsComponents(policy: Policy, most: Most) {
    forall rows: nat, cols: nat ::
      cols > 0 && rows + cols <= policy.maxAssignmentComponentFiles && Charge(rows, cols) <= policy.maxAssignmentOperations ==>
        rows <= most.rows && OptimalAssignment.Shorter(rows, cols) <= most.pairs
  }

  /** The range of everything computed in the solves of all components, for weights up to `cap`. */
  ghost predicate EngineWithin(ledger: Ledger, cap: nat, most: Most) {
    Within(ledger, 2 * cap, Times(most.rows, cap), Times(most.pairs, cap))
  }

  lemma NothingComputed(cap: nat, most: Most)
    ensures EngineWithin(Blank(), cap, most)
  {
  }

  lemma EngineJoins(ledger: Ledger, more: Ledger, cap: nat, most: Most)
    requires EngineWithin(ledger, cap, most) && EngineWithin(more, cap, most)
    ensures EngineWithin(Joined(ledger, more), cap, most)
  {
    hide Within, Joined;
    JoinedWithin(ledger, more, 2 * cap, Times(most.rows, cap), Times(most.pairs, cap));
  }

  /** A component is charged one solve more than the pairs a matching can have, each of rows squared times columns,
      every row having its own dummy column; and it is too big above either file limit. */
  lemma ChargeMeans(rows: nat, cols: nat)
    ensures Charge(rows, cols) == ((if rows <= cols then rows else cols) + 1) * (rows * (rows * (cols + rows)))
  {
  }

  lemma FileLimitsMean(p: Problem, rows: nat, cols: nat)
    ensures TooManyFiles(p) <==> |p.candidates| + |p.sources| > p.policy.maxAssignmentFiles
    ensures ComponentTooBig(p.policy, rows, cols) <==>
              rows + cols > p.policy.maxAssignmentComponentFiles || rows + cols > p.policy.maxAssignmentFiles
  {
  }

  lemma ChargeMonotone(rows: nat, cols: nat, rows': nat, cols': nat)
    requires rows <= rows' && cols <= cols'
    ensures Charge(rows, cols) <= Charge(rows', cols')
  {
    var alternatives, alternatives' := OptimalAssignment.Alternatives(rows, cols), OptimalAssignment.Alternatives(rows', cols');
    var row, row' := Times(rows, cols + rows), Times(rows', cols' + rows');
    TimesMonotone(rows, rows', cols + rows, cols' + rows');
    TimesMonotone(rows, rows', row, row');
    TimesMonotone(alternatives, alternatives', Times(rows, row), Times(rows', row'));
  }

  lemma ComponentWithin(policy: Policy, rows: nat, cols: nat, ledger: Ledger, cap: nat, most: Most)
    requires cols > 0 && rows + cols <= policy.maxAssignmentComponentFiles && Charge(rows, cols) <= policy.maxAssignmentOperations
    requires BoundsComponents(policy, most) && OptimalAssignment.SolveWithin(ledger, rows, cols, cap)
    ensures EngineWithin(ledger, cap, most)
  {
    var k := OptimalAssignment.Shorter(rows, cols);
    hide Charge, Times, Within;
    TimesMonotone(k, most.pairs, cap, cap);
    TimesMonotone(rows, most.rows, cap, cap);
    WithinMore(ledger, 2 * cap, Times(rows, cap), Times(k, cap), 2 * cap, Times(most.rows, cap), Times(most.pairs, cap));
  }

  /** The component of a candidate with an edge has a source. */
  lemma ComponentHasSource(g: Graph, columns: nat, start: nat, rows: set<nat>, cols: set<nat>)
    requires IsComponent(g, columns, start, rows, cols) && HasEdge(g, start)
    ensures cols != {}
  {
    ComponentStart(g, columns, start, rows, cols);
    var c: nat :| Edge(g, start, c);
    assert c in cols;
  }

  /** One component: refuse it if it is too big or too costly, otherwise solve it. */
  method SettleComponent(p: Problem, edges: Lists, candidates: seq<nat>, sources: seq<nat>, scoreUnit: nat, requiredUnit: nat,
                         operations: nat, ghost start: nat, ghost rows: set<nat>, ghost cols: set<nat>, ghost m: Pairing,
                         ghost cap: nat, ghost most: Most)
    returns (verdict: Outcome, pairs: seq<Triple>, operations': nat, ghost n: Pairing, ghost cells: nat, ghost ledger: Ledger)
    requires ForwardLists(p, edges, |p.candidates|) && OptimalAssignment.WeightsFit(Weights(p), cap)
    requires |Weights(p)| == |p.candidates|
    requires scoreUnit == ScoreUnit(p) && requiredUnit == RequiredUnit(p)
    requires Progress(p, start, rows, cols, m, operations) && start < |p.candidates|
    requires start !in rows && HasEdge(Weights(p), start)
    requires IsComponent(Weights(p), |p.sources|, start, Elements(candidates), Elements(sources))
    requires Elements(candidates) !! rows && NoRepeats(candidates) && NoRepeats(sources)
    requires BoundsComponents(p.policy, most)
    ensures verdict != Settled ==> verdict == Run(Weights(p), |p.sources|, p.policy, 0, {}, 0)
    ensures verdict == OverBudget ==> cells == 0
    ensures verdict == Ambiguous ==> AmbiguousMaximum(Weights(p), AllRows(Weights(p)))
    ensures verdict == Settled ==>
              && Progress(p, start + 1, rows + Elements(candidates), cols + Elements(sources), m + n, operations')
              && ListsTriples(p, pairs, n) && m.Keys !! n.Keys
    ensures verdict != OverBudget ==> operations + cells <= operations' <= p.policy.maxAssignmentOperations
    ensures EngineWithin(ledger, cap, most)
  {
    hide *;
    ghost var more, cols' := Elements(candidates), Elements(sources);
    DistinctSize(candidates);
    DistinctSize(sources);
    ComponentHasSource(Weights(p), |p.sources|, start, more, cols');
    RunAt(p, start, rows, cols, m, operations, more, cols');
    TooBigIs(p.policy, |candidates|, |sources|);
    operations' := operations + Operations(|candidates|, |sources|);
    if |candidates| + |sources| > p.policy.maxAssignmentComponentFiles
       || |candidates| + |sources| > p.policy.maxAssignmentFiles
       || operations' > p.policy.maxAssignmentOperations {
      NothingComputed(cap, most);
      return OverBudget, [], operations', map[], 0, Blank();
    }
    var ambiguous;
    ambiguous, pairs, n, cells, ledger := SolveOne(p, edges, candidates, sources, scoreUnit, requiredUnit, start, cap);
    ComponentWithin(p.policy, |candidates|, |sources|, ledger, cap, most);
    if ambiguous {
      AmbiguousWhole(p, more, cols', start);
      verdict := Ambiguous;
    } else {
      ProgressSettles(p, start, rows, cols, m, operations, more, cols', n);
      verdict := Settled;
    }
  }

  /** The loop over the components. */
  method SolveAll(p: Problem, edges: Lists, reverse: seq<seq<nat>>, scoreUnit: nat, requiredUnit: nat,
                  ghost cap: nat, ghost most: Most)
    returns (r: Result<Assignment, AssignmentError>, ghost m: Pairing, ghost cells: nat, ghost ledger: Ledger)
    requires ForwardLists(p, edges, |p.candidates|) && ReverseLists(p, reverse, |p.candidates|)
    requires OptimalAssignment.WeightsFit(Weights(p), cap)
    requires scoreUnit == ScoreUnit(p) && requiredUnit == RequiredUnit(p)
    requires |Weights(p)| == |p.candidates| && BoundsComponents(p.policy, most)
    ensures Decides(p, Run(Weights(p), |p.sources|, p.policy, 0, {}, 0), r, m)
    ensures cells <= p.policy.maxAssignmentOperations
    ensures EngineWithin(ledger, cap, most)
  {
    hide *;
    var candidateSeen := new bool[|p.candidates|](_ => false);
    var sourceSeen := new bool[|p.sources|](_ => false);
    var pairs := [];
    var operations: nat := 0;
    ghost var rows, cols: set<nat> := {}, {};
    m, cells, ledger := map[], 0, Blank();
    NothingComputed(cap, most);
    ProgressStarts(p);
    ListsAreAdjacency(p, edges, reverse);
    ForwardLength(p, edges);
    for start := 0 to |p.candidates|
      invariant Progress(p, start, rows, cols, m, operations)
      invariant ListsTriples(p, pairs, m)
      invariant cells <= operations
      invariant EngineWithin(ledger, cap, most)
      invariant forall r: nat :: r < |p.candidates| ==> (candidateSeen[r] <==> r in rows)
      invariant forall c: nat :: c < |p.sources| ==> (sourceSeen[c] <==> c in cols)
    {
      RowHasEdge(p, edges, start);
      if candidateSeen[start] || edges[start] == [] {
        ProgressSkips(p, start, rows, cols, m, operations);
        continue;
      }
      ProgressClosed(p, start, rows, cols, m, operations);
      var candidates, sources := Component(start, edges, reverse, candidateSeen, sourceSeen, Weights(p), |p.sources|, rows, cols);
      var verdict, selected, operations';
      ghost var n, seen, more;
      verdict, selected, operations', n, seen, more := SettleComponent(p, edges, candidates, sources, scoreUnit, requiredUnit,
                                                                       operations, start, rows, cols, m, cap, most);
      if verdict == OverBudget {
        DecidesOver(p, OverBudget, m);
        return Failure(BudgetExceeded), m, cells, ledger;
      }
      EngineJoins(ledger, more, cap, most);
      cells, ledger := cells + seen, Joined(ledger, more);
      if verdict == Ambiguous {
        DecidesAmbiguous(p, m);
        return Success(Assignment([], true)), m, cells, ledger;
      }
      TriplesAppend(p, pairs, m, selected, n);
      pairs, operations := pairs + selected, operations';
      rows, cols, m := rows + Elements(candidates), cols + Elements(sources), m + n;
    }
    ProgressClosed(p, |p.candidates|, rows, cols, m, operations);
    ProgressEnds(p, rows, cols, m, operations);
    DecidesSettled(p, pairs, m);
    r := Success(Assignment(pairs, false));
  }

  /** The charge, as computed. */
  function Operations(rows: nat, sources: nat): (n: nat)
    ensures n == Charge(rows, sources)
  {
    var columns := sources + rows;
    OptimalAssignment.Alternatives(rows, sources) * (rows * (rows * columns))
  }

  lemma ForwardLength(p: Problem, edges: Lists)
    requires ForwardLists(p, edges, |p.candidates|)
    ensures |edges| == |p.candidates|
  {
  }

  lemma ProgressClosed(p: Problem, start: nat, rows: set<nat>, cols: set<nat>, m: Pairing, operations: nat)
    requires Progress(p, start, rows, cols, m, operations)
    ensures Closed(Weights(p), rows, cols) && operations <= p.policy.maxAssignmentOperations
  {
  }

  lemma TooBigIs(policy: Policy, rows: nat, cols: nat)
    ensures ComponentTooBig(policy, rows, cols) <==>
              rows + cols > policy.maxAssignmentComponentFiles || rows + cols > policy.maxAssignmentFiles
  {
  }

  /** The result agrees with the verdict, and with the maximum matchings of the whole graph. */
  ghost predicate Decides(p: Problem, verdict: Outcome, r: Result<Assignment, AssignmentError>, m: Pairing) {
    match verdict
    case OverBudget => r == Failure(BudgetExceeded)
    case Ambiguous => r == Success(Assignment([], true)) && AmbiguousMaximum(Weights(p), AllRows(Weights(p)))
    case Settled =>
      && r.Success? && !r.value.ambiguous
      && UniqueMaximum(Weights(p), AllRows(Weights(p)), m) && ListsTriples(p, r.value.pairs, m)
  }

  lemma DecidesOver(p: Problem, verdict: Outcome, m: Pairing)
    requires verdict == OverBudget
    ensures Decides(p, verdict, Failure(BudgetExceeded), m)
  {
  }

  lemma DecidesAmbiguous(p: Problem, m: Pairing)
    requires AmbiguousMaximum(Weights(p), AllRows(Weights(p)))
    ensures Decides(p, Ambiguous, Success(Assignment([], true)), m)
  {
  }

  lemma DecidesSettled(p: Problem, pairs: seq<Triple>, m: Pairing)
    requires UniqueMaximum(Weights(p), AllRows(Weights(p)), m) && ListsTriples(p, pairs, m)
    ensures Decides(p, Settled, Success(Assignment(pairs, false)), m)
  {
  }

  /** What a decision says about the graph of all scoring pairs. */
  lemma DecidesMeans(p: Problem, r: Result<Assignment, AssignmentError>, m: Pairing)
    requires Decides(p, OutcomeOf(p), r, m)
    ensures r.Failure? <==> OutcomeOf(p) == OverBudget
    ensures r.Success? ==> (r.value.ambiguous <==> AmbiguousMaximum(Weights(p), AllRows(Weights(p))))
    ensures r.Success? && !r.value.ambiguous ==> UniqueMaximum(Weights(p), AllRows(Weights(p)), m) && ListsTriples(p, r.value.pairs, m)
  {
    hide OutcomeOf, Weights, ListsTriples, UniqueMaximum, AmbiguousMaximum;
    if OutcomeOf(p) == Settled {
      UniqueNotAmbiguous(Weights(p), AllRows(Weights(p)), m);
    }
  }

  lemma OutcomeCases(p: Problem)
    ensures TooManyFiles(p) ==> OutcomeOf(p) == OverBudget
    ensures EdgeCount(p) > p.policy.maxCandidateEdges ==> OutcomeOf(p) == OverBudget
    ensures |Weights(p)| == |p.candidates|
    ensures !TooManyFiles(p) && EdgeCount(p) <= p.policy.maxCandidateEdges ==>
      OutcomeOf(p) == Run(Weights(p), |p.sources|, p.policy, 0, {}, 0)
  {
    hide Run, Weights, EdgeCount;
    ScoresShape(p);
  }

  lemma UnitProduct(p: Problem, primaryBytes: nat, scoreUnit: nat)
    requires primaryBytes == PrimaryBytes(p) && scoreUnit == ScoreUnit(p)
    ensures (primaryBytes + 1) * scoreUnit == RequiredUnit(p)
  {
    hide PrimaryBytes, ScoreUnit;
  }

  lemma WithinBudgets(p: Problem, cap: nat)
    requires ObjectiveFits(p, cap) && !TooManyFiles(p) && EdgeCount(p) <= p.policy.maxCandidateEdges
    ensures OptimalAssignment.WeightsFit(Weights(p), cap)
  {
  }

  /** The assignment engine. Within the budgets, it reports ambiguity exactly when the graph of all
      scoring pairs has more than one maximum-weight matching, and otherwise returns the only one;
      it never reads more cost cells than the operation limit, and the ledger of its solves is in range. */
  method AssignWith(p: Problem, ghost cap: nat, ghost most: Most)
    returns (r: Result<Assignment, AssignmentError>, ghost m: Pairing, ghost cells: nat, ghost ledger: Ledger)
    requires ObjectiveFits(p, cap) && BoundsComponents(p.policy, most)
    ensures r.Failure? <==> OutcomeOf(p) == OverBudget
    ensures r.Success? ==> (r.value.ambiguous <==> AmbiguousMaximum(Weights(p), AllRows(Weights(p))))
    ensures r.Success? && !r.value.ambiguous ==>
              exists n :: UniqueMaximum(Weights(p), AllRows(Weights(p)), n) && ListsTriples(p, r.value.pairs, n)
    ensures Decides(p, OutcomeOf(p), r, m)
    ensures cells <= p.policy.maxAssignmentOperations
    ensures EngineWithin(ledger, cap, most)
  {
    hide *;
    NothingComputed(cap, most);
    OutcomeCases(p);
    if TooManyFiles(p) {
      DecidesOver(p, OutcomeOf(p), map[]);
      DecidesMeans(p, Failure(BudgetExceeded), map[]);
      return Failure(BudgetExceeded), map[], 0, Blank();
    }
    var buckets := BuildBuckets(p);
    var over, edges, reverse := BuildEdges(p, buckets);
    if over {
      DecidesOver(p, OutcomeOf(p), map[]);
      DecidesMeans(p, Failure(BudgetExceeded), map[]);
      return Failure(BudgetExceeded), map[], 0, Blank();
    }
    var total := SumOfScores(edges);
    ScoresSummed(p, edges);
    var scoreUnit: nat := total + 1;
    var primaryBytes := TotalPrimaryBytes(p);
    UnitProduct(p, primaryBytes, scoreUnit);
    var requiredUnit: nat := (primaryBytes + 1) * scoreUnit;
    WithinBudgets(p, cap);
    r, m, cells, ledger := SolveAll(p, edges, reverse, scoreUnit, requiredUnit, cap, most);
    DecidesMeans(p, r, m);
  }
}
