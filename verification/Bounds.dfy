/** Integer bounds: which numbers of the assignment engine fit their machine types under which budgets,
    whatever the file sizes; and what a maximum-weight matching means for the three-level objective. */
module Bounds {
  import opened Wrappers
  import opened Sums
  import opened Matching
  import opened Files
  import opened Objective
  import opened Edges
  import opened Assign
  import opened Ledgers
  import OptimalAssignment
  import Hungarian
  import Numbers

  /** The largest budgets the configuration accepts. */
  const CONFIGURED_MAX_FILES := 100000
  const CONFIGURED_MAX_EDGES := 1000000
  const CONFIGURED_MAX_COMPONENT_FILES := 1024
  const CONFIGURED_MAX_OPERATIONS := 1000000000

  lemma RowScoreBound(p: Problem, r: nat)
    requires r < |p.candidates|
    ensures RowTotal(Scores(p)[r]) <= Times(RowTotal(Ones(Scores(p))[r]), MAX_SCORE)
  {
    hide EdgeScore;
    var values, ones := RowValues(Scores(p)[r]), RowValues(Ones(Scores(p))[r]);
    var scaled := seq(|ones|, c requires 0 <= c < |ones| => Times(ones[c], MAX_SCORE));
    forall c | 0 <= c < |values| ensures values[c] <= scaled[c] {
      var score := ScoreAt(p, r, c);
    }
    SumMonotone(values, scaled);
    SumScale(ones, scaled, MAX_SCORE);
  }

  lemma ScoreTotalBound(p: Problem)
    ensures GraphTotal(Scores(p)) <= Times(EdgeCount(p), MAX_SCORE)
  {
    var totals, counts := RowTotals(Scores(p)), RowTotals(Ones(Scores(p)));
    var scaled := seq(|counts|, r requires 0 <= r < |counts| => Times(counts[r], MAX_SCORE));
    hide Scores, EdgeScore, RowTotal, Ones, Times;
    ScoresShape(p);
    forall r | 0 <= r < |totals| ensures totals[r] <= scaled[r] {
      RowScoreBound(p, r);
    }
    SumMonotone(totals, scaled);
    SumScale(counts, scaled, MAX_SCORE);
  }

  lemma PrimaryBytesBound(p: Problem)
    ensures PrimaryBytes(p) <= Times(|p.candidates|, U64_LIMIT - 1)
  {
    hide Primary, Times;
    var sizes, ones := PrimarySizes(p), seq(|p.candidates|, _ => 1);
    var scaled := seq(|ones|, i requires 0 <= i < |ones| => Times(ones[i], U64_LIMIT - 1));
    TimesSmall(U64_LIMIT - 1);
    SumMonotone(sizes, scaled);
    SumScale(ones, scaled, U64_LIMIT - 1);
    SumOfOnes(ones);
  }

  /** The two units, within given budgets. */
  lemma UnitBounds(p: Problem, files: nat, edges: nat)
    requires |p.candidates| <= files && EdgeCount(p) <= edges
    ensures ScoreUnit(p) <= Times(edges, MAX_SCORE) + 1
    ensures RequiredUnit(p) <= Times(Times(files, U64_LIMIT - 1) + 1, Times(edges, MAX_SCORE) + 1)
  {
    hide Scores, Ones, PrimarySizes, Times;
    TotalNonNegative(Ones(Scores(p)));
    ScoreTotalBound(p);
    TimesMonotone(EdgeCount(p), edges, MAX_SCORE, MAX_SCORE);
    PrimaryBytesBound(p);
    TimesMonotone(|p.candidates|, files, U64_LIMIT - 1, U64_LIMIT - 1);
    TimesNonNegative(edges, MAX_SCORE);
    TimesNonNegative(files, U64_LIMIT - 1);
    TimesMonotone(PrimaryBytes(p) + 1, Times(files, U64_LIMIT - 1) + 1, ScoreUnit(p), Times(edges, MAX_SCORE) + 1);
  }

  /** The heaviest edge that budgets of so many files and edges allow. */
  function HeaviestEdge(files: nat, edges: nat): int {
    MAX_SCORE + Times(U64_LIMIT - 1, Times(edges, MAX_SCORE) + 1)
    + Times(Times(files, U64_LIMIT - 1) + 1, Times(edges, MAX_SCORE) + 1)
  }

  lemma WeightBound(p: Problem, files: nat, edges: nat, r: nat, c: nat)
    requires Edge(Weights(p), r, c) && |p.candidates| <= files && EdgeCount(p) <= edges
    ensures Weights(p)[r][c].value <= HeaviestEdge(files, edges)
  {
    hide Primary, Required, EdgeScore, Times, ScoreUnit, RequiredUnit, Ones;
    UnitBounds(p, files, edges);
    TimesNonNegative(edges, MAX_SCORE);
    TimesNonNegative(files, U64_LIMIT - 1);
    TimesNonNegative(U64_LIMIT - 1, Times(edges, MAX_SCORE) + 1);
    TimesNonNegative(Times(files, U64_LIMIT - 1) + 1, Times(edges, MAX_SCORE) + 1);
    TimesMonotone(p.candidates[r].size, U64_LIMIT - 1, ScoreUnit(p), Times(edges, MAX_SCORE) + 1);
    var score := ScoreAt(p, r, c);
  }

  /** Within its file and edge budgets a problem's weights leave the solver room, whatever the sizes. */
  lemma BudgetsFit(p: Problem, files: nat, edges: nat, cap: nat)
    requires p.policy.maxAssignmentFiles <= files && p.policy.maxCandidateEdges <= edges
    requires HeaviestEdge(files, edges) <= cap && 2 * cap < Numbers.I128_MAX
    ensures ObjectiveFits(p, cap)
  {
    hide HeaviestEdge, Weights, EdgeCount;
    if !TooManyFiles(p) && EdgeCount(p) <= p.policy.maxCandidateEdges {
      forall r: nat, c: nat | Edge(Weights(p), r, c) ensures Weights(p)[r][c].value <= cap {
        WeightBound(p, files, edges, r, c);
      }
    }
  }

  /** The file and edge budgets leave the solver room for every weight they allow. */
  ghost predicate LeavesRoom(policy: Policy) {
    2 * HeaviestEdge(policy.maxAssignmentFiles, policy.maxCandidateEdges) < Numbers.I128_MAX
  }

  /** Budgets the configuration accepts. */
  predicate Configurable(policy: Policy) {
    && policy.maxAssignmentFiles <= CONFIGURED_MAX_FILES && policy.maxCandidateEdges <= CONFIGURED_MAX_EDGES
    && policy.maxAssignmentComponentFiles <= CONFIGURED_MAX_COMPONENT_FILES
    && policy.maxAssignmentOperations <= CONFIGURED_MAX_OPERATIONS
  }

  /** Budgets no larger than the defaults. */
  predicate Default(policy: Policy) {
    && policy.maxAssignmentFiles <= DEFAULT_MAX_FILES && policy.maxCandidateEdges <= DEFAULT_MAX_EDGES
    && policy.maxAssignmentComponentFiles <= DEFAULT_MAX_COMPONENT_FILES
    && policy.maxAssignmentOperations <= DEFAULT_MAX_OPERATIONS
  }

  lemma HeaviestNonNegative(files: nat, edges: nat)
    ensures HeaviestEdge(files, edges) >= 0
  {
    hide Times;
    TimesNonNegative(edges, MAX_SCORE);
    TimesNonNegative(files, U64_LIMIT - 1);
    TimesNonNegative(U64_LIMIT - 1, Times(edges, MAX_SCORE) + 1);
    TimesNonNegative(Times(files, U64_LIMIT - 1) + 1, Times(edges, MAX_SCORE) + 1);
  }

  lemma HeaviestMonotone(files: nat, edges: nat, files': nat, edges': nat)
    requires files <= files' && edges <= edges'
    ensures HeaviestEdge(files, edges) <= HeaviestEdge(files', edges')
  {
    hide Times;
    TimesNonNegative(edges, MAX_SCORE);
    TimesNonNegative(files, U64_LIMIT - 1);
    TimesMonotone(edges, edges', MAX_SCORE, MAX_SCORE);
    TimesMonotone(files, files', U64_LIMIT - 1, U64_LIMIT - 1);
    TimesMonotone(U64_LIMIT - 1, U64_LIMIT - 1, Times(edges, MAX_SCORE) + 1, Times(edges', MAX_SCORE) + 1);
    TimesMonotone(Times(files, U64_LIMIT - 1) + 1, Times(files', U64_LIMIT - 1) + 1,
                  Times(edges, MAX_SCORE) + 1, Times(edges', MAX_SCORE) + 1);
  }

  /** The largest operation budget the configuration accepts pays for components of at most 793
      candidates and matchings of at most 149 pairs. */
  function Largest(policy: Policy): Most {
    if Configurable(policy) then Most(Numbers.Minimum(policy.maxAssignmentComponentFiles, 793), 149)
    else Most(policy.maxAssignmentComponentFiles, policy.maxAssignmentComponentFiles)
  }

  lemma ComponentsBounded(policy: Policy)
    ensures BoundsComponents(policy, Largest(policy))
  {
    hide Charge;
    forall rows: nat, cols: nat |
      cols > 0 && rows + cols <= policy.maxAssignmentComponentFiles && Charge(rows, cols) <= policy.maxAssignmentOperations
      ensures rows <= Largest(policy).rows && OptimalAssignment.Shorter(rows, cols) <= Largest(policy).pairs
    {
      LargestCharges();
      if rows > 793 {
        ChargeMonotone(794, 1, rows, cols);
      }
      if OptimalAssignment.Shorter(rows, cols) > 149 {
        ChargeMonotone(150, 150, rows, cols);
      }
    }
  }

  lemma LargestCharges()
    ensures Charge(150, 150) == 1019250000 && Charge(794, 1) == 1002393240
  {
  }

  /** The heaviest edges and the heaviest matchings under the configuration and under the defaults. */
  lemma HeaviestFits(policy: Policy)
    ensures Configurable(policy) ==>
              LeavesRoom(policy) && 149 * HeaviestEdge(policy.maxAssignmentFiles, policy.maxCandidateEdges) <= Numbers.U128_MAX
    ensures Default(policy) ==>
              DEFAULT_MAX_COMPONENT_FILES * HeaviestEdge(policy.maxAssignmentFiles, policy.maxCandidateEdges) <= Numbers.I128_MAX
  {
    HeaviestNonNegative(policy.maxAssignmentFiles, policy.maxCandidateEdges);
    if Configurable(policy) {
      HeaviestMonotone(policy.maxAssignmentFiles, policy.maxCandidateEdges, CONFIGURED_MAX_FILES, CONFIGURED_MAX_EDGES);
      assert 149 * HeaviestEdge(CONFIGURED_MAX_FILES, CONFIGURED_MAX_EDGES) <= Numbers.U128_MAX;
    }
    if Default(policy) {
      HeaviestMonotone(policy.maxAssignmentFiles, policy.maxCandidateEdges, DEFAULT_MAX_FILES, DEFAULT_MAX_EDGES);
      assert DEFAULT_MAX_COMPONENT_FILES * HeaviestEdge(DEFAULT_MAX_FILES, DEFAULT_MAX_EDGES) <= Numbers.I128_MAX;
    }
  }

  // ----- The sharper bound for distinct candidate paths -----

  /** The greatest score of a pair whose paths differ. */
  const INEXACT_SCORE := 111111

  /** No two candidate files have one path, as in every manifest that passes validation. */
  ghost predicate DistinctPaths(candidates: seq<TorrentFile>) {
    forall i, j :: 0 <= i < j < |candidates| ==> candidates[i].path != candidates[j].path
  }

  /** The sources whose path is candidate r's. */
  ghost function SamePath(p: Problem, r: nat): (marks: seq<int>)
    requires r < |p.candidates|
  {
    seq(|p.sources|, c requires 0 <= c < |p.sources| => if p.candidates[r].path == p.sources[c].1.path then 1 else 0)
  }

  ghost predicate PathTaken(p: Problem, k: nat, path: string)
    requires k <= |p.candidates|
  {
    exists r :: 0 <= r < k && p.candidates[r].path == path
  }

  /** The sources whose path is that of one of the first k candidates. */
  ghost function Taken(p: Problem, k: nat): (marks: seq<int>)
    requires k <= |p.candidates|
  {
    seq(|p.sources|, c requires 0 <= c < |p.sources| => if PathTaken(p, k, p.sources[c].1.path) then 1 else 0)
  }

  lemma TakenNext(p: Problem, k: nat)
    requires k < |p.candidates| && DistinctPaths(p.candidates)
    ensures Sum(Taken(p, k + 1)) == Sum(Taken(p, k)) + Sum(SamePath(p, k))
  {
    forall c | 0 <= c < |p.sources| ensures Taken(p, k + 1)[c] == Taken(p, k)[c] + SamePath(p, k)[c] {
      var path := p.sources[c].1.path;
      assert PathTaken(p, k + 1, path) <==> PathTaken(p, k, path) || p.candidates[k].path == path;
    }
    SumAdd(Taken(p, k), SamePath(p, k), Taken(p, k + 1));
  }

  /** Only a pair with one path can score more than INEXACT_SCORE. */
  lemma CellScoreByPath(p: Problem, r: nat, c: nat)
    requires r < |p.candidates| && c < |p.sources|
    ensures ScoreAt(p, r, c).Some? ==> ScoreAt(p, r, c).value <= INEXACT_SCORE + SamePath(p, r)[c] * SCORE_EXACT_PATH
  {
  }

  lemma RowScoreByPath(p: Problem, r: nat)
    requires r < |p.candidates|
    ensures RowTotal(Scores(p)[r]) <= Times(RowTotal(Ones(Scores(p))[r]), INEXACT_SCORE) + Times(Sum(SamePath(p, r)), SCORE_EXACT_PATH)
  {
    hide EdgeScore;
    var values, ones, same := RowValues(Scores(p)[r]), RowValues(Ones(Scores(p))[r]), SamePath(p, r);
    var inexact := seq(|ones|, c requires 0 <= c < |ones| => Times(ones[c], INEXACT_SCORE));
    var exact := seq(|same|, c requires 0 <= c < |same| => Times(same[c], SCORE_EXACT_PATH));
    var both := seq(|same|, c requires 0 <= c < |same| => inexact[c] + exact[c]);
    forall c | 0 <= c < |values| ensures values[c] <= both[c] {
      CellScoreByPath(p, r, c);
    }
    hide Scores, EdgeScore, Ones, Sum, Times, RowValues;
    SumMonotone(values, both);
    SumAdd(inexact, exact, both);
    SumScale(ones, inexact, INEXACT_SCORE);
    SumScale(same, exact, SCORE_EXACT_PATH);
  }

  lemma RowTotalsAt(p: Problem)
    ensures |Scores(p)| == |Ones(Scores(p))| == |RowTotals(Scores(p))| == |RowTotals(Ones(Scores(p)))| == |p.candidates|
    ensures forall r :: 0 <= r < |p.candidates| ==> RowTotals(Scores(p))[r] == RowTotal(Scores(p)[r])
    ensures forall r :: 0 <= r < |p.candidates| ==> RowTotals(Ones(Scores(p)))[r] == RowTotal(Ones(Scores(p))[r])
  {
    hide EdgeScore, RowTotal;
  }

  lemma {:induction false} ScoresOfFirst(p: Problem, k: nat)
    requires k <= |p.candidates| && DistinctPaths(p.candidates)
    ensures |RowTotals(Scores(p))| == |RowTotals(Ones(Scores(p)))| == |p.candidates|
    ensures Sum(RowTotals(Scores(p))[..k])
         <= Times(Sum(RowTotals(Ones(Scores(p)))[..k]), INEXACT_SCORE) + Times(Sum(Taken(p, k)), SCORE_EXACT_PATH)
  {
    hide Scores, Ones, RowTotals, RowTotal, DistinctPaths, SamePath, Times;
    RowTotalsAt(p);
    if k == 0 {
      SumOfZeros(Taken(p, 0));
      TimesSmall(INEXACT_SCORE);
      TimesSmall(SCORE_EXACT_PATH);
    } else {
      hide Taken, Sum;
      ScoresOfFirst(p, k - 1);
      RowScoreByPath(p, k - 1);
      TakenNext(p, k - 1);
      SumPrefix(RowTotals(Scores(p)), k - 1);
      SumPrefix(RowTotals(Ones(Scores(p))), k - 1);
      TimesAdd(Sum(RowTotals(Ones(Scores(p)))[..k - 1]), RowTotal(Ones(Scores(p))[k - 1]), INEXACT_SCORE);
      TimesAdd(Sum(Taken(p, k - 1)), Sum(SamePath(p, k - 1)), SCORE_EXACT_PATH);
    }
  }

  /** Each source has the path of at most one candidate. */
  lemma ScoreTotalByPath(p: Problem)
    requires DistinctPaths(p.candidates)
    ensures GraphTotal(Scores(p)) <= Times(EdgeCount(p), INEXACT_SCORE) + Times(|p.sources|, SCORE_EXACT_PATH)
  {
    hide Scores, Ones, RowTotals, DistinctPaths, Times;
    var n := |p.candidates|;
    ScoresOfFirst(p, n);
    assert RowTotals(Scores(p))[..n] == RowTotals(Scores(p));
    assert RowTotals(Ones(Scores(p)))[..n] == RowTotals(Ones(Scores(p)));
    var ones := seq(|p.sources|, _ => 1);
    SumMonotone(Taken(p, n), ones);
    SumOfOnes(ones);
    SumNonNegative(Taken(p, n));
    TimesMonotone(Sum(Taken(p, n)), |p.sources|, SCORE_EXACT_PATH, SCORE_EXACT_PATH);
  }

  /** Room for the heaviest edge under the configuration, for distinct candidate paths: all files are
      candidates, and all edges score as much as differing paths can. */
  const DISTINCT_CAP: nat := MAX_SCORE + (100001 * Numbers.U64_MAX + 1) * 111111000001

  /** Files that are not candidates can raise the score unit, but by less than they take from the primary bytes. */
  lemma FilesTraded(d: nat)
    ensures Times(100001 * Numbers.U64_MAX + 1 - d * Numbers.U64_MAX, 111111000001 + 1000000 * d) <= DISTINCT_CAP - MAX_SCORE
  {
    assert d * d >= 0;
  }

  lemma UnitTimesBytes(candidates: nat, sources: nat, unit: nat)
    requires candidates + sources <= CONFIGURED_MAX_FILES && unit <= 111111000001 + 1000000 * sources
    ensures Times(candidates * Numbers.U64_MAX + Numbers.U64_MAX + 1, unit) <= DISTINCT_CAP - MAX_SCORE
  {
    hide Times;
    var d: nat := CONFIGURED_MAX_FILES - candidates;
    var bytes: nat := candidates * Numbers.U64_MAX + Numbers.U64_MAX + 1;
    FilesTraded(d);
    TimesMonotone(bytes, bytes, unit, 111111000001 + 1000000 * d);
  }

  lemma UnitByPath(p: Problem)
    requires DistinctPaths(p.candidates) && EdgeCount(p) <= CONFIGURED_MAX_EDGES
    ensures ScoreUnit(p) <= 111111000001 + 1000000 * |p.sources|
  {
    hide Scores, Ones, DistinctPaths;
    TotalNonNegative(Ones(Scores(p)));
    ScoreTotalByPath(p);
    TimesMonotone(EdgeCount(p), CONFIGURED_MAX_EDGES, INEXACT_SCORE, INEXACT_SCORE);
  }

  lemma WeightByPath(p: Problem, r: nat, c: nat)
    requires Edge(Weights(p), r, c) && DistinctPaths(p.candidates)
    requires |p.candidates| + |p.sources| <= CONFIGURED_MAX_FILES && EdgeCount(p) <= CONFIGURED_MAX_EDGES
    ensures Weights(p)[r][c].value <= DISTINCT_CAP
  {
    hide Primary, Required, EdgeScore, ScoreUnit, RequiredUnit, PrimaryBytes, DistinctPaths, EdgeCount;
    var unit, bytes := ScoreUnit(p), PrimaryBytes(p);
    UnitByPath(p);
    PrimaryBytesBound(p);
    UnitTimesBytes(|p.candidates|, |p.sources|, unit);
    UnitProduct(p, bytes, unit);
    WeightParts(p, r, c);
    ProductsOfUnit(p.candidates[r].size, bytes, |p.candidates|, unit);
  }

  lemma WeightParts(p: Problem, r: nat, c: nat)
    requires Edge(Weights(p), r, c)
    ensures r < |p.candidates|
    ensures Weights(p)[r][c].value <= MAX_SCORE + p.candidates[r].size * ScoreUnit(p) + RequiredUnit(p)
  {
    hide Primary, Required, EdgeScore, ScoreUnit, RequiredUnit;
    var score := ScoreAt(p, r, c);
    TimesNonNegative(p.candidates[r].size, ScoreUnit(p));
  }

  lemma ProductsOfUnit(size: nat, bytes: nat, candidates: nat, unit: nat)
    requires size <= Numbers.U64_MAX && bytes <= Times(candidates, Numbers.U64_MAX)
    ensures size * unit + (bytes + 1) * unit <= Times(candidates * Numbers.U64_MAX + Numbers.U64_MAX + 1, unit)
  {
    var most := candidates * Numbers.U64_MAX + Numbers.U64_MAX + 1;
    assert size * unit + (bytes + 1) * unit == (size + bytes + 1) * unit;
    TimesMonotone(size + bytes + 1, most, unit, unit);
  }

  /** Under the limits of the configuration, distinct candidate paths leave room for the root potential. */
  lemma DistinctFits(p: Problem)
    requires Configurable(p.policy) && DistinctPaths(p.candidates)
    ensures ObjectiveFits(p, DISTINCT_CAP) && 793 * DISTINCT_CAP <= Numbers.I128_MAX
  {
    hide Weights, EdgeCount, DistinctPaths;
    assert 793 * DISTINCT_CAP <= Numbers.I128_MAX;
    if !TooManyFiles(p) && EdgeCount(p) <= p.policy.maxCandidateEdges {
      forall r: nat, c: nat | Edge(Weights(p), r, c) ensures Weights(p)[r][c].value <= DISTINCT_CAP {
        WeightByPath(p, r, c);
      }
    }
  }

  // ----- The engine -----

  ghost predicate ReadBackFits(ledger: Ledger) {
    forall x :: x in ledger.values ==> Numbers.InI128(x)
  }

  ghost predicate RootsFit(ledger: Ledger) {
    forall x :: x in ledger.roots ==> Numbers.InI128(x)
  }

  ghost predicate TotalsFit(ledger: Ledger) {
    forall x :: x in ledger.totals ==> Numbers.InU128(x)
  }

  /** Every number computed fits its type: those read back always, totals and root potentials under the
      limits of the configuration, or of the defaults when candidate paths may repeat. */
  ghost predicate NumbersFit(policy: Policy, candidates: seq<TorrentFile>, ledger: Ledger) {
    && ReadBackFits(ledger)
    && (Configurable(policy) ==> TotalsFit(ledger))
    && (Configurable(policy) && DistinctPaths(candidates) ==> RootsFit(ledger))
    && (Default(policy) ==> RootsFit(ledger))
  }

  lemma NothingFits(policy: Policy, candidates: seq<TorrentFile>)
    ensures NumbersFit(policy, candidates, Blank())
  {
  }

  lemma FitsTogether(policy: Policy, candidates: seq<TorrentFile>, ledger: Ledger, more: Ledger)
    requires NumbersFit(policy, candidates, ledger) && NumbersFit(policy, candidates, more)
    ensures NumbersFit(policy, candidates, Joined(ledger, more))
  {
    hide DistinctPaths, Configurable, Default;
  }

  /** The weights' bound that the engine is run with. */
  ghost function CapOf(p: Problem): nat {
    HeaviestNonNegative(p.policy.maxAssignmentFiles, p.policy.maxCandidateEdges);
    if Configurable(p.policy) && DistinctPaths(p.candidates) then DISTINCT_CAP
    else HeaviestEdge(p.policy.maxAssignmentFiles, p.policy.maxCandidateEdges)
  }

  lemma CapFits(p: Problem)
    requires LeavesRoom(p.policy)
    ensures ObjectiveFits(p, CapOf(p))
  {
    hide DistinctPaths, Configurable;
    if Configurable(p.policy) && DistinctPaths(p.candidates) {
      DistinctFits(p);
    } else {
      BudgetsFit(p, p.policy.maxAssignmentFiles, p.policy.maxCandidateEdges, CapOf(p));
    }
  }

  lemma RangesFit(p: Problem, ledger: Ledger)
    requires LeavesRoom(p.policy) && EngineWithin(ledger, CapOf(p), Largest(p.policy))
    ensures NumbersFit(p.policy, p.candidates, ledger)
  {
    var most, cap := Largest(p.policy), CapOf(p);
    HeaviestFits(p.policy);
    if Configurable(p.policy) {
      TimesMonotone(most.rows, 793, cap, cap);
      if DistinctPaths(p.candidates) {
        DistinctFits(p);
      }
    }
    hide HeaviestEdge, DistinctPaths;
    if Default(p.policy) {
      TimesMonotone(most.rows, DEFAULT_MAX_COMPONENT_FILES, cap, cap);
    }
  }

  /** The assignment engine under budgets that leave the solver room. Besides what `AssignWith` promises,
      every number it computes fits its type. */
  method AssignSafely(p: Problem)
    returns (r: Result<Assignment, AssignmentError>, ghost m: Pairing, ghost cells: nat, ghost ledger: Ledger)
    requires LeavesRoom(p.policy)
    ensures r.Failure? <==> OutcomeOf(p) == OverBudget
    ensures r.Success? ==> (r.value.ambiguous <==> AmbiguousMaximum(Weights(p), AllRows(Weights(p))))
    ensures Decides(p, OutcomeOf(p), r, m)
    ensures cells <= p.policy.maxAssignmentOperations
    ensures NumbersFit(p.policy, p.candidates, ledger)
  {
    hide *;
    CapFits(p);
    ComponentsBounded(p.policy);
    r, m, cells, ledger := AssignWith(p, CapOf(p), Largest(p.policy));
    RangesFit(p, ledger);
  }

  /** Within the limits of the configuration, the sum of all scores fits u64, and the units and every weight fit u128. */
  lemma UnitsFit(p: Problem)
    requires Configurable(p.policy) && !TooManyFiles(p) && EdgeCount(p) <= p.policy.maxCandidateEdges
    ensures GraphTotal(Scores(p)) <= Numbers.U64_MAX && PrimaryBytes(p) <= Numbers.U128_MAX
    ensures RequiredUnit(p) <= Numbers.U128_MAX
    ensures forall r: nat, c: nat :: Edge(Weights(p), r, c) ==> Weights(p)[r][c].value <= Numbers.I128_MAX
  {
    UnitBounds(p, CONFIGURED_MAX_FILES, CONFIGURED_MAX_EDGES);
    PrimaryBytesBound(p);
    TimesMonotone(|p.candidates|, CONFIGURED_MAX_FILES, U64_LIMIT - 1, U64_LIMIT - 1);
    HeaviestFits(p.policy);
    hide Weights, Scores, PrimaryBytes, RequiredUnit, EdgeCount;
    forall r: nat, c: nat | Edge(Weights(p), r, c) ensures Weights(p)[r][c].value <= Numbers.I128_MAX {
      WeightBound(p, p.policy.maxAssignmentFiles, p.policy.maxCandidateEdges, r, c);
    }
  }

  /** The matching the engine returns is best on the three levels in order, and no other is as good. */
  lemma UniqueMaximumIsLexicographicallyBest(p: Problem, m: Pairing, n: Pairing)
    requires UniqueMaximum(Weights(p), AllRows(Weights(p)), m) && IsMatching(Weights(p), n)
    ensures IsMatching(Scores(p), m) && IsMatching(Scores(p), n)
    ensures LexAtMost(LevelsOf(p, n), LevelsOf(p, m))
    ensures LevelsOf(p, n) == LevelsOf(p, m) ==> n == m
  {
    hide Weights, Scores, LevelsOf;
    OptimalAssignment.MatchingRows(Weights(p), n);
    WeightOrdersLexicographically(p, n, m);
    WeightOrdersLexicographically(p, m, n);
    if LevelsOf(p, n) == LevelsOf(p, m) {
      assert Maximum(Weights(p), AllRows(Weights(p)), n);
    }
  }
}
