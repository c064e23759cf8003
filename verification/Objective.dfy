/** The three-level objective of an assignment, encoded in one integer weight per edge: required
    files first, then primary bytes, then score. */
module Objective {
  import opened Wrappers
  import opened Sums
  import opened Matching
  import opened Files

  /** One assignment problem: candidate files against the files of one or more sources. */
  datatype Problem = Problem(
    names: Names,
    candidates: seq<TorrentFile>,
    sources: seq<(SourceId, SourceFile)>,
    policy: Policy,
    seasonMode: bool)

  function ScoreAt(p: Problem, i: nat, j: nat): Option<nat>
    requires i < |p.candidates| && j < |p.sources|
  {
    EdgeScore(p.names, p.candidates[i], p.sources[j].1, p.policy, p.seasonMode)
  }

  /** Every pair that scores, found by comparing all pairs. */
  function Scores(p: Problem): Graph {
    seq(|p.candidates|, i requires 0 <= i < |p.candidates| =>
      seq(|p.sources|, j requires 0 <= j < |p.sources| => ScoreAt(p, i, j)))
  }

  lemma TotalNonNegative(g: Graph)
    ensures GraphTotal(g) >= 0
    ensures forall r :: 0 <= r < |g| ==> RowTotal(g[r]) >= 0
  {
    assert IsMatching(g, map[]);
    WeightAtMostTotal(g, map[]);
    forall r | 0 <= r < |g| ensures RowTotal(g[r]) >= 0 {
      GainAtMostRow(g, map[], r);
    }
  }

  /** More than any sum of scores. */
  function ScoreUnit(p: Problem): (unit: nat)
    ensures unit > GraphTotal(Scores(p))
  {
    TotalNonNegative(Scores(p));
    GraphTotal(Scores(p)) + 1
  }

  function PrimarySizes(p: Problem): (sizes: seq<int>) {
    seq(|p.candidates|, i requires 0 <= i < |p.candidates| =>
      if Primary(p.candidates[i], p.policy) then p.candidates[i].size else 0)
  }

  function PrimaryBytes(p: Problem): (bytes: nat) {
    SumNonNegative(PrimarySizes(p));
    Sum(PrimarySizes(p))
  }

  /** More than any primary bytes and scores together. */
  function RequiredUnit(p: Problem): nat {
    TimesNonNegative(PrimaryBytes(p) + 1, ScoreUnit(p));
    Times(PrimaryBytes(p) + 1, ScoreUnit(p))
  }

  function EdgeWeight(policy: Policy, scoreUnit: nat, requiredUnit: nat, candidate: TorrentFile, score: nat): (w: nat)
    ensures w >= score
  {
    TimesNonNegative(candidate.size, scoreUnit);
    score
    + (if Primary(candidate, policy) then Times(candidate.size, scoreUnit) else 0)
    + (if Required(candidate, policy) then requiredUnit else 0)
  }

  function WeightAt(p: Problem, i: nat, j: nat): Option<nat>
    requires i < |p.candidates| && j < |p.sources|
  {
    match ScoreAt(p, i, j)
    case None => None
    case Some(score) => Some(EdgeWeight(p.policy, ScoreUnit(p), RequiredUnit(p), p.candidates[i], score))
  }

  /** The graph the assignment engine solves. */
  function Weights(p: Problem): Graph {
    seq(|p.candidates|, i requires 0 <= i < |p.candidates| =>
      seq(|p.sources|, j requires 0 <= j < |p.sources| => WeightAt(p, i, j)))
  }

  lemma SameEdges(p: Problem, r: nat, c: nat)
    ensures Edge(Weights(p), r, c) <==> Edge(Scores(p), r, c)
    ensures Edge(Weights(p), r, c) <==> r < |p.candidates| && c < |p.sources| && ScoreAt(p, r, c).Some?
  {
  }

  lemma SameMatchings(p: Problem, m: Pairing)
    ensures IsMatching(Weights(p), m) <==> IsMatching(Scores(p), m)
  {
    forall r, c ensures Edge(Weights(p), r, c) <==> Edge(Scores(p), r, c) {
      SameEdges(p, r, c);
    }
  }

  lemma WeightsPositive(p: Problem)
    ensures PositiveWeights(Weights(p))
  {
    hide Primary, Required, ScoreUnit, RequiredUnit, EdgeScore, EdgeWeight;
    forall r: nat, c: nat | Edge(Weights(p), r, c) ensures Weights(p)[r][c].value > 0 {
      var score := ScoreAt(p, r, c);
    }
  }

  // ----- The three levels -----

  ghost function RequiredHits(p: Problem, m: Pairing): (hits: seq<int>) {
    seq(|p.candidates|, i requires 0 <= i < |p.candidates| =>
      if i in m && Required(p.candidates[i], p.policy) then 1 else 0)
  }

  ghost function PrimaryHits(p: Problem, m: Pairing): (hits: seq<int>) {
    seq(|p.candidates|, i requires 0 <= i < |p.candidates| =>
      if i in m && Primary(p.candidates[i], p.policy) then p.candidates[i].size else 0)
  }

  /** Required files mapped, primary bytes mapped, total score. */
  datatype Levels = Levels(required: int, primaryBytes: int, score: int)

  ghost function LevelsOf(p: Problem, m: Pairing): Levels
    requires IsMatching(Scores(p), m)
  {
    Levels(Sum(RequiredHits(p, m)), Sum(PrimaryHits(p, m)), Weight(Scores(p), m))
  }

  ghost predicate LexAtMost(a: Levels, b: Levels) {
    || a.required < b.required
    || (a.required == b.required && a.primaryBytes < b.primaryBytes)
    || (a.required == b.required && a.primaryBytes == b.primaryBytes && a.score <= b.score)
  }

  lemma LevelBounds(p: Problem, m: Pairing)
    requires IsMatching(Scores(p), m)
    ensures 0 <= LevelsOf(p, m).score < ScoreUnit(p)
    ensures 0 <= LevelsOf(p, m).primaryBytes <= PrimaryBytes(p)
  {
    WeightAtMostTotal(Scores(p), m);
    SumMonotone(PrimaryHits(p, m), PrimarySizes(p));
    SumNonNegative(PrimaryHits(p, m));
  }

  /** The weight is the levels written in mixed radix. */
  lemma WeightIsLevels(p: Problem, m: Pairing)
    requires IsMatching(Scores(p), m) && IsMatching(Weights(p), m)
    ensures Weight(Weights(p), m) == Times(LevelsOf(p, m).required, RequiredUnit(p))
              + Times(LevelsOf(p, m).primaryBytes, ScoreUnit(p)) + LevelsOf(p, m).score
  {
    hide Times, Primary, Required, ScoreUnit, RequiredUnit, EdgeScore, EdgeWeight, Sum, IsMatching, Gain, WeightAt, ScoreAt;
    var n := |p.candidates|;
    var req := seq(n, i requires 0 <= i < n => Times(RequiredHits(p, m)[i], RequiredUnit(p)));
    var prim := seq(n, i requires 0 <= i < n => Times(PrimaryHits(p, m)[i], ScoreUnit(p)));
    var both := seq(n, i requires 0 <= i < n => req[i] + prim[i]);
    SumScale(RequiredHits(p, m), req, RequiredUnit(p));
    SumScale(PrimaryHits(p, m), prim, ScoreUnit(p));
    SumAdd(req, prim, both);
    forall i | 0 <= i < n ensures Gains(Weights(p), m)[i] == both[i] + Gains(Scores(p), m)[i] {
      GainParts(p, m, i);
    }
    SumAdd(both, Gains(Scores(p), m), Gains(Weights(p), m));
  }

  lemma GainParts(p: Problem, m: Pairing, i: nat)
    requires IsMatching(Scores(p), m) && IsMatching(Weights(p), m) && i < |p.candidates|
    ensures Gain(Weights(p), m, i) == Times(RequiredHits(p, m)[i], RequiredUnit(p))
              + Times(PrimaryHits(p, m)[i], ScoreUnit(p)) + Gain(Scores(p), m, i)
  {
    hide Times, Primary, Required, ScoreUnit, RequiredUnit, EdgeScore;
    TimesSmall(RequiredUnit(p));
    TimesSmall(ScoreUnit(p));
    if i in m {
      SameEdges(p, i, m[i]);
      assert Edge(Weights(p), i, m[i]);
    }
  }

  /** Comparing mixed-radix numbers with digits in range compares the digits. */
  lemma MixedRadix(a: Levels, b: Levels, unit: nat, primary: nat)
    requires 0 <= a.score < unit && 0 <= b.score < unit
    requires 0 <= a.primaryBytes <= primary && 0 <= b.primaryBytes <= primary
    ensures LexAtMost(a, b) <==>
              Times(a.required, Times(primary + 1, unit)) + Times(a.primaryBytes, unit) + a.score
              <= Times(b.required, Times(primary + 1, unit)) + Times(b.primaryBytes, unit) + b.score
  {
    hide Times;
    var big := Times(primary + 1, unit);
    LowerDigits(a, unit, primary);
    LowerDigits(b, unit, primary);
    if a.required < b.required {
      TimesStep(a.required, b.required, big);
    } else if b.required < a.required {
      TimesStep(b.required, a.required, big);
    } else if a.primaryBytes < b.primaryBytes {
      TimesStep(a.primaryBytes, b.primaryBytes, unit);
    } else if b.primaryBytes < a.primaryBytes {
      TimesStep(b.primaryBytes, a.primaryBytes, unit);
    }
  }

  lemma LowerDigits(a: Levels, unit: nat, primary: nat)
    requires 0 <= a.score < unit && 0 <= a.primaryBytes <= primary
    ensures 0 <= Times(a.primaryBytes, unit) + a.score < Times(primary + 1, unit)
  {
    TimesStep(a.primaryBytes, primary + 1, unit);
    TimesStep(-1, a.primaryBytes, unit);
  }

  /** The single integer is faithful: heavier means better on the first level that differs. */
  lemma WeightOrdersLexicographically(p: Problem, m: Pairing, n: Pairing)
    requires IsMatching(Weights(p), m) && IsMatching(Weights(p), n)
    ensures IsMatching(Scores(p), m) && IsMatching(Scores(p), n)
    ensures Weight(Weights(p), m) <= Weight(Weights(p), n) <==> LexAtMost(LevelsOf(p, m), LevelsOf(p, n))
  {
    hide *;
    SameMatchings(p, m);
    SameMatchings(p, n);
    WeightIsLevels(p, m);
    WeightIsLevels(p, n);
    LevelBounds(p, m);
    LevelBounds(p, n);
    MixedRadix(LevelsOf(p, m), LevelsOf(p, n), ScoreUnit(p), PrimaryBytes(p));
    RequiredUnitIs(p);
  }

  lemma RequiredUnitIs(p: Problem)
    ensures RequiredUnit(p) == Times(PrimaryBytes(p) + 1, ScoreUnit(p))
  {
  }
}
