/** What every decision to match promises about its mappings and its byte counts. */
module Consistency {
  import opened Wrappers
  import opened Sums
  import opened Matching
  import opened Files
  import opened Sorting
  import opened Objective
  import opened Assign
  import opened Decision
  import Evaluate
  import Pieces

  // ----- Sums over parts of a list -----

  type Weighed = (int, nat)

  function Load(x: Weighed): int {
    x.1
  }

  function TotalLoad(s: seq<Weighed>): int {
    Sum(Map(Load, s))
  }

  lemma TotalLoadConcat(a: seq<Weighed>, b: seq<Weighed>)
    ensures TotalLoad(a + b) == TotalLoad(a) + TotalLoad(b)
  {
    hide Sum;
    assert Map(Load, a + b) == Map(Load, a) + Map(Load, b);
    SumConcat(Map(Load, a), Map(Load, b));
  }

  lemma TotalLoadOne(x: Weighed)
    ensures TotalLoad([x]) == x.1 && TotalLoad([]) == 0
  {
    var s := Map(Load, [x]);
    assert s == [x.1] && s[..0] == [];
    assert Sum(s) == Sum(s[..0]) + s[0];
    var none: seq<Weighed> := [];
    assert Map(Load, none) == [];
  }

  lemma TotalLoadRemove(s: seq<Weighed>, i: nat)
    requires i < |s|
    ensures TotalLoad(s) == s[i].1 + TotalLoad(Remove(s, i))
  {
    hide TotalLoad;
    assert s == s[..i] + ([s[i]] + s[i + 1..]);
    TotalLoadConcat(s[..i], [s[i]] + s[i + 1..]);
    TotalLoadConcat([s[i]], s[i + 1..]);
    TotalLoadConcat(s[..i], s[i + 1..]);
    TotalLoadOne(s[i]);
  }

  lemma TotalLoadNonNegative(s: seq<Weighed>)
    ensures TotalLoad(s) >= 0
  {
    SumNonNegative(Map(Load, s));
  }

  /** A list without repeats weighs no more than one that has all its elements. */
  lemma {:induction false} PartWeighsLess(a: seq<Weighed>, b: seq<Weighed>)
    requires NoRepeats(a) && forall x :: x in a ==> x in b
    ensures TotalLoad(a) <= TotalLoad(b)
    decreases |a|
  {
    hide TotalLoad;
    if a == [] {
      TotalLoadOne((0, 0));
      TotalLoadNonNegative(b);
    } else {
      var x, rest := a[0], a[1..];
      assert x in a;
      var i :| 0 <= i < |b| && b[i] == x;
      forall y | y in rest ensures y in Remove(b, i) {
        var k :| 0 <= k < |rest| && rest[k] == y;
        assert a[k + 1] == y && y in a && y != x;
        var j :| 0 <= j < |b| && b[j] == y;
        assert Remove(b, i)[if j < i then j else j - 1] == y;
      }
      PartWeighsLess(rest, Remove(b, i));
      TotalLoadRemove(a, 0);
      assert Remove(a, 0) == rest;
      TotalLoadRemove(b, i);
    }
  }

  // ----- Where mappings come from -----

  ghost predicate StandsFor(c: TorrentFile, f: FileMapping) {
    !c.padding && c.ordinal == f.ordinal && c.path == f.candidatePath && c.size == f.size
  }

  ghost predicate ComesFrom(s: Source, x: SourceFile, f: FileMapping) {
    s.available && x in s.files && s.id == f.sourceId && x.id == f.sourceFileId && x.path == f.sourcePath && x.size == f.size
  }

  ghost predicate FromCandidate(q: Request, f: FileMapping) {
    exists c :: c in q.candidate.files && StandsFor(c, f)
  }

  ghost predicate FromSource(q: Request, f: FileMapping) {
    exists s, x :: s in q.sources && ComesFrom(s, x, f)
  }

  function Reference(x: (SourceId, SourceFile)): (nat, nat) {
    (x.0, x.1.id)
  }

  function MappedReference(f: FileMapping): (nat, nat) {
    (f.sourceId, f.sourceFileId)
  }

  /** What a mapping pairs. */
  ghost predicate PairsUp(p: Problem, f: FileMapping, i: nat, j: nat) {
    && i < |p.candidates| && j < |p.sources|
    && f.ordinal == p.candidates[i].ordinal && f.candidatePath == p.candidates[i].path && f.size == p.candidates[i].size
    && f.sourceId == p.sources[j].0 && f.sourceFileId == p.sources[j].1.id && f.sourcePath == p.sources[j].1.path
    && f.size == p.sources[j].1.size && ScoreAt(p, i, j) == Some(f.score)
  }

  lemma MaximumIsMatching(p: Problem)
    ensures IsMatching(Weights(p), TheMaximum(p))
  {
    hide Weights;
  }

  /** The mappings of a problem pair each its own candidate with its own source file, of one size. */
  lemma MappingPairs(p: Problem) returns (at: seq<nat>, from: seq<nat>)
    ensures |at| == |from| == |MappingsOf(p)| && NoRepeats(from)
    ensures forall k :: 0 <= k < |at| ==> PairsUp(p, MappingsOf(p)[k], at[k], from[k])
    ensures forall j, k :: 0 <= j < k < |at| ==> at[j] < at[k]
  {
    var m := TheMaximum(p);
    MaximumIsMatching(p);
    hide Weights, EdgeScore, MappingsTo, MappedRow, PairsUp, IsMatching;
    Evaluate.MappingsToRows(p, m, |p.candidates|);
    at := Evaluate.RowsTo(m, |p.candidates|);
    forall k | 0 <= k < |at| ensures at[k] in m {
      assert at[k] in at;
    }
    from := seq(|at|, k requires 0 <= k < |at| => m[at[k]]);
    forall k | 0 <= k < |at| ensures PairsUp(p, MappingsOf(p)[k], at[k], from[k]) {
      RowPairsUp(p, m, at[k]);
    }
    forall j, k | 0 <= j < k < |at| ensures from[j] != from[k] {
      assert at[j] < at[k];
      ColumnsDiffer(p, m, at[j], at[k]);
    }
  }

  lemma RowPairsUp(p: Problem, m: Pairing, r: nat)
    requires IsMatching(Weights(p), m) && r in m && r < |p.candidates| && m[r] < |p.sources|
    ensures PairsUp(p, MappedRow(p, m, r), r, m[r])
  {
    hide Weights, EdgeScore;
    SameEdges(p, r, m[r]);
  }

  lemma ColumnsDiffer(p: Problem, m: Pairing, r: nat, r': nat)
    requires IsMatching(Weights(p), m) && r in m && r' in m && r != r'
    ensures m[r] != m[r']
  {
    hide Weights;
  }

  // ----- Problems of a request -----

  ghost predicate IsSourceProblem(q: Request, p: Problem) {
    exists s :: s in SortedSources(q) && p == SourceProblem(q, s)
  }

  /** The problems the evaluation of a request solves. */
  ghost predicate ProblemOf(q: Request, p: Problem) {
    IsSourceProblem(q, p) || p == SeasonProblem(q, SortedSources(q))
  }

  lemma SortedIsSource(q: Request, s: Source)
    ensures s in SortedSources(q) <==> s in q.sources && s.available
  {
    SameElements(SortedSources(q), Filter(Available, q.sources), s);
  }

  lemma {:induction false} ConcatOrigin(sources: seq<Source>, x: (SourceId, SourceFile)) returns (s: Source)
    requires x in Concat(Map(Tagged, sources))
    ensures s in sources && x in Tagged(s)
  {
    hide Tagged;
    var parts := Map(Tagged, sources);
    if x in parts[0] {
      s := sources[0];
    } else {
      assert parts[1..] == Map(Tagged, sources[1..]);
      s := ConcatOrigin(sources[1..], x);
    }
  }

  lemma ProblemSource(q: Request, p: Problem, j: nat) returns (s: Source)
    requires ProblemOf(q, p) && j < |p.sources|
    ensures s in q.sources && s.available && p.sources[j].0 == s.id && p.sources[j].1 in s.files
  {
    hide EpisodeOf, SortedSources;
    if IsSourceProblem(q, p) {
      s :| s in SortedSources(q) && p == SourceProblem(q, s);
    } else {
      assert p.sources[j] in p.sources;
      s := ConcatOrigin(Filter(EpisodeOf(q.release), SortedSources(q)), p.sources[j]);
      var i :| 0 <= i < |Tagged(s)| && Tagged(s)[i] == p.sources[j];
    }
    SortedIsSource(q, s);
  }

  lemma ProblemCandidates(q: Request, p: Problem)
    requires ProblemOf(q, p)
    ensures p.candidates == CandidateFiles(q)
  {
    hide SortedSources, CandidateFiles;
  }

  lemma MappingOrigins(q: Request, p: Problem)
    requires ProblemOf(q, p)
    ensures forall f :: f in MappingsOf(p) ==> FromCandidate(q, f) && FromSource(q, f)
  {
    var at, from := MappingPairs(p);
    ProblemCandidates(q, p);
    hide MappingsOf, CandidateFiles, ProblemOf;
    var mappings := MappingsOf(p);
    forall k | 0 <= k < |mappings| ensures FromCandidate(q, mappings[k]) && FromSource(q, mappings[k]) {
      var c := p.candidates[at[k]];
      Evaluate.CandidateIsFile(q, c);
      assert StandsFor(c, mappings[k]);
      var s := ProblemSource(q, p, from[k]);
      assert ComesFrom(s, p.sources[from[k]].1, mappings[k]);
    }
  }

  // ----- One to one -----

  function FileId(x: SourceFile): int {
    x.id
  }

  /** Sources, and the files inside each source, have distinct identities. */
  ghost predicate DistinctSources(q: Request) {
    && NoRepeats(Map(SourceKey, q.sources))
    && forall s :: s in q.sources ==> NoRepeats(Map(FileId, s.files))
  }

  lemma TaggedReferences(s: Source)
    requires NoRepeats(Map(FileId, s.files))
    ensures NoRepeats(Map(Reference, Tagged(s)))
  {
    forall i, j | 0 <= i < j < |s.files| ensures Map(Reference, Tagged(s))[i] != Map(Reference, Tagged(s))[j] {
      assert Map(FileId, s.files)[i] != Map(FileId, s.files)[j];
    }
  }

  lemma {:induction false} ConcatReferences(sources: seq<Source>)
    requires NoRepeats(Map(SourceKey, sources)) && forall s :: s in sources ==> NoRepeats(Map(FileId, s.files))
    ensures NoRepeats(Map(Reference, Concat(Map(Tagged, sources))))
  {
    if |sources| > 0 {
      var parts := Map(Tagged, sources);
      assert parts[1..] == Map(Tagged, sources[1..]);
      assert Map(SourceKey, sources)[1..] == Map(SourceKey, sources[1..]);
      ConcatReferences(sources[1..]);
      assert sources[0] in sources;
      TaggedReferences(sources[0]);
      var first, rest := Tagged(sources[0]), Concat(Map(Tagged, sources[1..]));
      hide Tagged;
      forall i, j | 0 <= i < |first| && 0 <= j < |rest| ensures Reference(first[i]) != Reference(rest[j]) {
        assert rest[j] in rest;
        var s := ConcatOrigin(sources[1..], rest[j]);
        var k :| 0 <= k < |sources[1..]| && sources[1..][k] == s;
        assert Map(SourceKey, sources)[0] != Map(SourceKey, sources)[k + 1];
        TaggedId(sources[0], first[i]);
        TaggedId(s, rest[j]);
      }
      JoinReferences(first, rest);
    }
  }

  lemma TaggedId(s: Source, x: (SourceId, SourceFile))
    requires x in Tagged(s)
    ensures x.0 == s.id && x.1 in s.files
  {
    var i :| 0 <= i < |Tagged(s)| && Tagged(s)[i] == x;
  }

  lemma JoinReferences(a: seq<(SourceId, SourceFile)>, b: seq<(SourceId, SourceFile)>)
    requires NoRepeats(Map(Reference, a)) && NoRepeats(Map(Reference, b))
    requires forall i, j :: 0 <= i < |a| && 0 <= j < |b| ==> Reference(a[i]) != Reference(b[j])
    ensures NoRepeats(Map(Reference, a + b))
  {
    hide Reference;
    assert Map(Reference, a + b) == Map(Reference, a) + Map(Reference, b);
  }

  lemma ProblemReferences(q: Request, p: Problem)
    requires ProblemOf(q, p) && DistinctSources(q)
    ensures NoRepeats(Map(Reference, p.sources))
  {
    hide EpisodeOf, SortedSources;
    var sorted := SortedSources(q);
    if IsSourceProblem(q, p) {
      var s :| s in sorted && p == SourceProblem(q, s);
      SortedIsSource(q, s);
      TaggedReferences(s);
    } else {
      SortedKeys(q);
      var chosen := Filter(EpisodeOf(q.release), sorted);
      Evaluate.FilterKeepsDistinctKeys(SourceKey, EpisodeOf(q.release), sorted);
      forall s | s in chosen ensures NoRepeats(Map(FileId, s.files)) {
        SortedIsSource(q, s);
      }
      ConcatReferences(chosen);
    }
  }

  lemma SortedKeys(q: Request)
    requires NoRepeats(Map(SourceKey, q.sources))
    ensures NoRepeats(Map(SourceKey, SortedSources(q)))
  {
    Evaluate.FilterKeepsDistinctKeys(SourceKey, Available, q.sources);
    MapReordered(SourceKey, Filter(Available, q.sources), SortedSources(q));
    ReorderingNoRepeats(Map(SourceKey, Filter(Available, q.sources)), Map(SourceKey, SortedSources(q)));
  }

  lemma MappingsOneToOne(q: Request, p: Problem)
    requires ProblemOf(q, p) && DistinctSources(q)
    ensures NoRepeats(Map(MappedReference, MappingsOf(p)))
  {
    var at, from := MappingPairs(p);
    ProblemReferences(q, p);
    hide MappingsOf, ProblemOf;
    var mappings := MappingsOf(p);
    forall i, j | 0 <= i < j < |mappings| ensures Map(MappedReference, mappings)[i] != Map(MappedReference, mappings)[j] {
      var a, b := from[i], from[j];
      assert a != b;
      assert Map(Reference, p.sources)[a] != Map(Reference, p.sources)[b];
    }
  }

  // ----- Bytes -----

  function FilePair(c: TorrentFile): Weighed {
    (c.ordinal, c.size)
  }

  function MappingPair(f: FileMapping): Weighed {
    (f.ordinal, f.size)
  }

  function RequiredFiles(q: Request): seq<TorrentFile> {
    Filter(IsRequired(q.policy), q.candidate.files)
  }

  function MappedRequiredFiles(q: Request, mappings: seq<FileMapping>): seq<FileMapping> {
    Selected(q, IsRequired(q.policy), mappings)
  }

  lemma {:induction false} RequiredBytesOf(policy: Policy, files: seq<TorrentFile>)
    ensures Sum(Map(RequiredSize(policy), files)) == TotalLoad(Map(FilePair, Filter(IsRequired(policy), files)))
  {
    if |files| == 0 {
      TotalLoadOne((0, 0));
      assert Map(FilePair, Filter(IsRequired(policy), files)) == [];
    } else {
      var c, rest := files[0], files[1..];
      RequiredBytesOf(policy, rest);
      FirstSize(policy, c, rest);
      FirstKept(policy, c, rest);
      hide *;
      assert files == [c] + rest;
    }
  }

  lemma FirstSize(policy: Policy, c: TorrentFile, rest: seq<TorrentFile>)
    ensures Sum(Map(RequiredSize(policy), [c] + rest)) == (if IsRequired(policy)(c) then c.size else 0) + Sum(Map(RequiredSize(policy), rest))
  {
    hide Required;
    var first := [RequiredSize(policy)(c)];
    assert Map(RequiredSize(policy), [c] + rest) == first + Map(RequiredSize(policy), rest);
    SumConcat(first, Map(RequiredSize(policy), rest));
    assert Sum(first) == Sum(first[..0]) + first[0];
  }

  lemma FirstKept(policy: Policy, c: TorrentFile, rest: seq<TorrentFile>)
    ensures TotalLoad(Map(FilePair, Filter(IsRequired(policy), [c] + rest))) ==
            (if IsRequired(policy)(c) then c.size else 0) + TotalLoad(Map(FilePair, Filter(IsRequired(policy), rest)))
  {
    hide TotalLoad, Required;
    var kept := Filter(IsRequired(policy), rest);
    FilterCons(IsRequired(policy), c, rest);
    if IsRequired(policy)(c) {
      assert Map(FilePair, [c] + kept) == [FilePair(c)] + Map(FilePair, kept);
      TotalLoadConcat([FilePair(c)], Map(FilePair, kept));
      TotalLoadOne(FilePair(c));
    }
  }

  lemma MappedBytesOf(mappings: seq<FileMapping>)
    ensures Sum(Map(MappedSize, mappings)) == TotalLoad(Map(MappingPair, mappings))
  {
    hide Sum;
    assert Map(MappedSize, mappings) == Map(Load, Map(MappingPair, mappings));
  }

  /** The file an ordinal names, in a manifest of distinct ordinals. */
  lemma OrdinalNames(q: Request, c: TorrentFile, d: TorrentFile)
    requires NoRepeats(Map(Ordinal, q.candidate.files)) && c in q.candidate.files && d in q.candidate.files && c.ordinal == d.ordinal
    ensures c == d
  {
    hide NoRepeats, Map;
    var files := q.candidate.files;
    var i :| 0 <= i < |files| && files[i] == c;
    var j :| 0 <= j < |files| && files[j] == d;
    if i != j {
      OrdinalsDiffer(files, i, j);
    }
  }

  lemma OrdinalsDiffer(files: seq<TorrentFile>, i: nat, j: nat)
    requires NoRepeats(Map(Ordinal, files)) && i < |files| && j < |files| && i != j
    ensures files[i].ordinal != files[j].ordinal
  {
    assert Map(Ordinal, files)[i] != Map(Ordinal, files)[j];
  }

  lemma FileWithOrdinal(q: Request, c: TorrentFile, test: TorrentFile -> bool)
    requires NoRepeats(Map(Ordinal, q.candidate.files)) && c in q.candidate.files
    ensures FileWith(q, c.ordinal, test) <==> test(c)
  {
    var found := Filter(ByOrdinal(c.ordinal), q.candidate.files);
    assert c in found;
    assert found[0] in found;
    hide Filter;
    OrdinalNames(q, c, found[0]);
  }

  /** The mappings of one problem, and the files they stand for. */
  ghost predicate Faithful(q: Request, mappings: seq<FileMapping>) {
    && NoRepeats(Map(Ordinal, q.candidate.files))
    && Evaluate.OrdinalsIncrease(mappings)
    && forall f :: f in mappings ==> FromCandidate(q, f)
  }

  lemma MappedIsRequired(q: Request, mappings: seq<FileMapping>, f: FileMapping)
    requires Faithful(q, mappings) && f in MappedRequiredFiles(q, mappings)
    ensures MappingPair(f) in Map(FilePair, RequiredFiles(q))
  {
    hide Filter;
    var c :| c in q.candidate.files && StandsFor(c, f);
    FileWithOrdinal(q, c, IsRequired(q.policy));
    assert c in RequiredFiles(q);
    var i :| 0 <= i < |RequiredFiles(q)| && RequiredFiles(q)[i] == c;
    assert Map(FilePair, RequiredFiles(q))[i] == MappingPair(f);
  }

  lemma RequiredIsMapped(q: Request, mappings: seq<FileMapping>, c: TorrentFile)
    requires Faithful(q, mappings) && AllRequired(q, mappings) && c in RequiredFiles(q)
    ensures FilePair(c) in Map(MappingPair, MappedRequiredFiles(q, mappings))
  {
    hide Filter;
    Evaluate.CandidateIsFile(q, c);
    var files := CandidateFiles(q);
    var i :| 0 <= i < |files| && files[i] == c;
    assert Required(files[i], q.policy);
    var k :| 0 <= k < |mappings| && mappings[k].ordinal == c.ordinal;
    var f := mappings[k];
    assert f in mappings;
    var d :| d in q.candidate.files && StandsFor(d, f);
    OrdinalNames(q, c, d);
    FileWithOrdinal(q, c, IsRequired(q.policy));
    var selected := MappedRequiredFiles(q, mappings);
    assert f in selected;
    var j :| 0 <= j < |selected| && selected[j] == f;
    assert Map(MappingPair, selected)[j] == FilePair(c);
  }

  lemma SelectedDistinct(q: Request, mappings: seq<FileMapping>)
    requires Faithful(q, mappings)
    ensures NoRepeats(Map(MappingPair, MappedRequiredFiles(q, mappings)))
  {
    var selected := MappedRequiredFiles(q, mappings);
    forall i, j | 0 <= i < j < |mappings| ensures Map(Evaluate.MappingKey, mappings)[i] != Map(Evaluate.MappingKey, mappings)[j] {
      assert mappings[i].ordinal < mappings[j].ordinal;
    }
    Evaluate.FilterKeepsDistinctKeys(Evaluate.MappingKey, (f: FileMapping) => FileWith(q, f.ordinal, IsRequired(q.policy)), mappings);
    forall i, j | 0 <= i < j < |selected| ensures Map(MappingPair, selected)[i] != Map(MappingPair, selected)[j] {
      assert Map(Evaluate.MappingKey, selected)[i] != Map(Evaluate.MappingKey, selected)[j];
    }
  }

  lemma RequiredDistinct(q: Request)
    requires NoRepeats(Map(Ordinal, q.candidate.files))
    ensures NoRepeats(Map(FilePair, RequiredFiles(q)))
  {
    var files := RequiredFiles(q);
    Evaluate.FilterKeepsDistinctKeys(Ordinal, IsRequired(q.policy), q.candidate.files);
    forall i, j | 0 <= i < j < |files| ensures Map(FilePair, files)[i] != Map(FilePair, files)[j] {
      assert Map(Ordinal, files)[i] != Map(Ordinal, files)[j];
    }
  }

  /** Mapped required bytes never exceed the required bytes, and reach them when every required file
      is mapped. */
  lemma MappedWithinRequired(q: Request, mappings: seq<FileMapping>)
    requires Faithful(q, mappings)
    ensures 0 <= MappedRequired(q, mappings) <= RequiredBytes(q)
    ensures AllRequired(q, mappings) ==> MappedRequired(q, mappings) == RequiredBytes(q)
  {
    RequiredBytesOf(q.policy, q.candidate.files);
    MappedBytesOf(MappedRequiredFiles(q, mappings));
    MappedNonNegative(MappedRequiredFiles(q, mappings));
    var mapped, required := Map(MappingPair, MappedRequiredFiles(q, mappings)), Map(FilePair, RequiredFiles(q));
    SelectedDistinct(q, mappings);
    RequiredDistinct(q);
    hide TotalLoad, Sum, Filter, Faithful, AllRequired;
    forall x | x in mapped ensures x in required {
      var i :| 0 <= i < |mapped| && mapped[i] == x;
      assert MappedRequiredFiles(q, mappings)[i] in MappedRequiredFiles(q, mappings);
      MappedIsRequired(q, mappings, MappedRequiredFiles(q, mappings)[i]);
    }
    PartWeighsLess(mapped, required);
    if AllRequired(q, mappings) {
      forall x | x in required ensures x in mapped {
        var i :| 0 <= i < |required| && required[i] == x;
        assert RequiredFiles(q)[i] in RequiredFiles(q);
        RequiredIsMapped(q, mappings, RequiredFiles(q)[i]);
      }
      PartWeighsLess(required, mapped);
    }
  }

  lemma RatioWithin(present: nat, total: nat)
    requires present <= total
    ensures RatioFromBytes(present, total) <= PPM
    ensures total > 0 ==> (RatioFromBytes(present, total) == PPM <==> present == total)
    ensures total == 0 ==> RatioFromBytes(present, total) == 0
    ensures total > 0 ==> RatioFromBytes(present, total) * total <= present * PPM < (RatioFromBytes(present, total) + 1) * total
  {
    hide *;
    SameRatio(present, total);
    Pieces.RatioBounds(present, total);
  }

  /** Both ratios the service computes are the same for a part, which never reaches the truncation. */
  lemma SameRatio(present: nat, total: nat)
    requires present <= total
    ensures RatioFromBytes(present, total) == Pieces.PresentRatio(present, total)
  {
    Pieces.RatioBounds(present, total);
    if total > 0 {
      var quotient := present * PPM / total;
      assert quotient <= PPM;
    }
  }

  // ----- Decisions -----

  lemma {:induction false} DecisionsAreDecided(evaluations: seq<Evaluation>, d: Decision)
    requires d in Decisions(evaluations)
    ensures Decided(d) in evaluations
  {
    var k := |evaluations| - 1;
    if d in Decisions(evaluations[..k]) {
      DecisionsAreDecided(evaluations[..k], d);
    }
  }

  /** A match is one of the decisions that were made. */
  lemma ConcludeMatches(q: Request, evaluations: seq<Evaluation>)
    requires Conclude(q, evaluations).outcome == Match
    ensures Decided(Conclude(q, evaluations)) in evaluations
  {
    var d := Conclude(q, evaluations);
    var choices := Decisions(evaluations);
    var sorted := Sort(choices, Preferred);
    hide Decisions, Sort, BaseEvidence, RequiredBytes;
    assert |sorted| > 0 && d == sorted[0];
    assert d in sorted;
    SameElements(sorted, choices, d);
    DecisionsAreDecided(evaluations, d);
  }

  /** The mode a decision may carry, given what its mappings cover. */
  ghost predicate ModeFits(q: Request, mode: Mode, mappings: seq<FileMapping>) {
    match mode
    case Strict => AllRequired(q, mappings) && AllExact(q, mappings)
    case Flexible => AllRequired(q, mappings) && !AllExact(q, mappings) && q.policy.allowFlexible
    case Partial => AnyPrimary(q, mappings) && q.policy.allowPartial
    case SeasonFromEpisodes => AnyPrimary(q, mappings) && TriesSeason(q)
  }

  ghost predicate Explains(q: Request, d: Decision, p: Problem, mode: Mode, n: nat) {
    ProblemOf(q, p) && ModeFits(q, mode, MappingsOf(p)) && d == Decide(q, mode, MappingsOf(p), n)
  }

  lemma SourceSettled(q: Request, s: Source, d: Decision)
    requires SourceEvaluated(q, s) == Decided(d)
    ensures JudgeSource(q, s, MappingsOf(SourceProblem(q, s))) == Decided(d)
  {
    hide JudgeSource, Incompatible, OutcomeOf, MappingsOf, SourceProblem;
  }

  lemma JudgedFits(q: Request, s: Source, mappings: seq<FileMapping>, d: Decision) returns (mode: Mode)
    requires JudgeSource(q, s, mappings) == Decided(d)
    ensures ModeFits(q, mode, mappings) && d == Decide(q, mode, mappings, 1)
  {
    hide AllRequired, AllExact, AnyPrimary, Decide, FailureReason;
    if AllRequired(q, mappings) && AllExact(q, mappings) {
      mode := Strict;
    } else if AllRequired(q, mappings) && q.policy.allowFlexible {
      mode := Flexible;
    } else {
      mode := Partial;
    }
  }

  lemma SourceExplained(q: Request, s: Source, d: Decision) returns (mode: Mode)
    requires s in SortedSources(q) && SourceEvaluated(q, s) == Decided(d)
    ensures Explains(q, d, SourceProblem(q, s), mode, 1)
  {
    assert IsSourceProblem(q, SourceProblem(q, s));
    hide SourceEvaluated, SourceProblem, SortedSources, MappingsOf, ModeFits, Decide, JudgeSource, IsSourceProblem;
    SourceSettled(q, s, d);
    mode := JudgedFits(q, s, MappingsOf(SourceProblem(q, s)), d);
  }

  lemma SeasonExplained(q: Request, d: Decision)
    requires TriesSeason(q) && SeasonEvaluated(q, SortedSources(q)) == Decided(d)
    ensures Explains(q, d, SeasonProblem(q, SortedSources(q)), SeasonFromEpisodes, |SourceIds(MappingsOf(SeasonProblem(q, SortedSources(q))))|)
  {
    hide EpisodeFiles, OutcomeOf, SortedSources, MappingsOf, AnyPrimary, Decide, SourceIds;
  }

  lemma EvaluationExplained(q: Request, d: Decision) returns (p: Problem, mode: Mode, n: nat)
    requires Decided(d) in Evaluations(q, SortedSources(q))
    ensures Explains(q, d, p, mode, n)
  {
    var sources := SortedSources(q);
    var evaluations := Evaluations(q, sources);
    hide SortedSources, SourceEvaluated, SeasonEvaluated, Explains, SeasonProblem;
    var i :| 0 <= i < |evaluations| && evaluations[i] == Decided(d);
    if i < |sources| {
      assert SourceEvaluated(q, sources[i]) == Decided(d);
      mode := SourceExplained(q, sources[i], d);
      p, n := SourceProblem(q, sources[i]), 1;
    } else {
      SeasonExplained(q, d);
      p, mode, n := SeasonProblem(q, sources), SeasonFromEpisodes, |SourceIds(MappingsOf(SeasonProblem(q, sources)))|;
    }
  }

  lemma MatchExplained(q: Request) returns (p: Problem, mode: Mode, n: nat)
    requires Evaluated(q).outcome == Match
    ensures InvalidManifest(q) == None && Explains(q, Evaluated(q), p, mode, n)
  {
    hide InvalidManifest, Evaluations, RequiredBytes, InputOverBudget, SortedSources, BaseEvidence, Present, Conclude, Explains;
    ConcludeMatches(q, Evaluations(q, SortedSources(q)));
    p, mode, n := EvaluationExplained(q, Evaluated(q));
  }

  /** A required file is mapped at its own path. */
  ghost predicate MappedInPlace(d: Decision, c: TorrentFile) {
    exists k :: 0 <= k < |d.mappings| && d.mappings[k].ordinal == c.ordinal
             && d.mappings[k].candidatePath == c.path && d.mappings[k].sourcePath == c.path && d.mappings[k].size == c.size
  }

  lemma ExactInPlace(q: Request, mappings: seq<FileMapping>, c: TorrentFile)
    requires Faithful(q, mappings) && AllExact(q, mappings) && c in q.candidate.files && Required(c, q.policy)
    ensures exists k :: 0 <= k < |mappings| && mappings[k].ordinal == c.ordinal
                     && mappings[k].candidatePath == c.path && mappings[k].sourcePath == c.path && mappings[k].size == c.size
  {
    assert !c.padding;
    Evaluate.CandidateIsFile(q, c);
    hide OptionalPath;
    var files := CandidateFiles(q);
    var i :| 0 <= i < |files| && files[i] == c;
    var k :| 0 <= k < |mappings| && mappings[k].ordinal == files[i].ordinal && mappings[k].candidatePath == mappings[k].sourcePath;
    assert mappings[k] in mappings;
    var d :| d in q.candidate.files && StandsFor(d, mappings[k]);
    OrdinalNames(q, c, d);
  }

  /** The part in millionths, rounded down. */
  ghost predicate RatioFloors(ratio: nat, part: int, total: int) {
    if total == 0 then ratio == 0 else ratio * total <= part * 1000000 < (ratio + 1) * total
  }

  lemma MakeFloor(ratio: nat, part: int, total: int)
    requires total == 0 ==> ratio == 0
    requires total != 0 ==> ratio * total <= part * PPM < (ratio + 1) * total
    ensures RatioFloors(ratio, part, total)
  {
  }

  /** What a decision to match promises. */
  ghost predicate Consistent(q: Request, d: Decision) {
    && Evaluate.OrdinalsIncrease(d.mappings)
    && (forall f :: f in d.mappings ==> FromCandidate(q, f) && FromSource(q, f))
    && (DistinctSources(q) ==> NoRepeats(Map(MappedReference, d.mappings)))
    && d.mappedBytes == Sum(Map(MappedSize, d.mappings))
    && MappedRequired(q, d.mappings) + d.missingBytes == RequiredBytes(q) && d.missingBytes >= 0
    && d.presentRatio <= PPM
    && (RequiredBytes(q) > 0 ==> (d.presentRatio == PPM <==> d.missingBytes == 0))
    && RatioFloors(d.presentRatio, RequiredBytes(q) - d.missingBytes, RequiredBytes(q))
    && (d.mode == Some(Strict) || d.mode == Some(Flexible) ==> d.missingBytes == 0)
    && (d.mode == Some(Strict) ==> forall c :: c in q.candidate.files && Required(c, q.policy) ==> MappedInPlace(d, c))
  }

  lemma DecideConsistent(q: Request, p: Problem, mode: Mode, n: nat)
    requires InvalidManifest(q) == None && ProblemOf(q, p) && ModeFits(q, mode, MappingsOf(p))
    ensures Consistent(q, Decide(q, mode, MappingsOf(p), n))
  {
    hide *;
    var mappings := MappingsOf(p);
    var d := Decide(q, mode, mappings, n);
    FaithfulMappings(q, p);
    MappingOrigins(q, p);
    MappedWithinRequired(q, mappings);
    if DistinctSources(q) {
      MappingsOneToOne(q, p);
    }
    DecideParts(q, mode, mappings, n);
    RatioWithin(MappedRequired(q, mappings), RequiredBytes(q));
    MakeFloor(d.presentRatio, MappedRequired(q, mappings), RequiredBytes(q));
    ModeCovers(q, mode, mappings);
    if mode == Strict {
      forall c | c in q.candidate.files && Required(c, q.policy) ensures MappedInPlace(d, c) {
        ExactInPlace(q, mappings, c);
        InPlace(d, c);
      }
    }
    MakeConsistent(q, d);
  }

  lemma InPlace(d: Decision, c: TorrentFile)
    requires exists k :: 0 <= k < |d.mappings| && d.mappings[k].ordinal == c.ordinal
                      && d.mappings[k].candidatePath == c.path && d.mappings[k].sourcePath == c.path && d.mappings[k].size == c.size
    ensures MappedInPlace(d, c)
  {
  }

  lemma MakeConsistent(q: Request, d: Decision)
    requires Evaluate.OrdinalsIncrease(d.mappings)
    requires forall f :: f in d.mappings ==> FromCandidate(q, f) && FromSource(q, f)
    requires DistinctSources(q) ==> NoRepeats(Map(MappedReference, d.mappings))
    requires d.mappedBytes == Sum(Map(MappedSize, d.mappings))
    requires MappedRequired(q, d.mappings) + d.missingBytes == RequiredBytes(q) && d.missingBytes >= 0
    requires d.presentRatio <= PPM
    requires RequiredBytes(q) > 0 ==> (d.presentRatio == PPM <==> d.missingBytes == 0)
    requires RatioFloors(d.presentRatio, RequiredBytes(q) - d.missingBytes, RequiredBytes(q))
    requires d.mode == Some(Strict) || d.mode == Some(Flexible) ==> d.missingBytes == 0
    requires d.mode == Some(Strict) ==> forall c :: c in q.candidate.files && Required(c, q.policy) ==> MappedInPlace(d, c)
    ensures Consistent(q, d)
  {
  }

  lemma ModeCovers(q: Request, mode: Mode, mappings: seq<FileMapping>)
    requires ModeFits(q, mode, mappings)
    ensures mode == Strict || mode == Flexible ==> AllRequired(q, mappings)
    ensures mode == Strict ==> AllExact(q, mappings)
  {
    hide AllRequired, AllExact;
  }

  lemma DecideParts(q: Request, mode: Mode, mappings: seq<FileMapping>, n: nat)
    requires 0 <= MappedRequired(q, mappings) <= RequiredBytes(q)
    ensures var d := Decide(q, mode, mappings, n);
      && d.mappings == mappings && d.mode == Some(mode) && d.mappedBytes == Sum(Map(MappedSize, mappings))
      && d.missingBytes == RequiredBytes(q) - MappedRequired(q, mappings)
      && d.presentRatio == RatioFromBytes(MappedRequired(q, mappings), RequiredBytes(q))
  {
    hide MappedRequired, RequiredBytes, RatioFromBytes, Sum, Selected, BaseEvidence, SourceIds;
  }

  lemma FaithfulMappings(q: Request, p: Problem)
    requires InvalidManifest(q) == None && ProblemOf(q, p)
    ensures Faithful(q, MappingsOf(p)) && Evaluate.OrdinalsIncrease(MappingsOf(p))
  {
    assert NoRepeats(Map(Ordinal, q.candidate.files));
    hide InvalidManifest;
    ProblemCandidates(q, p);
    MappingOrigins(q, p);
    hide ProblemOf, CandidateFiles;
    Evaluate.CandidatesIncreasing(q);
    Evaluate.MappingsIncrease(p, TheMaximum(p));
  }

  /** Every decision to match is consistent: mappings are one to one between files of equal size and
      strictly ordered, mapped and missing required bytes add up, the ratio is full exactly when
      nothing is missing, and a strict match maps every required file at its own path. */
  lemma MatchesAreConsistent(q: Request)
    requires Evaluated(q).outcome == Match
    ensures Consistent(q, Evaluated(q))
  {
    hide Evaluated, InvalidManifest, ProblemOf, ModeFits, MappingsOf, Decide, Consistent;
    var p, mode, n := MatchExplained(q);
    DecideConsistent(q, p, mode, n);
  }
}
