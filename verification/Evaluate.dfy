/** The matcher's code: it computes the decision that `Decision.Evaluated` specifies. */
module Evaluate {
  import opened Wrappers
  import opened Sums
  import opened Matching
  import opened Files
  import opened Sorting
  import opened Objective
  import opened Assign
  import opened Decision
  import opened Bounds
  import opened Ledgers
  import Edges
  import OptimalAssignment

  // ----- Candidate order -----

  lemma {:induction false} FilterKeepsDistinctKeys<T(!new)>(key: T -> int, keep: T -> bool, s: seq<T>)
    requires NoRepeats(Map(key, s))
    ensures NoRepeats(Map(key, Filter(keep, s)))
  {
    if |s| > 0 {
      assert Map(key, s)[1..] == Map(key, s[1..]);
      FilterKeepsDistinctKeys(key, keep, s[1..]);
      if keep(s[0]) {
        var rest := Filter(keep, s[1..]);
        assert Map(key, [s[0]] + rest) == [key(s[0])] + Map(key, rest);
        forall i | 0 <= i < |rest| ensures key(s[0]) != key(rest[i]) {
          assert rest[i] in s[1..];
          var j :| 0 <= j < |s[1..]| && s[1..][j] == rest[i];
          assert Map(key, s)[0] != Map(key, s)[j + 1];
        }
      }
    }
  }

  /** The candidates of a safe manifest come in strictly increasing ordinals. */
  ghost predicate Increasing(files: seq<TorrentFile>) {
    forall i, j :: 0 <= i < j < |files| ==> files[i].ordinal < files[j].ordinal
  }

  lemma CandidatesIncreasing(q: Request)
    requires NoRepeats(Map(Ordinal, q.candidate.files))
    ensures Increasing(CandidateFiles(q))
  {
    FilterKeepsDistinctKeys(Ordinal, Unpadded, q.candidate.files);
    SortByKeyStrict(Ordinal, Filter(Unpadded, q.candidate.files));
    var files := CandidateFiles(q);
    forall i, j | 0 <= i < j < |files| ensures files[i].ordinal < files[j].ordinal {
      assert Ordinal(files[i]) < Ordinal(files[j]);
    }
  }

  lemma CandidateIsFile(q: Request, c: TorrentFile)
    ensures c in CandidateFiles(q) <==> c in q.candidate.files && !c.padding
  {
    SameElements(CandidateFiles(q), Filter(Unpadded, q.candidate.files), c);
  }

  /** The candidates of a safe manifest have distinct paths. */
  lemma CandidatesDistinct(q: Request)
    requires SafeFiles(q)
    ensures DistinctPaths(CandidateFiles(q))
  {
    CandidatesIncreasing(q);
    SafeIsSoFar(q);
    hide SafeFiles, CandidateFiles, UnsafePath;
    var candidates, files := CandidateFiles(q), q.candidate.files;
    forall i, j | 0 <= i < j < |candidates| ensures candidates[i].path != candidates[j].path {
      CandidateIsFile(q, candidates[i]);
      CandidateIsFile(q, candidates[j]);
      var k :| 0 <= k < |files| && files[k] == candidates[i];
      var l :| 0 <= l < |files| && files[l] == candidates[j];
      assert k != l;
    }
  }

  // ----- Building the mappings -----

  function MappingKey(f: FileMapping): int {
    f.ordinal
  }

  /** The matched candidates below k, in order. */
  ghost function RowsTo(m: Pairing, k: nat): (rows: seq<nat>)
    ensures forall i, j :: 0 <= i < j < |rows| ==> rows[i] < rows[j]
    ensures forall r: nat :: r in rows <==> r < k && r in m
  {
    if k == 0 then []
    else
      var before := RowsTo(m, k - 1);
      assert forall i :: 0 <= i < |before| ==> before[i] in before;
      before + if k - 1 in m then [k - 1] else []
  }

  /** MappingsTo lists the mapping of each matched candidate, in order. */
  lemma {:induction false} MappingsToRows(p: Problem, m: Pairing, k: nat)
    requires k <= |p.candidates| && forall r :: r in m ==> m[r] < |p.sources|
    ensures |MappingsTo(p, m, k)| == |RowsTo(m, k)|
    ensures forall i :: 0 <= i < |RowsTo(m, k)| ==>
              RowsTo(m, k)[i] < k && RowsTo(m, k)[i] in m && MappingsTo(p, m, k)[i] == MappedRow(p, m, RowsTo(m, k)[i])
  {
    hide MappedRow;
    forall i | 0 <= i < |RowsTo(m, k)| ensures RowsTo(m, k)[i] < k && RowsTo(m, k)[i] in m {
      assert RowsTo(m, k)[i] in RowsTo(m, k);
    }
    if k > 0 {
      MappingsToRows(p, m, k - 1);
    }
  }

  ghost predicate OrdinalsIncrease(s: seq<FileMapping>) {
    forall i, j :: 0 <= i < j < |s| ==> s[i].ordinal < s[j].ordinal
  }

  lemma MappingsIncrease(p: Problem, m: Pairing)
    requires Increasing(p.candidates) && forall r :: r in m ==> m[r] < |p.sources|
    ensures OrdinalsIncrease(MappingsTo(p, m, |p.candidates|))
  {
    hide ScoreOf, MappingsTo, RowsTo;
    MappingsToRows(p, m, |p.candidates|);
  }

  /** The mappings of the triples, in their order. */
  ghost predicate MapsTriples(p: Problem, pairs: seq<Triple>, upto: nat, unsorted: seq<FileMapping>) {
    && |unsorted| == upto <= |pairs|
    && forall i :: 0 <= i < upto ==>
         && pairs[i].0 < |p.candidates| && pairs[i].1 < |p.sources|
         && unsorted[i] == MappingAt(p, pairs[i].0, pairs[i].1, pairs[i].2)
  }

  /** The listed triples, in any order, carry the mappings of the matching. */
  lemma TripleMappings(p: Problem, pairs: seq<Triple>, m: Pairing, unsorted: seq<FileMapping>)
    requires Increasing(p.candidates) && ListsTriples(p, pairs, m)
    requires forall r :: r in m ==> m[r] < |p.sources| && r < |p.candidates|
    requires MapsTriples(p, pairs, |pairs|, unsorted)
    ensures SortByKey(MappingKey, unsorted) == MappingsTo(p, m, |p.candidates|)
  {
    hide ListsTriples, MappingsTo, MappingAt, ScoreOf, MapsTriples, MappedRow, Increasing, SortByKey;
    var sorted := MappingsTo(p, m, |p.candidates|);
    MappingsIncrease(p, m);
    UnsortedSame(p, pairs, m, unsorted);
    UnsortedDistinct(p, pairs, m, unsorted);
    forall i, j | 0 <= i < j < |unsorted| ensures unsorted[i] != unsorted[j] {
      assert Map(MappingKey, unsorted)[i] != Map(MappingKey, unsorted)[j];
    }
    SameSet(unsorted, sorted);
    SortByKeyStrict(MappingKey, unsorted);
    OneOrdering(MappingKey, SortByKey(MappingKey, unsorted), sorted);
  }

  lemma TripleIsRow(p: Problem, pairs: seq<Triple>, m: Pairing, unsorted: seq<FileMapping>, i: nat)
    requires ListsTriples(p, pairs, m) && forall r :: r in m ==> m[r] < |p.sources| && r < |p.candidates|
    requires MapsTriples(p, pairs, |pairs|, unsorted) && i < |pairs|
    ensures |unsorted| == |pairs| && pairs[i].0 in m && unsorted[i] == MappedRow(p, m, pairs[i].0)
  {
    hide EdgeScore, ScoreAt;
  }

  lemma UnsortedSame(p: Problem, pairs: seq<Triple>, m: Pairing, unsorted: seq<FileMapping>)
    requires Increasing(p.candidates) && ListsTriples(p, pairs, m)
    requires forall r :: r in m ==> m[r] < |p.sources| && r < |p.candidates|
    requires MapsTriples(p, pairs, |pairs|, unsorted)
    ensures forall f :: f in unsorted <==> f in MappingsTo(p, m, |p.candidates|)
  {
    hide *;
    var sorted, rows := MappingsTo(p, m, |p.candidates|), RowsTo(m, |p.candidates|);
    MappingsToRows(p, m, |p.candidates|);
    TriplesLength(p, pairs, unsorted);
    forall i | 0 <= i < |unsorted| ensures unsorted[i] in sorted {
      TripleIsRow(p, pairs, m, unsorted, i);
      assert pairs[i].0 in rows;
      var l :| 0 <= l < |rows| && rows[l] == pairs[i].0;
      assert sorted[l] == unsorted[i];
    }
    forall l | 0 <= l < |sorted| ensures sorted[l] in unsorted {
      var i := TripleOf(p, pairs, m, rows[l]);
      TripleIsRow(p, pairs, m, unsorted, i);
      assert unsorted[i] == sorted[l];
    }
  }

  lemma TriplesLength(p: Problem, pairs: seq<Triple>, unsorted: seq<FileMapping>)
    requires MapsTriples(p, pairs, |pairs|, unsorted)
    ensures |unsorted| == |pairs|
  {
  }

  lemma TripleOf(p: Problem, pairs: seq<Triple>, m: Pairing, r: nat) returns (i: nat)
    requires ListsTriples(p, pairs, m) && r in m
    ensures i < |pairs| && pairs[i].0 == r
  {
    i :| 0 <= i < |pairs| && pairs[i].0 == r;
  }

  lemma UnsortedDistinct(p: Problem, pairs: seq<Triple>, m: Pairing, unsorted: seq<FileMapping>)
    requires Increasing(p.candidates) && ListsTriples(p, pairs, m)
    requires MapsTriples(p, pairs, |pairs|, unsorted)
    ensures NoRepeats(Map(MappingKey, unsorted))
  {
    hide EdgeScore, ScoreAt;
    forall i, j | 0 <= i < j < |unsorted| ensures Map(MappingKey, unsorted)[i] != Map(MappingKey, unsorted)[j] {
      assert pairs[i].0 != pairs[j].0;
    }
  }

  method BuildMappings(p: Problem, pairs: seq<Triple>, ghost m: Pairing) returns (mappings: seq<FileMapping>)
    requires Increasing(p.candidates) && ListsTriples(p, pairs, m)
    requires forall r :: r in m ==> m[r] < |p.sources| && r < |p.candidates|
    ensures mappings == MappingsTo(p, m, |p.candidates|)
  {
    hide MappingAt, MappingsTo, EdgeScore, ScoreAt;
    var unsorted := [];
    for i := 0 to |pairs|
      invariant MapsTriples(p, pairs, i, unsorted)
    {
      unsorted := unsorted + [MappingAt(p, pairs[i].0, pairs[i].1, pairs[i].2)];
    }
    TripleMappings(p, pairs, m, unsorted);
    mappings := SortByKey(MappingKey, unsorted);
  }

  // ----- One problem -----

  datatype Mapped = TooCostly | Several | Mapped(mappings: seq<FileMapping>)

  /** The mappings of a problem, as its verdict has them. */
  ghost function MappedBy(p: Problem): Mapped {
    match OutcomeOf(p)
    case OverBudget => TooCostly
    case Ambiguous => Several
    case Settled => Mapped(MappingsOf(p))
  }

  lemma MaximumIsThe(p: Problem, m: Pairing)
    requires UniqueMaximum(Weights(p), AllRows(Weights(p)), m)
    ensures TheMaximum(p) == m
    ensures forall r :: r in m ==> m[r] < |p.sources| && r < |p.candidates|
  {
    Edges.ScoresShape(p);
    var g := Weights(p);
    hide Weights;
    forall r | r in m ensures m[r] < |p.sources| && r < |p.candidates| {
      assert Edge(g, r, m[r]);
    }
    assert IsTheMaximum(p, m);
  }

  method MapProblem(p: Problem) returns (r: Mapped, ghost ledger: Ledger)
    requires LeavesRoom(p.policy) && Increasing(p.candidates)
    ensures r == MappedBy(p)
    ensures NumbersFit(p.policy, p.candidates, ledger)
  {
    hide Weights, MappingsTo, OutcomeOf, ListsTriples, UniqueMaximum, AmbiguousMaximum, NumbersFit, Increasing, TheMaximum;
    var answer;
    ghost var m, cells;
    answer, m, cells, ledger := AssignSafely(p);
    DecidesMeans(p, answer, m);
    match answer
    case Failure(_) =>
      r := TooCostly;
    case Success(assignment) =>
      if assignment.ambiguous {
        r := Several;
      } else {
        MaximumIsThe(p, m);
        var mappings := BuildMappings(p, assignment.pairs, m);
        r := Mapped(mappings);
      }
  }

  method EvaluateSource(q: Request, s: Source) returns (e: Evaluation, ghost ledger: Ledger)
    requires LeavesRoom(q.policy) && Increasing(CandidateFiles(q))
    ensures e == SourceEvaluated(q, s)
    ensures NumbersFit(q.policy, CandidateFiles(q), ledger)
  {
    NothingFits(q.policy, CandidateFiles(q));
    ledger := Blank();
    hide NumbersFit, OutcomeOf, MappingsOf, JudgeSource, Incompatible, CandidateFiles, Tagged, Increasing;
    match Incompatible(q.release, s.release, false)
    case Some(reason) =>
      e := Unmatched(reason);
    case None =>
      var mapped;
      mapped, ledger := MapProblem(SourceProblem(q, s));
      match mapped
      case TooCostly => e := Unmatched(MatcherBudgetExceeded);
      case Several => e := AmbiguousFiles;
      case Mapped(mappings) => e := JudgeSource(q, s, mappings);
  }

  method EvaluateSeason(q: Request, sources: seq<Source>) returns (e: Evaluation, ghost ledger: Ledger)
    requires LeavesRoom(q.policy) && Increasing(CandidateFiles(q))
    ensures e == SeasonEvaluated(q, sources)
    ensures NumbersFit(q.policy, CandidateFiles(q), ledger)
  {
    NothingFits(q.policy, CandidateFiles(q));
    ledger := Blank();
    hide NumbersFit, OutcomeOf, MappingsOf, JudgeSeason, EpisodeFiles, CandidateFiles, Increasing;
    if EpisodeFiles(q, sources) == [] {
      return Unmatched(NoPrimaryVideoOverlap), ledger;
    }
    var mapped;
    mapped, ledger := MapProblem(SeasonProblem(q, sources));
    match mapped
    case TooCostly => e := Unmatched(MatcherBudgetExceeded);
    case Several => e := AmbiguousFiles;
    case Mapped(mappings) => e := JudgeSeason(q, mappings);
  }

  // ----- Checks before any assignment -----

  ghost predicate OrdinalSeen(files: seq<TorrentFile>, i: nat, o: nat)
    requires i <= |files|
  {
    exists k :: 0 <= k < i && files[k].ordinal == o
  }

  ghost predicate PathSeen(q: Request, i: nat, path: string)
    requires i <= |q.candidate.files|
  {
    exists k :: 0 <= k < i && q.names.compose(q.candidate.files[k].path) == path
  }

  /** The first i files have distinct ordinals and composed paths, and safe paths. */
  ghost predicate SafeSoFar(q: Request, i: nat)
    requires i <= |q.candidate.files|
  {
    var files := q.candidate.files;
    && (forall k, l :: 0 <= k < l < i ==> files[k].ordinal != files[l].ordinal)
    && (forall k, l :: 0 <= k < l < i ==> q.names.compose(files[k].path) != q.names.compose(files[l].path))
    && (forall k :: 0 <= k < i ==> !UnsafePath(q.names, files[k].path))
  }

  lemma SafeIsSoFar(q: Request)
    requires SafeFiles(q)
    ensures SafeSoFar(q, |q.candidate.files|)
  {
    hide UnsafePath;
    var files := q.candidate.files;
    var composed := Map(ComposedPath(q.names), files);
    forall k, l | 0 <= k < l < |files|
      ensures files[k].ordinal != files[l].ordinal && q.names.compose(files[k].path) != q.names.compose(files[l].path)
    {
      assert Map(Ordinal, files)[k] != Map(Ordinal, files)[l];
      assert composed[k] != composed[l];
    }
  }

  lemma SoFarIsSafe(q: Request)
    requires SafeSoFar(q, |q.candidate.files|)
    requires forall f, h :: f in q.candidate.files && h in q.candidate.files ==> !PathsClash(q, f, h)
    ensures SafeFiles(q)
  {
    hide UnsafePath, PathsClash;
  }

  /** What the check of the first i files leaves: their ordinals, their paths, and that they are safe. */
  ghost predicate Seen(q: Request, i: nat, ordinals: set<nat>, paths: set<string>) {
    && i <= |q.candidate.files| && SafeSoFar(q, i)
    && (forall o :: o in ordinals <==> OrdinalSeen(q.candidate.files, i, o))
    && (forall p :: p in paths <==> PathSeen(q, i, p))
  }

  lemma SeenNothing(q: Request)
    ensures Seen(q, 0, {}, {})
  {
  }

  lemma SeenNext(q: Request, i: nat, ordinals: set<nat>, paths: set<string>)
    requires i < |q.candidate.files| && Seen(q, i, ordinals, paths)
    ensures var file := q.candidate.files[i]; var path := q.names.compose(file.path);
      if file.ordinal in ordinals || UnsafePath(q.names, file.path) || path in paths then !SafeSoFar(q, |q.candidate.files|)
      else Seen(q, i + 1, ordinals + {file.ordinal}, paths + {path})
  {
    hide UnsafePath;
  }

  lemma SeenAll(q: Request, ordinals: set<nat>, paths: set<string>)
    requires Seen(q, |q.candidate.files|, ordinals, paths)
    ensures SafeSoFar(q, |q.candidate.files|) && forall p :: p in paths <==> PathSeen(q, |q.candidate.files|, p)
  {
    hide SafeSoFar;
  }

  /** Repeated ordinals or composed paths, unsafe paths, and files lying under other files. */
  method Validate(q: Request) returns (r: Option<Reason>)
    ensures r == InvalidManifest(q)
  {
    hide UnsafePath, SafeFiles, SafeSoFar, Seen;
    SeenNothing(q);
    var files := q.candidate.files;
    if files == [] || q.candidate.pieceLength == Some(0) {
      return Some(UnsupportedTorrent);
    }
    var ordinals: set<nat>, paths: set<string> := {}, {};
    for i := 0 to |files|
      invariant Seen(q, i, ordinals, paths)
    {
      SeenNext(q, i, ordinals, paths);
      var path := q.names.compose(files[i].path);
      if files[i].ordinal in ordinals || UnsafePath(q.names, files[i].path) || path in paths {
        if SafeFiles(q) {
          SafeIsSoFar(q);
        }
        return Some(UnsafeTorrentPath);
      }
      ordinals, paths := ordinals + {files[i].ordinal}, paths + {path};
    }
    SeenAll(q, ordinals, paths);
    var clash := FindClash(q, paths);
    if clash {
      if SafeFiles(q) {
        SafeNoClash(q);
      }
      return Some(UnsafeTorrentPath);
    }
    SoFarIsSafe(q);
    r := None;
  }

  lemma SafeNoClash(q: Request)
    requires SafeFiles(q)
    ensures forall f, h :: f in q.candidate.files && h in q.candidate.files ==> !PathsClash(q, f, h)
  {
  }

  /** Some file's path continues, after a slash, another file's path. */
  method FindClash(q: Request, paths: set<string>) returns (clash: bool)
    requires forall p :: p in paths <==> PathSeen(q, |q.candidate.files|, p)
    ensures clash <==> exists f, h :: f in q.candidate.files && h in q.candidate.files && PathsClash(q, f, h)
  {
    var files := q.candidate.files;
    for i := 0 to |files|
      invariant forall f, k :: f in files && 0 <= k < i ==> !PathsClash(q, f, files[k])
    {
      var path := q.names.compose(files[i].path);
      for j := 0 to |path|
        invariant forall f :: f in files && PathsClash(q, f, files[i]) ==> |q.names.compose(f.path)| >= j
      {
        ClashAt(q, files[i], path, j, paths);
        if path[j] == '/' && path[..j] in paths {
          var k :| 0 <= k < |files| && q.names.compose(files[k].path) == path[..j];
          assert path[..j] + "/" == path[..j + 1];
          assert PathsClash(q, files[k], files[i]);
          return true;
        }
      }
      forall f | f in files ensures !PathsClash(q, f, files[i]) {
      }
    }
    clash := false;
  }

  /** A file lying over h leaves its path and a slash in h's path. */
  lemma ClashAt(q: Request, h: TorrentFile, path: string, j: nat, paths: set<string>)
    requires forall p :: p in paths <==> PathSeen(q, |q.candidate.files|, p)
    requires path == q.names.compose(h.path) && j < |path|
    ensures forall f :: f in q.candidate.files && PathsClash(q, f, h) && |q.names.compose(f.path)| == j ==>
              path[j] == '/' && path[..j] in paths
  {
    forall f | f in q.candidate.files && PathsClash(q, f, h) && |q.names.compose(f.path)| == j
      ensures path[j] == '/' && path[..j] in paths
    {
      var k :| 0 <= k < |q.candidate.files| && q.candidate.files[k] == f;
      var mine := q.names.compose(f.path);
      assert PathSeen(q, |q.candidate.files|, mine);
      assert path[..j] == mine && path[j] == (mine + "/")[j];
    }
  }

  lemma {:induction false} FilterOneMore<T(!new)>(keep: T -> bool, s: seq<T>, i: nat)
    requires i < |s|
    ensures Filter(keep, s[..i + 1]) == Filter(keep, s[..i]) + if keep(s[i]) then [s[i]] else []
  {
    assert s[..i + 1] == s[..i] + [s[i]];
    FilterSplit(keep, s[..i], [s[i]]);
    assert [s[i]] == [s[i]] + [];
    FilterCons(keep, s[i], []);
  }

  /** Total files against the budget, adding available sources one by one. */
  method InputBudgetExceeded(q: Request) returns (over: bool)
    ensures over <==> InputOverBudget(q)
  {
    var candidates := |Filter(Unpadded, q.candidate.files)|;
    var limit := q.policy.maxAssignmentFiles;
    ghost var sizes := Map(FileCount, Filter(Available, q.sources));
    SumNonNegative(sizes);
    if candidates > limit {
      return true;
    }
    var total := candidates;
    hide Filter, Sum;
    SumNothing(q);
    for i := 0 to |q.sources|
      invariant total == candidates + Sum(Map(FileCount, Filter(Available, q.sources[..i]))) <= limit
    {
      var s := q.sources[i];
      FilterOneMore(Available, q.sources, i);
      PartialSizes(q, i);
      if s.available {
        total := total + |s.files|;
        if |s.files| > limit - candidates || total > limit {
          return true;
        }
      }
    }
    assert q.sources[..|q.sources|] == q.sources;
    over := false;
  }

  lemma SumNothing(q: Request)
    ensures Sum(Map(FileCount, Filter(Available, q.sources[..0]))) == 0
  {
    assert Filter(Available, q.sources[..0]) == [];
  }

  /** One more source adds its files, if it is available, and never passes the sum over all. */
  lemma PartialSizes(q: Request, i: nat)
    requires i < |q.sources|
    ensures Sum(Map(FileCount, Filter(Available, q.sources[..i + 1])))
         == Sum(Map(FileCount, Filter(Available, q.sources[..i]))) + if q.sources[i].available then |q.sources[i].files| else 0
    ensures Sum(Map(FileCount, Filter(Available, q.sources[..i + 1]))) <= Sum(Map(FileCount, Filter(Available, q.sources)))
    ensures Sum(Map(FileCount, Filter(Available, q.sources[..i]))) >= 0
  {
    FilterOneMore(Available, q.sources, i);
    FilterSplit(Available, q.sources[..i + 1], q.sources[i + 1..]);
    assert q.sources == q.sources[..i + 1] + q.sources[i + 1..];
    hide Filter;
    var a, b, c := Filter(Available, q.sources[..i]), Filter(Available, q.sources[..i + 1]), Filter(Available, q.sources[i + 1..]);
    SumNonNegative(Map(FileCount, a));
    SumNonNegative(Map(FileCount, c));
    MapAppend(a, if q.sources[i].available then [q.sources[i]] else []);
    MapAppend(b, c);
    if q.sources[i].available {
      SumSingle(FileCount(q.sources[i]));
      assert Map(FileCount, [q.sources[i]]) == [FileCount(q.sources[i])];
    } else {
      assert a + [] == a;
    }
  }

  lemma SumSingle(x: int)
    ensures Sum([x]) == x
  {
    assert [x][..0] == [];
  }

  lemma MapAppend(a: seq<Source>, b: seq<Source>)
    ensures Sum(Map(FileCount, a + b)) == Sum(Map(FileCount, a)) + Sum(Map(FileCount, b))
  {
    assert Map(FileCount, a + b) == Map(FileCount, a) + Map(FileCount, b);
    SumConcat(Map(FileCount, a), Map(FileCount, b));
  }

  // ----- The whole evaluation -----

  lemma EvaluatedSoFar(evaluations: seq<Evaluation>, i: nat)
    requires i < |evaluations|
    ensures Decisions(evaluations[..i + 1])
         == Decisions(evaluations[..i]) + if evaluations[i].Decided? then [evaluations[i].decision] else []
    ensures Conflicts(evaluations[..i + 1])
         == Conflicts(evaluations[..i]) + if evaluations[i].Unmatched? then [evaluations[i].reason] else []
  {
    assert evaluations[..i + 1][..i] == evaluations[..i];
  }

  /** The evaluations of the sources, one after the other; None at the first ambiguous one. */
  method EvaluateAll(q: Request, sources: seq<Source>)
    returns (r: Option<(seq<Decision>, seq<Reason>)>, ghost ledger: Ledger)
    requires LeavesRoom(q.policy) && Increasing(CandidateFiles(q))
    ensures r.None? <==> AmbiguousFiles in Evaluations(q, sources)
    ensures r.Some? ==> r.value == (Decisions(Evaluations(q, sources)), Conflicts(Evaluations(q, sources)))
    ensures NumbersFit(q.policy, CandidateFiles(q), ledger)
  {
    NothingFits(q.policy, CandidateFiles(q));
    ledger := Blank();
    hide NumbersFit, SourceEvaluated, SeasonEvaluated, Increasing, CandidateFiles, Decisions, Conflicts;
    ghost var all := Evaluations(q, sources);
    var choices, conflicts := [], [];
    NothingYet(all);
    for i := 0 to |sources|
      invariant choices == Decisions(all[..i]) && conflicts == Conflicts(all[..i])
      invariant forall k :: 0 <= k < i ==> all[k] != AmbiguousFiles
      invariant NumbersFit(q.policy, CandidateFiles(q), ledger)
    {
      EvaluatedSoFar(all, i);
      var e;
      ghost var more;
      e, more := EvaluateSource(q, sources[i]);
      FitsTogether(q.policy, CandidateFiles(q), ledger, more);
      ledger := Joined(ledger, more);
      assert e == all[i];
      match e
      case Decided(decision) => choices := choices + [decision];
      case AmbiguousFiles => return None, ledger;
      case Unmatched(reason) => conflicts := conflicts + [reason];
    }
    if TriesSeason(q) {
      EvaluatedSoFar(all, |sources|);
      var e;
      ghost var more;
      e, more := EvaluateSeason(q, sources);
      FitsTogether(q.policy, CandidateFiles(q), ledger, more);
      ledger := Joined(ledger, more);
      assert e == all[|sources|];
      assert all[..|sources| + 1] == all;
      match e
      case Decided(decision) => choices := choices + [decision];
      case AmbiguousFiles => return None, ledger;
      case Unmatched(reason) => conflicts := conflicts + [reason];
    } else {
      assert all[..|sources|] == all;
    }
    assert choices == Decisions(all);
    assert conflicts == Conflicts(all);
    r := Some((choices, conflicts));
  }

  lemma NothingYet(all: seq<Evaluation>)
    ensures Decisions(all[..0]) == [] && Conflicts(all[..0]) == []
  {
  }

  /** The matcher: it returns the specified decision, for every request whose budgets leave the solver
      room, and no number of any assignment it solves overflows: none that is read back, and none at all
      under the limits of the configuration. */
  method Evaluate(q: Request) returns (d: Decision, ghost ledger: Ledger)
    requires LeavesRoom(q.policy)
    ensures d == Evaluated(q)
    ensures ReadBackFits(ledger)
    ensures Configurable(q.policy) ==> TotalsFit(ledger) && RootsFit(ledger)
  {
    ledger := Blank();
    hide Configurable, DistinctPaths, InvalidManifest, Evaluations, RequiredBytes, InputOverBudget, SortedSources, Choose, Increasing;
    var evidence := BaseEvidence(q);
    var invalid := Validate(q);
    if invalid.Some? {
      return Refusal(invalid.value, evidence), ledger;
    }
    ValidIncreasing(q);
    if Present(q) {
      return Decision(AlreadyThere, None, AlreadyPresent, [], [], 0, RequiredBytes(q), 0, false, evidence), ledger;
    }
    var over := InputBudgetExceeded(q);
    if over {
      return Refusal(MatcherBudgetExceeded, evidence), ledger;
    }
    var evaluated;
    evaluated, ledger := EvaluateAll(q, SortedSources(q));
    match evaluated
    case None =>
      d := Refusal(AmbiguousFileMapping, evidence);
    case Some((choices, conflicts)) =>
      match Choose(choices)
      case Some(chosen) => d := chosen;
      case None => d := NothingFound(q, FirstListed(PRIORITY, conflicts));
  }

  lemma ValidIncreasing(q: Request)
    requires InvalidManifest(q) == None
    ensures Increasing(CandidateFiles(q)) && DistinctPaths(CandidateFiles(q))
  {
    hide UnsafePath, PathsClash;
    CandidatesIncreasing(q);
    CandidatesDistinct(q);
  }
}
