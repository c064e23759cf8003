/** The evidence that accompanies a match: what each of its numbers counts. */
module MatchEvidence {
  import opened Wrappers
  import opened Sums
  import opened Files
  import opened Sorting
  import opened Objective
  import opened Assign
  import opened Decision
  import Agreement
  import Conclusions
  import Consistency
  import Choice
  import Evaluate

  /** How many of n places are marked. */
  ghost function Tally(n: nat, mark: nat -> bool): int {
    Sum(seq(n, k requires 0 <= k < n => if mark(k) then 1 else 0))
  }

  lemma {:induction false} FilterTally<T(!new)>(keep: T -> bool, s: seq<T>, mark: nat -> bool)
    requires forall k: nat :: k < |s| ==> (mark(k) <==> keep(s[k]))
    ensures |Filter(keep, s)| == Tally(|s|, mark)
  {
    var marks := seq(|s|, k requires 0 <= k < |s| => if mark(k) then 1 else 0);
    if |s| > 0 {
      var n := |s| - 1;
      FilterTally(keep, s[..n], mark);
      Evaluate.FilterOneMore(keep, s, n);
      assert s[..n + 1] == s;
      assert marks[..n] == seq(n, k requires 0 <= k < n => if mark(k) then 1 else 0);
    }
  }

  lemma {:induction false} FilterSum(keep: FileMapping -> bool, s: seq<FileMapping>, mark: nat -> bool)
    requires forall k: nat :: k < |s| ==> (mark(k) <==> keep(s[k]))
    ensures Sum(Map(MappedSize, Filter(keep, s))) == Sum(seq(|s|, k requires 0 <= k < |s| => if mark(k) then s[k].size else 0))
  {
    var marks := seq(|s|, k requires 0 <= k < |s| => if mark(k) then s[k].size else 0);
    if |s| > 0 {
      var n := |s| - 1;
      FilterSum(keep, s[..n], mark);
      Evaluate.FilterOneMore(keep, s, n);
      assert s[..n + 1] == s;
      assert marks[..n] == seq(n, k requires 0 <= k < n => if mark(k) then s[..n][k].size else 0);
      var before, after := Map(MappedSize, Filter(keep, s[..n])), Map(MappedSize, Filter(keep, s));
      if keep(s[n]) {
        assert after == before + [s[n].size];
        assert after[..|before|] == before;
      } else {
        assert after == before;
      }
    }
  }

  // ----- Source identities -----

  lemma {:induction false} DedupRises(s: seq<nat>)
    requires forall i, j :: 0 <= i < j < |s| ==> s[i] <= s[j]
    ensures forall i, j :: 0 <= i < j < |Dedup(s)| ==> Dedup(s)[i] < Dedup(s)[j]
    ensures forall x :: x in Dedup(s) <==> x in s
    decreases |s|
  {
    if |s| >= 2 {
      DedupRises(s[1..]);
      assert s == [s[0]] + s[1..];
      var rest := Dedup(s[1..]);
      if s[0] != s[1] {
        forall j | 0 <= j < |rest| ensures s[0] < rest[j] {
          assert rest[j] in s[1..];
          var k :| 0 <= k < |s[1..]| && s[1..][k] == rest[j];
          assert s[1] <= s[k + 1];
        }
      } else {
        assert s[1..][0] == s[0];
      }
    }
  }

  /** The identities are those of the mapped sources, ascending, each once. */
  lemma SourceIdsAre(mappings: seq<FileMapping>)
    ensures forall i, j :: 0 <= i < j < |SourceIds(mappings)| ==> SourceIds(mappings)[i] < SourceIds(mappings)[j]
    ensures forall id :: id in SourceIds(mappings) <==> exists f :: f in mappings && f.sourceId == id
  {
    var ids := Map((f: FileMapping) => f.sourceId, mappings);
    AscendingSorted(ids);
    DedupRises(Ascending(ids));
    hide Dedup;
    forall id ensures id in SourceIds(mappings) <==> id in ids {
      SameElements(Ascending(ids), ids, id);
    }
    forall id ensures id in ids <==> exists f :: f in mappings && f.sourceId == id {
      if id in ids {
        var k :| 0 <= k < |ids| && ids[k] == id;
        assert mappings[k] in mappings;
      }
      if f :| f in mappings && f.sourceId == id {
        var k :| 0 <= k < |mappings| && mappings[k] == f;
        assert ids[k] == id;
      }
    }
  }

  // ----- The numbers of a match -----

  /** A candidate file that is a video has this ordinal. */
  ghost predicate VideoAt(q: Request, ordinal: nat) {
    exists c :: c in q.candidate.files && c.ordinal == ordinal && Primary(c, q.policy)
  }

  ghost predicate InClient(q: Request, id: SourceId) {
    exists s :: s in q.sources && s.id == id && s.kind == QbittorrentTorrent
  }

  lemma FileWithIsVideo(q: Request, ordinal: nat)
    requires NoRepeats(Map(Ordinal, q.candidate.files))
    ensures FileWith(q, ordinal, IsPrimary(q.policy)) <==> VideoAt(q, ordinal)
  {
    hide Primary;
    var found := Filter(ByOrdinal(ordinal), q.candidate.files);
    if |found| > 0 {
      assert found[0] in found;
    }
    if c :| c in q.candidate.files && c.ordinal == ordinal && Primary(c, q.policy) {
      assert c in found && found[0] in found;
      Consistency.OrdinalNames(q, c, found[0]);
    }
  }

  lemma IsInClient(q: Request, id: SourceId)
    ensures IsQbitSource(q, id) <==> InClient(q, id)
  {
    if IsQbitSource(q, id) {
      var i :| 0 <= i < |q.sources| && q.sources[i].id == id && q.sources[i].kind == QbittorrentTorrent;
      assert q.sources[i] in q.sources;
    }
    if s :| s in q.sources && s.id == id && s.kind == QbittorrentTorrent {
      var i :| 0 <= i < |q.sources| && q.sources[i] == s;
    }
  }

  ghost function VideoMark(q: Request, mappings: seq<FileMapping>): nat -> bool {
    (k: nat) => k < |mappings| && VideoAt(q, mappings[k].ordinal)
  }

  ghost function ExactMark(mappings: seq<FileMapping>): nat -> bool {
    (k: nat) => k < |mappings| && mappings[k].candidatePath == mappings[k].sourcePath
  }

  ghost function ClientMark(q: Request, ids: seq<SourceId>): nat -> bool {
    (k: nat) => k < |ids| && InClient(q, ids[k])
  }

  ghost function RequiredMark(q: Request): nat -> bool {
    (k: nat) => k < |q.candidate.files| && Required(q.candidate.files[k], q.policy)
  }

  ghost function PrimaryMark(q: Request): nat -> bool {
    (k: nat) => k < |q.candidate.files| && Primary(q.candidate.files[k], q.policy)
  }

  /** What the numbers of a match count: the candidate's files, those required and the videos; its mappings, those of videos and their bytes, those at their own paths, its
      sources and those of them in the client; and the reason names the mode. */
  ghost predicate Counts(q: Request, d: Decision) {
    && d.mode.Some? && d.requiresRecheck
    && d.reason == (match d.mode.value
                    case Strict => MatchStrict
                    case Flexible => MatchFlexible
                    case Partial => MatchPartial
                    case SeasonFromEpisodes => MatchSeasonFromEpisodes)
    && (forall i, j :: 0 <= i < j < |d.sourceIds| ==> d.sourceIds[i] < d.sourceIds[j])
    && (forall id :: id in d.sourceIds <==> exists f :: f in d.mappings && f.sourceId == id)
    && d.evidence.mappedFiles == |d.mappings| && d.evidence.candidateFiles == |q.candidate.files|
    && d.evidence.requiredFiles == Tally(|q.candidate.files|, RequiredMark(q))
    && d.evidence.primaryFiles == Tally(|q.candidate.files|, PrimaryMark(q))
    && d.evidence.mappedPrimaryFiles == Tally(|d.mappings|, VideoMark(q, d.mappings))
    && d.evidence.mappedPrimaryBytes == VideoBytes(q, d.mappings)
    && d.evidence.exactPathMappings == Tally(|d.mappings|, ExactMark(d.mappings))
    && d.evidence.qbitSources == Tally(|d.sourceIds|, ClientMark(q, d.sourceIds))
  }

  ghost function VideoBytes(q: Request, mappings: seq<FileMapping>): int {
    Sum(seq(|mappings|, k requires 0 <= k < |mappings| => if VideoMark(q, mappings)(k) then mappings[k].size else 0))
  }

  lemma DecideFields(q: Request, mode: Mode, mappings: seq<FileMapping>, n: nat)
    ensures var d := Decide(q, mode, mappings, n);
      && d.mode == Some(mode) && d.reason == ModeReason(mode) && d.requiresRecheck && d.mappings == mappings && d.sourceIds == SourceIds(mappings)
      && d.evidence.mappedFiles == |mappings| && d.evidence.candidateFiles == |q.candidate.files|
      && d.evidence.requiredFiles == |Filter(IsRequired(q.policy), q.candidate.files)|
      && d.evidence.primaryFiles == |Filter(IsPrimary(q.policy), q.candidate.files)|
      && d.evidence.mappedPrimaryFiles == |Filter(MappingWith(q, IsPrimary(q.policy)), mappings)|
      && d.evidence.mappedPrimaryBytes == Sum(Map(MappedSize, Filter(MappingWith(q, IsPrimary(q.policy)), mappings)))
      && d.evidence.exactPathMappings == |Filter(AtOwnPath, mappings)|
      && d.evidence.qbitSources == |Filter(QbitSource(q), SourceIds(mappings))|
  {
    hide MappedRequired, RequiredBytes, RatioFromBytes, SourceIds, Sum, Filter, Map;
  }

  lemma VideosCounted(q: Request, mappings: seq<FileMapping>)
    requires NoRepeats(Map(Ordinal, q.candidate.files))
    ensures |Filter(MappingWith(q, IsPrimary(q.policy)), mappings)| == Tally(|mappings|, VideoMark(q, mappings))
    ensures Sum(Map(MappedSize, Filter(MappingWith(q, IsPrimary(q.policy)), mappings))) == VideoBytes(q, mappings)
  {
    hide VideoAt, FileWith, Sum, Map, NoRepeats;
    var videos := MappingWith(q, IsPrimary(q.policy));
    forall k: nat | k < |mappings| ensures VideoMark(q, mappings)(k) <==> videos(mappings[k]) {
      FileWithIsVideo(q, mappings[k].ordinal);
    }
    FilterTally(videos, mappings, VideoMark(q, mappings));
    FilterSum(videos, mappings, VideoMark(q, mappings));
  }

  lemma ClientsCounted(q: Request, ids: seq<SourceId>)
    ensures |Filter(QbitSource(q), ids)| == Tally(|ids|, ClientMark(q, ids))
  {
    hide InClient, IsQbitSource, Sum;
    forall k: nat | k < |ids| ensures ClientMark(q, ids)(k) <==> QbitSource(q)(ids[k]) {
      IsInClient(q, ids[k]);
    }
    FilterTally(QbitSource(q), ids, ClientMark(q, ids));
  }

  lemma ExactCounted(mappings: seq<FileMapping>)
    ensures |Filter(AtOwnPath, mappings)| == Tally(|mappings|, ExactMark(mappings))
  {
    FilterTally(AtOwnPath, mappings, ExactMark(mappings));
  }

  lemma CandidatesCounted(q: Request)
    ensures |Filter(IsRequired(q.policy), q.candidate.files)| == Tally(|q.candidate.files|, RequiredMark(q))
    ensures |Filter(IsPrimary(q.policy), q.candidate.files)| == Tally(|q.candidate.files|, PrimaryMark(q))
  {
    hide Required, Primary, Sum;
    FilterTally(IsRequired(q.policy), q.candidate.files, RequiredMark(q));
    FilterTally(IsPrimary(q.policy), q.candidate.files, PrimaryMark(q));
  }

  lemma DecideCounts(q: Request, mode: Mode, mappings: seq<FileMapping>, n: nat)
    requires NoRepeats(Map(Ordinal, q.candidate.files))
    ensures Counts(q, Decide(q, mode, mappings, n))
  {
    hide Decide, Sum, SourceIds, Map, NoRepeats, Filter, Tally, VideoMark, ExactMark, RequiredMark, PrimaryMark, IsRequired, IsPrimary, ClientMark, VideoBytes, MappingWith, QbitSource;
    DecideFields(q, mode, mappings, n);
    SourceIdsAre(mappings);
    VideosCounted(q, mappings);
    ExactCounted(mappings);
    ClientsCounted(q, SourceIds(mappings));
    CandidatesCounted(q);
  }

  /** A match on a source counts one compatible source, one on a season the sources it maps. */
  lemma CompatibleCounted(q: Request, d: Decision)
    requires Decided(d) in Evaluations(q, SortedSources(q))
    ensures d.evidence.compatibleSources == if d.mode == Some(SeasonFromEpisodes) then |d.sourceIds| else 1
  {
    hide *;
    var sources := SortedSources(q);
    var i := EvaluatedAt(q, d);
    if i < |sources| {
      SourceCounted(q, sources[i], d);
    } else {
      SeasonCounted(q, sources, d);
    }
  }

  lemma EvaluatedAt(q: Request, d: Decision) returns (i: nat)
    requires Decided(d) in Evaluations(q, SortedSources(q))
    ensures var sources := SortedSources(q);
      i <= |sources| && (if i < |sources| then SourceEvaluated(q, sources[i]) == Decided(d) else SeasonEvaluated(q, sources) == Decided(d))
  {
    hide SourceEvaluated, SeasonEvaluated, SortedSources;
    var evaluations := Evaluations(q, SortedSources(q));
    i :| 0 <= i < |evaluations| && evaluations[i] == Decided(d);
  }

  lemma SourceCounted(q: Request, s: Source, d: Decision)
    requires SourceEvaluated(q, s) == Decided(d)
    ensures d.evidence.compatibleSources == 1 && d.mode != Some(SeasonFromEpisodes)
  {
    hide *;
    Consistency.SourceSettled(q, s, d);
    JudgedCount(q, s, MappingsOf(SourceProblem(q, s)), d);
  }

  lemma JudgedCount(q: Request, s: Source, mappings: seq<FileMapping>, d: Decision)
    requires JudgeSource(q, s, mappings) == Decided(d)
    ensures d.evidence.compatibleSources == 1 && d.mode != Some(SeasonFromEpisodes)
  {
    hide AllRequired, AllExact, AnyPrimary, MappedRequired, RequiredBytes, BaseEvidence, Selected, SourceIds, FailureReason;
  }

  lemma SeasonCounted(q: Request, sources: seq<Source>, d: Decision)
    requires SeasonEvaluated(q, sources) == Decided(d)
    ensures d.evidence.compatibleSources == |d.sourceIds| && d.mode == Some(SeasonFromEpisodes)
  {
    hide EpisodeFiles, OutcomeOf, MappingsOf, AnyPrimary, MappedRequired, RequiredBytes, BaseEvidence, Selected, SourceIds;
  }

  /** Every match says what it maps. */
  lemma MatchesCount(q: Request)
    requires Evaluated(q).outcome == Match
    ensures Counts(q, Evaluated(q))
    ensures Evaluated(q).evidence.compatibleSources == if Evaluated(q).mode == Some(SeasonFromEpisodes) then |Evaluated(q).sourceIds| else 1
  {
    var p, mode, n := Consistency.MatchExplained(q);
    hide *;
    Agreement.MatchIsDecided(q);
    CompatibleCounted(q, Evaluated(q));
    DistinctOrdinals(q);
    ExplainedDecides(q, Evaluated(q), p, mode, n);
    DecideCounts(q, mode, MappingsOf(p), n);
  }

  lemma DistinctOrdinals(q: Request)
    requires InvalidManifest(q) == None
    ensures NoRepeats(Map(Ordinal, q.candidate.files))
  {
    hide UnsafePath, PathsClash;
  }

  lemma ExplainedDecides(q: Request, d: Decision, p: Problem, mode: Mode, n: nat)
    requires Consistency.Explains(q, d, p, mode, n)
    ensures d == Decide(q, mode, MappingsOf(p), n)
  {
    hide Consistency.ModeFits, Consistency.ProblemOf, MappingsOf, Decide;
  }
}
