/** What the matcher answers, in the terms of the request: which requests are refused or already there, how a
    source is judged, and which answer wins. */
module Conclusions {
  import opened Wrappers
  import opened Sums
  import opened Files
  import opened Sorting
  import opened Objective
  import opened Assign
  import opened Decision
  import opened Agreement
  import Evaluate
  import Consistency
  import Choice
  import Paths

  // ----- Before any source is tried -----

  /** Some source, available or not, has one of the candidate's hashes. */
  ghost predicate HasTorrent(q: Request) {
    exists s :: s in q.sources
             && ((q.candidate.hashes.v1.Some? && s.hashes.v1 == q.candidate.hashes.v1) ||
                 (q.candidate.hashes.v2.Some? && s.hashes.v2 == q.candidate.hashes.v2))
  }

  lemma PresentIsThere(q: Request)
    ensures Present(q) <==> HasTorrent(q)
  {
    if Present(q) {
      var i :| 0 <= i < |q.sources| && SameTorrent(q.candidate.hashes, q.sources[i].hashes);
      assert q.sources[i] in q.sources;
    }
    if HasTorrent(q) {
      var s :| s in q.sources
            && ((q.candidate.hashes.v1.Some? && s.hashes.v1 == q.candidate.hashes.v1) ||
                (q.candidate.hashes.v2.Some? && s.hashes.v2 == q.candidate.hashes.v2));
      var i :| 0 <= i < |q.sources| && q.sources[i] == s;
      assert SameTorrent(q.candidate.hashes, q.sources[i].hashes);
    }
  }

  /** The answers that need no source: an unusable or unsafe torrent, one that is there already, and too many files;
      each of them exactly when the ones before do not apply. */
  lemma RefusedOutright(q: Request)
    ensures q.candidate.files == [] || q.candidate.pieceLength == Some(0) ==>
              Evaluated(q).outcome == Rejected && Evaluated(q).reason == UnsupportedTorrent
    ensures InvalidManifest(q) == None && HasTorrent(q) ==> Evaluated(q).outcome == AlreadyThere && Evaluated(q).reason == AlreadyPresent
    ensures Evaluated(q).outcome == AlreadyThere ==> InvalidManifest(q) == None && HasTorrent(q)
    ensures Evaluated(q).outcome == Match ==>
              InvalidManifest(q) == None && !HasTorrent(q) && !InputOverBudget(q) && q.candidate.files != [] && q.candidate.pieceLength != Some(0)
  {
    PresentIsThere(q);
    hide SafeFiles, Present, HasTorrent, InputOverBudget, RequiredBytes, BaseEvidence, Evaluations, SortedSources, Choose, Decisions, Conflicts;
    if InvalidManifest(q) == None && !Present(q) && !InputOverBudget(q) {
      ConcludedOutcome(q, Evaluations(q, SortedSources(q)));
    }
  }

  lemma ConcludedOutcome(q: Request, evaluations: seq<Evaluation>)
    requires evaluations == Evaluations(q, SortedSources(q))
    ensures Conclude(q, evaluations).outcome != AlreadyThere
  {
    ChoiceMatches(q);
    hide Evaluations, SortedSources, RequiredBytes, BaseEvidence, Decisions, Conflicts, Choose;
  }

  lemma DecisionMatches(q: Request, d: Decision)
    requires Decided(d) in Evaluations(q, SortedSources(q))
    ensures d.outcome == Match
  {
    hide *;
    var p, mode, n := Consistency.EvaluationExplained(q, d);
    DecidedMatches(q, d, p, mode, n);
  }

  /** Choosing among decisions gives a match or finds two that tie; it gives nothing only from nothing. */
  lemma ChooseCases(choices: seq<Decision>)
    requires forall d :: d in choices ==> d.outcome == Match
    ensures choices == [] <==> Choose(choices) == None
    ensures choices != [] ==>
              var d := Choose(choices).value; d.outcome == Match || (d.outcome == Rejected && d.reason == AmbiguousFileMapping)
  {
    var sorted := Sort(choices, Preferred);
    assert |multiset(sorted)| == |sorted| && |multiset(choices)| == |choices|;
    hide Sort, QualityOf;
    forall k | 0 <= k < |sorted| ensures sorted[k].outcome == Match {
      assert sorted[k] in sorted;
      SameElements(sorted, choices, sorted[k]);
    }
  }

  lemma ChoiceMatches(q: Request)
    ensures var choices := Decisions(Evaluations(q, SortedSources(q)));
      && (choices == [] <==> Choose(choices) == None)
      && (choices != [] ==>
            var d := Choose(choices).value; d.outcome == Match || (d.outcome == Rejected && d.reason == AmbiguousFileMapping))
  {
    hide *;
    AllMatch(q);
    ChooseCases(Decisions(Evaluations(q, SortedSources(q))));
  }

  lemma DecidedMatches(q: Request, d: Decision, p: Problem, mode: Mode, n: nat)
    requires Consistency.Explains(q, d, p, mode, n)
    ensures d.outcome == Match
  {
    hide MappedRequired, RequiredBytes, BaseEvidence, Selected, SourceIds, MappingsOf;
  }

  /** Every path of a candidate that is not refused stays inside its torrent. */
  lemma AcceptedPathsStayInside(q: Request, f: TorrentFile, part: string)
    requires InvalidManifest(q) == None && f in q.candidate.files && part in PathParts(f.path)
    ensures part != "" && part != "." && part != ".." && f.path != "" && f.path[0] != '/'
  {
    assert !UnsafePath(q.names, f.path);
    Paths.SafePathStaysBelow(q.names, f.path);
    hide InvalidManifest, PathParts;
    if f.path[0] == '/' {
      Paths.FirstComponentEmpty(f.path);
      assert false;
    }
  }

  // ----- Judging one source -----

  ghost predicate Covered(mappings: seq<FileMapping>, c: TorrentFile) {
    exists f :: f in mappings && f.ordinal == c.ordinal
  }

  ghost predicate CoveredInPlace(mappings: seq<FileMapping>, c: TorrentFile) {
    exists f :: f in mappings && f.ordinal == c.ordinal && f.candidatePath == f.sourcePath
  }

  /** All the candidate's files that have to be mapped are. */
  ghost predicate Complete(q: Request, mappings: seq<FileMapping>) {
    forall c :: c in q.candidate.files && Required(c, q.policy) ==> Covered(mappings, c)
  }

  ghost predicate InPlace(q: Request, mappings: seq<FileMapping>) {
    forall c :: c in q.candidate.files && Required(c, q.policy) ==> CoveredInPlace(mappings, c)
  }

  /** A mapped file is a video. */
  ghost predicate MapsVideo(q: Request, mappings: seq<FileMapping>) {
    exists f, c :: f in mappings && c in q.candidate.files && c.ordinal == f.ordinal && Primary(c, q.policy)
  }

  /** A file that has to be mapped has a namesake of another size. */
  ghost predicate SizesClash(q: Request, files: seq<(SourceId, SourceFile)>) {
    exists c, y :: c in q.candidate.files && Required(c, q.policy) && y in files
               && (c.path == y.1.path || Basename(c.path) == Basename(y.1.path)) && c.size != y.1.size
  }

  lemma RequiredIsCandidate(q: Request, c: TorrentFile)
    ensures c in q.candidate.files && Required(c, q.policy) <==> c in CandidateFiles(q) && Required(c, q.policy)
  {
    hide OptionalPath;
    Evaluate.CandidateIsFile(q, c);
  }

  lemma MapsIsCovered(mappings: seq<FileMapping>, c: TorrentFile)
    ensures Maps(mappings, c.ordinal) <==> Covered(mappings, c)
    ensures MapsExactly(mappings, c.ordinal) <==> CoveredInPlace(mappings, c)
  {
    if f :| f in mappings && f.ordinal == c.ordinal {
      var i :| 0 <= i < |mappings| && mappings[i] == f;
    }
    if f :| f in mappings && f.ordinal == c.ordinal && f.candidatePath == f.sourcePath {
      var i :| 0 <= i < |mappings| && mappings[i] == f;
    }
  }

  lemma AllIsComplete(q: Request, mappings: seq<FileMapping>)
    ensures AllRequired(q, mappings) <==> Complete(q, mappings)
    ensures AllExact(q, mappings) <==> InPlace(q, mappings)
  {
    hide CandidateFiles, Required, Maps, MapsExactly, Covered, CoveredInPlace;
    var files := CandidateFiles(q);
    forall c ensures c in q.candidate.files && Required(c, q.policy) <==> c in files && Required(c, q.policy) {
      RequiredIsCandidate(q, c);
    }
    forall c: TorrentFile ensures Maps(mappings, c.ordinal) <==> Covered(mappings, c) {
      MapsIsCovered(mappings, c);
    }
    forall c: TorrentFile ensures MapsExactly(mappings, c.ordinal) <==> CoveredInPlace(mappings, c) {
      MapsIsCovered(mappings, c);
    }
    assert forall i :: 0 <= i < |files| ==> files[i] in files;
  }

  lemma PrimaryIsVideo(q: Request, mappings: seq<FileMapping>)
    requires InvalidManifest(q) == None
    ensures AnyPrimary(q, mappings) <==> MapsVideo(q, mappings)
  {
    assert NoRepeats(Map(Ordinal, q.candidate.files));
    hide InvalidManifest, CandidateFiles, OptionalPath, PrimaryPath;
    if i :| 0 <= i < |mappings| && MapsPrimary(q, mappings[i]) {
      var found := Filter(ByOrdinal(mappings[i].ordinal), CandidateFiles(q));
      assert found[0] in found;
      Evaluate.CandidateIsFile(q, found[0]);
      assert mappings[i] in mappings;
    }
    if f, c :| f in mappings && c in q.candidate.files && c.ordinal == f.ordinal && Primary(c, q.policy) {
      Evaluate.CandidateIsFile(q, c);
      var found := Filter(ByOrdinal(f.ordinal), CandidateFiles(q));
      assert c in found;
      assert found[0] in found;
      Evaluate.CandidateIsFile(q, found[0]);
      Consistency.OrdinalNames(q, c, found[0]);
      var i :| 0 <= i < |mappings| && mappings[i] == f;
      assert MapsPrimary(q, mappings[i]);
    }
  }

  lemma FailureIsClash(q: Request, files: seq<(SourceId, SourceFile)>)
    ensures FailureReason(q, files) == if SizesClash(q, files) then FileSizeConflict else NoPrimaryVideoOverlap
  {
    hide CandidateFiles, Required, Basename;
    var mine := CandidateFiles(q);
    forall c ensures c in q.candidate.files && Required(c, q.policy) <==> c in mine && Required(c, q.policy) {
      RequiredIsCandidate(q, c);
    }
    if i, j :| 0 <= i < |mine| && 0 <= j < |files| && Required(mine[i], q.policy) && SizeConflict(mine[i], files[j].1) {
      assert mine[i] in mine && files[j] in files;
    }
    if SizesClash(q, files) {
      var c, y :| c in q.candidate.files && Required(c, q.policy) && y in files
               && (c.path == y.1.path || Basename(c.path) == Basename(y.1.path)) && c.size != y.1.size;
      var i :| 0 <= i < |mine| && mine[i] == c;
      var j :| 0 <= j < |files| && files[j] == y;
      assert Required(mine[i], q.policy) && SizeConflict(mine[i], files[j].1);
    }
  }

  /** How a source is judged by its mappings: strict when everything required is mapped at its own path, flexible
      when everything is mapped and that is allowed, partial when a video is mapped and that is allowed; otherwise
      it has no match, for a size that differs if there is one. */
  lemma JudgedByCoverage(q: Request, s: Source, mappings: seq<FileMapping>)
    requires InvalidManifest(q) == None
    ensures var e := JudgeSource(q, s, mappings);
      && (InPlace(q, mappings) ==> e.Decided? && e.decision.mode == Some(Strict))
      && (!InPlace(q, mappings) && Complete(q, mappings) && q.policy.allowFlexible ==> e.Decided? && e.decision.mode == Some(Flexible))
      && (!InPlace(q, mappings) && !(Complete(q, mappings) && q.policy.allowFlexible) && MapsVideo(q, mappings) && q.policy.allowPartial ==>
            e.Decided? && e.decision.mode == Some(Partial))
      && (!InPlace(q, mappings) && !(Complete(q, mappings) && q.policy.allowFlexible) && !(MapsVideo(q, mappings) && q.policy.allowPartial) ==>
            e == Unmatched(if SizesClash(q, Tagged(s)) then FileSizeConflict else NoPrimaryVideoOverlap))
      && (e.Decided? ==> e.decision.mappings == mappings)
  {
    AllIsComplete(q, mappings);
    PrimaryIsVideo(q, mappings);
    FailureIsClash(q, Tagged(s));
    InPlaceIsComplete(q, mappings);
    hide InvalidManifest, AllRequired, AllExact, AnyPrimary, Complete, InPlace, MapsVideo, SizesClash, FailureReason, Tagged;
    hide MappedRequired, RequiredBytes, BaseEvidence, Selected, SourceIds;
  }

  lemma InPlaceIsComplete(q: Request, mappings: seq<FileMapping>)
    ensures InPlace(q, mappings) ==> Complete(q, mappings)
  {
    hide Required;
    if InPlace(q, mappings) {
      forall c | c in q.candidate.files && Required(c, q.policy) ensures Covered(mappings, c) {
        assert CoveredInPlace(mappings, c);
      }
    }
  }

  // ----- Every source is tried -----

  /** An available source whose release agrees is tried with all its files; one whose release does not is
      answered with the first comparison that differs. */
  lemma SourcesAreTried(q: Request, s: Source)
    requires s in q.sources && s.available
    ensures SourceEvaluated(q, s) in Evaluations(q, SortedSources(q))
    ensures Agree(q.release, s.release, false) ==>
              SourceEvaluated(q, s) ==
                match OutcomeOf(SourceProblem(q, s))
                case OverBudget => Unmatched(MatcherBudgetExceeded)
                case Ambiguous => AmbiguousFiles
                case Settled => JudgeSource(q, s, MappingsOf(SourceProblem(q, s)))
    ensures forall k: nat :: FirstToDiffer(Comparisons(q.release, s.release, false), k) ==>
              SourceEvaluated(q, s) == Unmatched(Comparisons(q.release, s.release, false)[k].1)
  {
    CompatibleWhenAgreeing(q.release, s.release, false);
    Consistency.SortedIsSource(q, s);
    hide Incompatible, Agree, Comparisons, FirstToDiffer, OutcomeOf, MappingsOf, JudgeSource, SourceProblem, SortedSources, SeasonEvaluated;
    var sources := SortedSources(q);
    var i :| 0 <= i < |sources| && sources[i] == s;
    assert Evaluations(q, sources)[i] == SourceEvaluated(q, s);
  }

  /** A season is put together from exactly the files of the available episodes of that season whose releases agree. */
  lemma SeasonTakesEpisodes(q: Request, y: (SourceId, SourceFile))
    ensures y in EpisodeFiles(q, SortedSources(q)) <==> exists s :: Offered(q, s, y, true)
  {
    hide SortedSources, Agree;
    var kept := Filter(EpisodeOf(q.release), SortedSources(q));
    if y in EpisodeFiles(q, SortedSources(q)) {
      var s := Consistency.ConcatOrigin(kept, y);
      Consistency.SortedIsSource(q, s);
      CompatibleWhenAgreeing(q.release, s.release, true);
      var i :| 0 <= i < |Tagged(s)| && Tagged(s)[i] == y;
      assert Offered(q, s, y, true);
    }
    if s :| Offered(q, s, y, true) {
      Consistency.SortedIsSource(q, s);
      CompatibleWhenAgreeing(q.release, s.release, true);
      assert s in kept;
      var i :| 0 <= i < |s.files| && s.files[i] == y.1;
      assert Tagged(s)[i] == y;
      ConcatHas(kept, s, y);
    }
  }

  lemma {:induction false} ConcatHas(sources: seq<Source>, s: Source, y: (SourceId, SourceFile))
    requires s in sources && y in Tagged(s)
    ensures y in Concat(Map(Tagged, sources))
  {
    hide Tagged;
    var parts := Map(Tagged, sources);
    if s != sources[0] {
      assert parts[1..] == Map(Tagged, sources[1..]);
      ConcatHas(sources[1..], s, y);
    }
  }

  /** A season is tried exactly when that is allowed and the candidate is a season pack, besides every available source. */
  lemma SeasonIsTried(q: Request)
    ensures var evaluations := Evaluations(q, SortedSources(q)); var sources := SortedSources(q);
      if q.policy.allowSeasonFromEpisodes && q.release.kind == SeasonPack
      then |evaluations| == |sources| + 1 && evaluations[|sources|] == SeasonEvaluated(q, sources)
      else |evaluations| == |sources|
  {
    hide SeasonEvaluated, SourceEvaluated, SortedSources;
  }

  /** A season is decided exactly when a video is mapped. */
  lemma SeasonJudgedByVideo(q: Request, mappings: seq<FileMapping>)
    requires InvalidManifest(q) == None
    ensures var e := JudgeSeason(q, mappings);
      if MapsVideo(q, mappings) then e.Decided? && e.decision.mode == Some(SeasonFromEpisodes) && e.decision.mappings == mappings
      else e == Unmatched(NoPrimaryVideoOverlap)
  {
    PrimaryIsVideo(q, mappings);
    hide InvalidManifest, AnyPrimary, MapsVideo, MappedRequired, RequiredBytes, BaseEvidence, Selected, SourceIds;
  }

  // ----- Which answer wins -----

  /** A stricter way to match. */
  predicate Stricter(a: Option<Mode>, b: Option<Mode>) {
    match (a, b)
    case (Some(Strict), Some(Strict)) => false
    case (Some(Strict), _) => true
    case (Some(Flexible), Some(Partial)) => true
    case (Some(Flexible), Some(SeasonFromEpisodes)) => true
    case (Some(Partial), Some(SeasonFromEpisodes)) => true
    case (_, _) => false
  }

  /** A decision is chosen before another by the stricter mode, then more video bytes, more files at their own paths,
      fewer sources, more of them in the client, and more files. */
  ghost predicate ChosenBefore(d: Decision, e: Decision) {
    || Stricter(d.mode, e.mode)
    || (d.mode == e.mode
        && (|| d.evidence.mappedPrimaryBytes > e.evidence.mappedPrimaryBytes
            || (d.evidence.mappedPrimaryBytes == e.evidence.mappedPrimaryBytes
                && (|| d.evidence.exactPathMappings > e.evidence.exactPathMappings
                    || (d.evidence.exactPathMappings == e.evidence.exactPathMappings
                        && (|| |d.sourceIds| < |e.sourceIds|
                            || (|d.sourceIds| == |e.sourceIds|
                                && (|| d.evidence.qbitSources > e.evidence.qbitSources
                                    || (d.evidence.qbitSources == e.evidence.qbitSources && |d.mappings| >= |e.mappings|)))))))))
  }

  lemma PreferenceMeans(d: Decision, e: Decision)
    requires d.mode.Some? && e.mode.Some?
    ensures Preferred(d, e) <==> ChosenBefore(d, e)
  {
  }

  lemma ModesDecided(q: Request, d: Decision)
    requires Decided(d) in Evaluations(q, SortedSources(q))
    ensures d.mode.Some?
  {
    var p, mode, n := Consistency.EvaluationExplained(q, d);
    hide *;
    ModeExplained(q, d, p, mode, n);
  }

  lemma ModeExplained(q: Request, d: Decision, p: Problem, mode: Mode, n: nat)
    requires Consistency.Explains(q, d, p, mode, n)
    ensures d.mode == Some(mode)
  {
    hide MappedRequired, RequiredBytes, BaseEvidence, Selected, SourceIds, MappingsOf, Consistency.ModeFits;
  }

  /** No decision on a source or a season would have been chosen before the match that is answered. */
  lemma MatchIsChosenFirst(q: Request, e: Decision)
    requires Evaluated(q).outcome == Match && NoRepeats(Map(SourceKey, q.sources))
    requires Decided(e) in Evaluations(q, SortedSources(q))
    ensures ChosenBefore(Evaluated(q), e)
    ensures ChosenBefore(e, Evaluated(q)) ==> e.mappings == Evaluated(q).mappings
  {
    hide *;
    MatchIsDecided(q);
    ModesDecided(q, e);
    ModesDecided(q, Evaluated(q));
    Choice.ChoiceIsUndisputed(q, e);
    QualityIsPreference(Evaluated(q), e);
    PreferenceMeans(Evaluated(q), e);
    PreferenceMeans(e, Evaluated(q));
  }

  lemma QualityIsPreference(d: Decision, e: Decision)
    ensures Preferred(d, e) <==> AtLeast(QualityOf(d), QualityOf(e))
    ensures Preferred(d, e) && Preferred(e, d) ==> QualityOf(d) == QualityOf(e)
  {
    Choice.QualityOrder(QualityOf(d), QualityOf(e), QualityOf(e));
  }

  /** With no ambiguous source, a decision on any of them leads to a match, unless the best two differ and tie. */
  lemma DecidedLeadsToMatch(q: Request, d: Decision)
    requires InvalidManifest(q) == None && !HasTorrent(q) && !InputOverBudget(q)
    requires AmbiguousFiles !in Evaluations(q, SortedSources(q)) && Decided(d) in Evaluations(q, SortedSources(q))
    ensures Evaluated(q).outcome == Match || (Evaluated(q).outcome == Rejected && Evaluated(q).reason == AmbiguousFileMapping)
  {
    PresentIsThere(q);
    ChoiceMatches(q);
    var evaluations := Evaluations(q, SortedSources(q));
    hide InvalidManifest, HasTorrent, Present, InputOverBudget, RequiredBytes, BaseEvidence, Evaluations, SortedSources, Choose, Decisions, Conflicts;
    Choice.DecidedIsChoice(evaluations, d);
  }

  /** An ambiguous source refuses the whole request. */
  lemma AmbiguityRefuses(q: Request)
    requires InvalidManifest(q) == None && !HasTorrent(q) && !InputOverBudget(q) && AmbiguousFiles in Evaluations(q, SortedSources(q))
    ensures Evaluated(q).outcome == Rejected && Evaluated(q).reason == AmbiguousFileMapping
  {
    PresentIsThere(q);
    hide InvalidManifest, HasTorrent, Present, InputOverBudget, RequiredBytes, BaseEvidence, Evaluations, SortedSources, Choose, Decisions, Conflicts;
  }

  // ----- The reason for finding nothing -----

  /** How much a reason says: the smaller, the more. */
  function Weight(reason: Reason): nat {
    match reason
    case MatcherBudgetExceeded => 0
    case SeriesConflict => 1
    case MediaTypeConflict => 2
    case SeasonConflict => 3
    case EpisodeConflict => 4
    case DateConflict => 5
    case YearConflict => 6
    case TitleConflict => 7
    case FileSizeConflict => 8
    case NoPrimaryVideoOverlap => 9
    case _ => 10
  }

  lemma {:induction false} FirstIsHeaviest(k: nat, reasons: seq<Reason>)
    requires k <= 10 && forall r :: r in reasons ==> Weight(r) >= k
    ensures var r := FirstListed(PRIORITY[k..], reasons);
      && (forall x :: x in reasons && Weight(x) < 10 ==> r in reasons && Weight(r) <= Weight(x))
      && ((forall x :: x in reasons ==> Weight(x) == 10) ==> r == NoPlausibleSource)
    decreases 10 - k
  {
    if k < 10 {
      assert PRIORITY[k..][1..] == PRIORITY[k + 1..] && PRIORITY[k..][0] == PRIORITY[k];
      assert Weight(PRIORITY[k]) == k;
      if PRIORITY[k] !in reasons {
        forall r | r in reasons ensures Weight(r) >= k + 1 {
          WeightNames(r, k);
        }
        FirstIsHeaviest(k + 1, reasons);
      }
    }
  }

  lemma WeightNames(r: Reason, k: nat)
    requires k < 10
    ensures Weight(r) == k ==> r == PRIORITY[k]
  {
  }

  /** When nothing matches, the answer is the reason that says most among those of the sources and the season. */
  lemma NothingFoundSaysMost(q: Request)
    requires Evaluated(q).outcome == NoMatchFound
    ensures var evaluations := Evaluations(q, SortedSources(q)); var reason := Evaluated(q).reason;
      && (forall e :: e in evaluations ==> e.Unmatched?)
      && (forall e :: e in evaluations && Weight(e.reason) < 10 ==> Unmatched(reason) in evaluations && Weight(reason) <= Weight(e.reason))
      && (evaluations == [] ==> reason == NoPlausibleSource)
  {
    var evaluations := Evaluations(q, SortedSources(q));
    NothingMeans(q);
    FirstIsHeaviest(0, Conflicts(evaluations));
    assert PRIORITY[0..] == PRIORITY;
    hide Evaluations, SortedSources, Evaluated, PRIORITY;
    forall e | e in evaluations ensures e.Unmatched? && e.reason in Conflicts(evaluations) {
      if e.Decided? {
        Choice.DecidedIsChoice(evaluations, e.decision);
      }
      UnmatchedIsConflict(evaluations, e);
    }
    ConflictIsUnmatched(evaluations, FirstListed(PRIORITY, Conflicts(evaluations)));
  }

  lemma NothingMeans(q: Request)
    requires Evaluated(q).outcome == NoMatchFound
    ensures var evaluations := Evaluations(q, SortedSources(q));
      && AmbiguousFiles !in evaluations && Decisions(evaluations) == []
      && Evaluated(q).reason == FirstListed(PRIORITY, Conflicts(evaluations))
  {
    ChoiceMatches(q);
    hide InvalidManifest, Present, InputOverBudget, RequiredBytes, BaseEvidence, Evaluations, SortedSources, Conflicts, Decisions, Choose, PRIORITY;
  }

  lemma {:induction false} UnmatchedIsConflict(evaluations: seq<Evaluation>, e: Evaluation)
    requires e in evaluations
    ensures e.Unmatched? ==> e.reason in Conflicts(evaluations)
  {
    var n := |evaluations| - 1;
    if evaluations[n] != e {
      assert evaluations == evaluations[..n] + [evaluations[n]];
      UnmatchedIsConflict(evaluations[..n], e);
    }
  }

  lemma {:induction false} ConflictIsUnmatched(evaluations: seq<Evaluation>, r: Reason)
    ensures r in Conflicts(evaluations) ==> Unmatched(r) in evaluations
    ensures evaluations == [] ==> Conflicts(evaluations) == []
  {
    if evaluations != [] {
      ConflictIsUnmatched(evaluations[..|evaluations| - 1], r);
    }
  }

  // ----- Answers without a match -----

  /** The sizes of the files that have to be mapped. */
  lemma RequiredBytesAre(q: Request)
    ensures RequiredBytes(q) == Sum(seq(|q.candidate.files|, k requires 0 <= k < |q.candidate.files| =>
              if Required(q.candidate.files[k], q.policy) then q.candidate.files[k].size else 0))
  {
    hide Required;
    assert Map(RequiredSize(q.policy), q.candidate.files) == seq(|q.candidate.files|, k requires 0 <= k < |q.candidate.files| =>
              if Required(q.candidate.files[k], q.policy) then q.candidate.files[k].size else 0);
  }

  /** Nothing is mapped, and everything required is missing unless the request is rejected. */
  ghost predicate MapsNothing(q: Request, d: Decision) {
    && d.mode == None && d.mappings == [] && d.sourceIds == [] && d.mappedBytes == 0 && d.presentRatio == 0 && !d.requiresRecheck
    && d.missingBytes == if d.outcome == Rejected then 0 else RequiredBytes(q)
  }

  lemma ConcludesNothing(q: Request, evaluations: seq<Evaluation>)
    requires forall d :: d in Decisions(evaluations) ==> d.outcome == Match
    ensures Conclude(q, evaluations).outcome != Match ==> MapsNothing(q, Conclude(q, evaluations))
  {
    ChosenIsEmpty(Decisions(evaluations));
    hide Choose, Decisions, Conflicts, BaseEvidence, RequiredBytes;
  }

  /** Without a match nothing is mapped. */
  lemma NothingMapped(q: Request)
    requires Evaluated(q).outcome != Match
    ensures MapsNothing(q, Evaluated(q))
  {
    AllMatch(q);
    hide InvalidManifest, Present, InputOverBudget, RequiredBytes, BaseEvidence, Evaluations, SortedSources, Choose, Decisions, Conflicts, Conclude;
    ConcludesNothing(q, Evaluations(q, SortedSources(q)));
  }

  lemma AllMatch(q: Request)
    ensures forall d :: d in Decisions(Evaluations(q, SortedSources(q))) ==> d.outcome == Match
  {
    hide *;
    forall d | d in Decisions(Evaluations(q, SortedSources(q))) ensures d.outcome == Match {
      Consistency.DecisionsAreDecided(Evaluations(q, SortedSources(q)), d);
      DecisionMatches(q, d);
    }
  }

  lemma ChosenIsEmpty(choices: seq<Decision>)
    requires forall d :: d in choices ==> d.outcome == Match
    ensures Choose(choices).Some? ==>
              var d := Choose(choices).value;
              d.outcome == Match || d == Refusal(AmbiguousFileMapping, d.evidence)
  {
    var sorted := Sort(choices, Preferred);
    hide Sort, QualityOf;
    if |sorted| > 0 {
      assert sorted[0] in sorted;
      SameElements(sorted, choices, sorted[0]);
    }
  }
}
