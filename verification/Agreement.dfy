/** Which releases belong together, and that every match keeps to it: each mapped file comes from a source whose
    release agrees with the candidate's, and the two files are pairable. */
module Agreement {
  import opened Wrappers
  import opened Files
  import opened Sorting
  import opened Objective
  import opened Assign
  import opened Decision
  import opened Scoring
  import Evaluate
  import Consistency
  import Choice

  // ----- Releases -----

  predicate EqualWhereSet<T(==)>(a: Option<T>, b: Option<T>) {
    a == None || b == None || a == b
  }

  ghost predicate ShareTitle(a: Release, b: Release) {
    exists title :: title in a.titles && title in b.titles
  }

  /** One kind, or a kind unknown; in season mode a pack also takes episodes. */
  predicate KindsAgree(candidate: Release, source: Release, seasonMode: bool) {
    || candidate.kind == source.kind || candidate.kind == UnknownVideo || source.kind == UnknownVideo
    || (seasonMode && candidate.kind == SeasonPack && source.kind == Episode)
  }

  predicate EpisodesAgreeToo(candidate: Release, source: Release, seasonMode: bool) {
    !seasonMode && candidate.kind == Episode && source.kind == Episode ==>
      candidate.episode == source.episode && candidate.episodeEnd == source.episodeEnd
  }

  /** Field by field: one Arr identity if both have one and otherwise a common title; kinds, years, seasons,
      episodes, dates and absolute numbers that do not contradict each other. */
  ghost predicate Agree(candidate: Release, source: Release, seasonMode: bool) {
    && EqualWhereSet(candidate.arr, source.arr)
    && KindsAgree(candidate, source, seasonMode)
    && ((candidate.arr.Some? && source.arr.Some?) || ShareTitle(candidate, source))
    && EqualWhereSet(candidate.year, source.year)
    && EqualWhereSet(candidate.season, source.season)
    && EpisodesAgreeToo(candidate, source, seasonMode)
    && EqualWhereSet(candidate.airDate, source.airDate)
    && EqualWhereSet(candidate.absoluteEpisode, source.absoluteEpisode)
  }

  /** What is compared, in order, and what is said when it is the first to differ. */
  ghost function Comparisons(candidate: Release, source: Release, seasonMode: bool): (checks: seq<(bool, Reason)>)
    ensures |checks| == 8
  {
    [(EqualWhereSet(candidate.arr, source.arr), SeriesConflict),
     (KindsAgree(candidate, source, seasonMode), MediaTypeConflict),
     ((candidate.arr.Some? && source.arr.Some?) || ShareTitle(candidate, source), TitleConflict),
     (EqualWhereSet(candidate.year, source.year), YearConflict),
     (EqualWhereSet(candidate.season, source.season), SeasonConflict),
     (EpisodesAgreeToo(candidate, source, seasonMode), EpisodeConflict),
     (EqualWhereSet(candidate.airDate, source.airDate), DateConflict),
     (EqualWhereSet(candidate.absoluteEpisode, source.absoluteEpisode), EpisodeConflict)]
  }

  /** The k-th comparison is the first that fails. */
  ghost predicate FirstToDiffer(checks: seq<(bool, Reason)>, k: nat) {
    k < |checks| && !checks[k].0 && forall j :: 0 <= j < k ==> checks[j].0
  }

  lemma OverlapIsShared(a: Release, b: Release)
    ensures TitlesOverlap(a, b) <==> ShareTitle(a, b)
  {
    if ShareTitle(a, b) {
      var title :| title in a.titles && title in b.titles;
      var i :| 0 <= i < |b.titles| && b.titles[i] == title;
    }
  }

  lemma AllEight(checks: seq<(bool, Reason)>)
    requires |checks| == 8
    ensures (forall k :: 0 <= k < 8 ==> checks[k].0) <==>
            checks[0].0 && checks[1].0 && checks[2].0 && checks[3].0 && checks[4].0 && checks[5].0 && checks[6].0 && checks[7].0
    ensures forall k: nat :: FirstToDiffer(checks, k) ==>
              k == if !checks[0].0 then 0 else if !checks[1].0 then 1 else if !checks[2].0 then 2 else if !checks[3].0 then 3
                   else if !checks[4].0 then 4 else if !checks[5].0 then 5 else if !checks[6].0 then 6 else 7
  {
  }

  /** Releases are compatible exactly when they agree, and otherwise the first comparison that differs is
      what is reported. */
  lemma CompatibleWhenAgreeing(candidate: Release, source: Release, seasonMode: bool)
    ensures Incompatible(candidate, source, seasonMode) == None <==> Agree(candidate, source, seasonMode)
    ensures forall k: nat :: FirstToDiffer(Comparisons(candidate, source, seasonMode), k) ==>
              Incompatible(candidate, source, seasonMode) == Some(Comparisons(candidate, source, seasonMode)[k].1)
    ensures !Agree(candidate, source, seasonMode) ==> exists k: nat :: FirstToDiffer(Comparisons(candidate, source, seasonMode), k)
  {
    OverlapIsShared(candidate, source);
    hide TitlesOverlap, ShareTitle;
    var checks := Comparisons(candidate, source, seasonMode);
    AllEight(checks);
    if !Agree(candidate, source, seasonMode) {
      var k := FirstFailing(checks);
    }
  }

  lemma FirstFailing(checks: seq<(bool, Reason)>) returns (k: nat)
    requires exists j :: 0 <= j < |checks| && !checks[j].0
    ensures FirstToDiffer(checks, k)
  {
    k := 0;
    while checks[k].0
      invariant k < |checks| && forall j :: 0 <= j < k ==> checks[j].0
      decreases |checks| - k
    {
      var j :| 0 <= j < |checks| && !checks[j].0;
      assert j > k;
      k := k + 1;
    }
  }

  // ----- What matches map -----

  /** A file of an available source whose release agrees; in season mode an episode of the candidate's season. */
  ghost predicate Offered(q: Request, s: Source, y: (SourceId, SourceFile), seasonMode: bool) {
    && s in q.sources && s.available && y.0 == s.id && y.1 in s.files
    && Agree(q.release, s.release, seasonMode)
    && (seasonMode ==> s.release.kind == Episode && s.release.season == q.release.season)
  }

  /** The problem a decision comes from. */
  ghost predicate Origin(q: Request, d: Decision, p: Problem) {
    && d.mappings == MappingsOf(p) && p.names == q.names && p.policy == q.policy && p.candidates == CandidateFiles(q)
    && (p.seasonMode <==> d.mode == Some(SeasonFromEpisodes))
    && forall y :: y in p.sources ==> exists s :: Offered(q, s, y, p.seasonMode)
  }

  lemma SourceAgrees(q: Request, s: Source, d: Decision)
    requires s in SortedSources(q) && SourceEvaluated(q, s) == Decided(d)
    ensures Incompatible(q.release, s.release, false) == None
  {
    hide JudgeSource, Incompatible, OutcomeOf, MappingsOf, SourceProblem;
  }

  lemma SourceOrigin(q: Request, s: Source, d: Decision)
    requires s in SortedSources(q) && SourceEvaluated(q, s) == Decided(d)
    ensures Origin(q, d, SourceProblem(q, s))
  {
    var p := SourceProblem(q, s);
    Consistency.SortedIsSource(q, s);
    SourceAgrees(q, s, d);
    CompatibleWhenAgreeing(q.release, s.release, false);
    Consistency.SourceSettled(q, s, d);
    Choice.JudgedMode(q, s, MappingsOf(p), d);
    hide Agree, MappingsOf, JudgeSource, SortedSources, CandidateFiles, SourceEvaluated;
    forall y | y in p.sources ensures exists s :: Offered(q, s, y, p.seasonMode) {
      var i :| 0 <= i < |p.sources| && p.sources[i] == y;
      assert y == (s.id, s.files[i]);
      assert Offered(q, s, y, false);
    }
  }

  lemma SeasonMappings(q: Request, d: Decision)
    requires SeasonEvaluated(q, SortedSources(q)) == Decided(d)
    ensures d.mappings == MappingsOf(SeasonProblem(q, SortedSources(q))) && d.mode == Some(SeasonFromEpisodes)
  {
    hide EpisodeFiles, OutcomeOf, SortedSources, MappingsOf, AnyPrimary, MappedRequired, RequiredBytes, BaseEvidence, Selected, SourceIds;
  }

  lemma SeasonOrigin(q: Request, d: Decision)
    requires SeasonEvaluated(q, SortedSources(q)) == Decided(d)
    ensures Origin(q, d, SeasonProblem(q, SortedSources(q)))
  {
    var p := SeasonProblem(q, SortedSources(q));
    SeasonMappings(q, d);
    hide MappingsOf, SortedSources, CandidateFiles, SeasonEvaluated, Agree;
    forall y | y in p.sources ensures exists s :: Offered(q, s, y, p.seasonMode) {
      var s := Consistency.ConcatOrigin(Filter(EpisodeOf(q.release), SortedSources(q)), y);
      Consistency.SortedIsSource(q, s);
      CompatibleWhenAgreeing(q.release, s.release, true);
      var i :| 0 <= i < |Tagged(s)| && Tagged(s)[i] == y;
      assert Offered(q, s, y, true);
    }
  }

  lemma DecidedOrigin(q: Request, d: Decision) returns (p: Problem)
    requires Decided(d) in Evaluations(q, SortedSources(q))
    ensures Origin(q, d, p)
  {
    var sources := SortedSources(q);
    var evaluations := Evaluations(q, sources);
    hide SortedSources, SourceEvaluated, SeasonEvaluated, SeasonProblem, SourceProblem, Origin;
    var i :| 0 <= i < |evaluations| && evaluations[i] == Decided(d);
    if i < |sources| {
      assert SourceEvaluated(q, sources[i]) == Decided(d);
      SourceOrigin(q, sources[i], d);
      p := SourceProblem(q, sources[i]);
    } else {
      SeasonOrigin(q, d);
      p := SeasonProblem(q, sources);
    }
  }

  /** One mapping of a decision: the candidate file, the source and its file. */
  lemma MappedFilesAgree(q: Request, d: Decision, p: Problem, k: nat) returns (c: TorrentFile, s: Source, x: SourceFile)
    requires Origin(q, d, p) && k < |d.mappings|
    ensures c in q.candidate.files && Consistency.StandsFor(c, d.mappings[k])
    ensures s in q.sources && Consistency.ComesFrom(s, x, d.mappings[k]) && Offered(q, s, (s.id, x), p.seasonMode)
    ensures Pairable(q.names, c, x, q.policy, p.seasonMode)
    ensures d.mappings[k].score == Worth(Agreements(q.names, c, x, q.policy))
  {
    var at, from := Consistency.MappingPairs(p);
    hide MappingsOf, CandidateFiles, Agree, EdgeScore, Pairable, Agreements, Worth;
    var f := d.mappings[k];
    assert Consistency.PairsUp(p, f, at[k], from[k]);
    c := p.candidates[at[k]];
    Evaluate.CandidateIsFile(q, c);
    var y := p.sources[from[k]];
    x := y.1;
    assert y in p.sources;
    s :| Offered(q, s, y, p.seasonMode);
    ScoresWhenPairable(q.names, c, x, q.policy, p.seasonMode);
    ScoreTellsAgreements(q.names, c, x, q.policy, p.seasonMode);
  }

  lemma MatchIsDecided(q: Request)
    requires Evaluated(q).outcome == Match
    ensures Decided(Evaluated(q)) in Evaluations(q, SortedSources(q))
  {
    hide *;
    Choice.ConcludesMatch(q);
    Consistency.ConcludeMatches(q, Evaluations(q, SortedSources(q)));
  }

  /** In every match each mapping pairs a candidate file with a file of an available source whose release agrees
      with the candidate's, the two files are pairable, and the mapping's score is what they agree on. */
  lemma MatchesAgree(q: Request, k: nat) returns (c: TorrentFile, s: Source, x: SourceFile)
    requires Evaluated(q).outcome == Match && k < |Evaluated(q).mappings|
    ensures var d := Evaluated(q); var f := d.mappings[k]; var season := d.mode == Some(SeasonFromEpisodes);
      && c in q.candidate.files && Consistency.StandsFor(c, f) && s in q.sources && Consistency.ComesFrom(s, x, f)
      && Agree(q.release, s.release, season)
      && (season ==> s.release.kind == Episode && s.release.season == q.release.season)
      && Pairable(q.names, c, x, q.policy, season)
      && f.score == Worth(Agreements(q.names, c, x, q.policy))
  {
    hide *;
    MatchIsDecided(q);
    var p := DecidedOrigin(q, Evaluated(q));
    c, s, x := MappedFilesAgree(q, Evaluated(q), p, k);
    OriginMeans(q, Evaluated(q), p, s, x);
  }

  lemma OriginMeans(q: Request, d: Decision, p: Problem, s: Source, x: SourceFile)
    requires Origin(q, d, p) && Offered(q, s, (s.id, x), p.seasonMode)
    ensures p.seasonMode <==> d.mode == Some(SeasonFromEpisodes)
    ensures Agree(q.release, s.release, p.seasonMode)
    ensures p.seasonMode ==> s.release.kind == Episode && s.release.season == q.release.season
  {
    hide Agree, MappingsOf, CandidateFiles;
  }
}
