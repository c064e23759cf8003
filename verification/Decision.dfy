/** From assignments to a match decision: the specification `Evaluated`, and the code that computes it. */
module Decision {
  import opened Wrappers
  import opened Sums
  import opened Matching
  import opened Files
  import opened Sorting
  import opened Objective
  import opened Assign

  datatype VideoKind = Movie | Episode | SeasonPack | DateEpisode | AbsoluteEpisode | Disc | UnknownVideo

  datatype ArrIdentity = ArrIdentity(series: bool, instance: string, entity: int)

  datatype Release = Release(
    kind: VideoKind,
    titles: seq<string>,
    year: Option<nat>,
    season: Option<nat>,
    episode: Option<nat>,
    episodeEnd: Option<nat>,
    absoluteEpisode: Option<nat>,
    airDate: Option<nat>,
    arr: Option<ArrIdentity>)

  datatype Hashes = Hashes(v1: Option<nat>, v2: Option<nat>)

  /** A stretch of the piece address space; padding stretches belong to no file. */
  datatype PieceFile = PieceFile(ordinal: Option<nat>, offset: U64, size: U64)

  datatype Manifest = Manifest(hashes: Hashes, files: seq<TorrentFile>, pieceLength: Option<U64>, pieceFiles: seq<PieceFile>)

  datatype SourceKind = QbittorrentTorrent | DataDirectoryRelease | DataDirectoryFile

  datatype Source = Source(id: SourceId, kind: SourceKind, release: Release, hashes: Hashes, files: seq<SourceFile>, available: bool)

  datatype Request = Request(names: Names, candidate: Manifest, release: Release, sources: seq<Source>, policy: Policy)

  datatype Verdict = Match | NoMatchFound | AlreadyThere | Rejected

  datatype Mode = Strict | Flexible | Partial | SeasonFromEpisodes

  datatype Reason =
    | MatchStrict | MatchFlexible | MatchPartial | MatchSeasonFromEpisodes | AlreadyPresent | NoPlausibleSource
    | MediaTypeConflict | TitleConflict | YearConflict | SeriesConflict | SeasonConflict | EpisodeConflict | DateConflict
    | NoPrimaryVideoOverlap | FileSizeConflict | AmbiguousFileMapping | UnsupportedTorrent | UnsafeTorrentPath
    | MatcherBudgetExceeded

  datatype FileMapping = FileMapping(
    ordinal: nat, sourceId: SourceId, sourceFileId: nat, candidatePath: string, sourcePath: string, size: nat, score: nat)

  datatype Evidence = Evidence(
    candidateFiles: nat, requiredFiles: nat, primaryFiles: nat, mappedFiles: nat, mappedPrimaryFiles: nat,
    mappedPrimaryBytes: int, exactPathMappings: nat, compatibleSources: nat, qbitSources: nat)

  datatype Decision = Decision(
    outcome: Verdict, mode: Option<Mode>, reason: Reason, sourceIds: seq<SourceId>, mappings: seq<FileMapping>,
    mappedBytes: int, missingBytes: int, presentRatio: nat, requiresRecheck: bool, evidence: Evidence)

  // ----- Compatibility of releases -----

  predicate Differ<T(==)>(a: Option<T>, b: Option<T>) {
    a.Some? && b.Some? && a != b
  }

  predicate TitlesOverlap(a: Release, b: Release) {
    exists i :: 0 <= i < |b.titles| && b.titles[i] in a.titles
  }

  /** Why a source's release cannot be the candidate's, if it cannot. */
  function Incompatible(candidate: Release, source: Release, seasonMode: bool): Option<Reason> {
    if Differ(candidate.arr, source.arr) then Some(SeriesConflict)
    else if candidate.kind != UnknownVideo && source.kind != UnknownVideo && candidate.kind != source.kind
            && !(seasonMode && candidate.kind == SeasonPack && source.kind == Episode) then Some(MediaTypeConflict)
    else if !(candidate.arr.Some? && source.arr.Some?) && !TitlesOverlap(candidate, source) then Some(TitleConflict)
    else if Differ(candidate.year, source.year) then Some(YearConflict)
    else if Differ(candidate.season, source.season) then Some(SeasonConflict)
    else if !seasonMode && candidate.kind == Episode && source.kind == Episode
            && (candidate.episode, candidate.episodeEnd) != (source.episode, source.episodeEnd) then Some(EpisodeConflict)
    else if Differ(candidate.airDate, source.airDate) then Some(DateConflict)
    else if Differ(candidate.absoluteEpisode, source.absoluteEpisode) then Some(EpisodeConflict)
    else None
  }

  // ----- The candidate -----

  predicate UnsafeComponent(names: Names, part: string) {
    part == "" || part == "." || part == ".." || names.compose(part) == "." || names.compose(part) == ".."
  }

  /** In UTF-8 the second byte is a colon just when an ASCII character comes before a colon. */
  predicate SecondByteIsColon(path: string) {
    |path| > 1 && path[0] < (128 as char) && path[1] == ':'
  }

  predicate UnsafePath(names: Names, path: string) {
    || path == "" || path[0] == '/' || '\\' in path || '\0' in path || SecondByteIsColon(path)
    || exists i :: 0 <= i < |PathParts(path)| && UnsafeComponent(names, PathParts(path)[i])
  }

  /** One path lies strictly above another. */
  predicate Above(a: string, b: string) {
    a + "/" <= b
  }

  predicate PathsClash(q: Request, a: TorrentFile, b: TorrentFile) {
    Above(q.names.compose(a.path), q.names.compose(b.path))
  }

  function Ordinal(file: TorrentFile): int {
    file.ordinal
  }

  function ComposedPath(names: Names): TorrentFile -> string {
    (f: TorrentFile) => names.compose(f.path)
  }

  /** Ordinals and composed paths are distinct, paths are safe, and no file is a directory of another. */
  ghost predicate SafeFiles(q: Request) {
    && NoRepeats(Map(Ordinal, q.candidate.files))
    && NoRepeats(Map(ComposedPath(q.names), q.candidate.files))
    && (forall f :: f in q.candidate.files ==> !UnsafePath(q.names, f.path))
    && (forall f, h :: f in q.candidate.files && h in q.candidate.files ==> !PathsClash(q, f, h))
  }

  /** Why a manifest is refused outright, if it is. */
  ghost function InvalidManifest(q: Request): Option<Reason> {
    if q.candidate.files == [] || q.candidate.pieceLength == Some(0) then Some(UnsupportedTorrent)
    else if !SafeFiles(q) then Some(UnsafeTorrentPath)
    else None
  }

  predicate SameTorrent(a: Hashes, b: Hashes) {
    (a.v1.Some? && a.v1 == b.v1) || (a.v2.Some? && a.v2 == b.v2)
  }

  predicate Present(q: Request) {
    exists i :: 0 <= i < |q.sources| && SameTorrent(q.candidate.hashes, q.sources[i].hashes)
  }

  function Unpadded(file: TorrentFile): bool {
    !file.padding
  }

  function CandidateFiles(q: Request): seq<TorrentFile> {
    SortByKey(Ordinal, Filter(Unpadded, q.candidate.files))
  }

  function SourceKey(s: Source): int {
    s.id
  }

  function Available(s: Source): bool {
    s.available
  }

  function SortedSources(q: Request): seq<Source> {
    SortByKey(SourceKey, Filter(Available, q.sources))
  }

  function FileCount(s: Source): int {
    |s.files|
  }

  /** More files than the budget allows, over all available sources. */
  predicate InputOverBudget(q: Request) {
    |Filter(Unpadded, q.candidate.files)| + Sum(Map(FileCount, Filter(Available, q.sources))) > q.policy.maxAssignmentFiles
  }

  // ----- Totals over the candidate's files -----

  function IsRequired(policy: Policy): TorrentFile -> bool {
    (f: TorrentFile) => Required(f, policy)
  }

  function IsPrimary(policy: Policy): TorrentFile -> bool {
    (f: TorrentFile) => Primary(f, policy)
  }

  function RequiredSize(policy: Policy): TorrentFile -> int {
    (f: TorrentFile) => if Required(f, policy) then f.size else 0
  }

  function RequiredBytes(q: Request): int {
    Sum(Map(RequiredSize(q.policy), q.candidate.files))
  }

  function BaseEvidence(q: Request): Evidence {
    Evidence(|q.candidate.files|,
             |Filter(IsRequired(q.policy), q.candidate.files)|,
             |Filter(IsPrimary(q.policy), q.candidate.files)|,
             0, 0, 0, 0, 0, 0)
  }

  function ByOrdinal(ordinal: nat): TorrentFile -> bool {
    (f: TorrentFile) => f.ordinal == ordinal
  }

  /** The first file with an ordinal satisfies a test. */
  predicate FileWith(q: Request, ordinal: nat, test: TorrentFile -> bool) {
    var found := Filter(ByOrdinal(ordinal), q.candidate.files);
    |found| > 0 && test(found[0])
  }

  // ----- Mappings -----

  /** The mapping of candidate i to source file j. */
  function MappingAt(p: Problem, i: nat, j: nat, score: nat): FileMapping
    requires i < |p.candidates| && j < |p.sources|
  {
    var (sourceId, source) := p.sources[j];
    FileMapping(p.candidates[i].ordinal, sourceId, source.id, p.candidates[i].path, source.path, p.candidates[i].size, score)
  }

  ghost function ScoreOf(p: Problem, i: nat, j: nat): nat
    requires i < |p.candidates| && j < |p.sources|
  {
    EdgeValue(ScoreAt(p, i, j))
  }

  /** The mapping a matching gives candidate r. */
  ghost function MappedRow(p: Problem, m: Pairing, r: nat): FileMapping
    requires r in m && r < |p.candidates| && m[r] < |p.sources|
  {
    MappingAt(p, r, m[r], ScoreOf(p, r, m[r]))
  }

  /** The mappings of a matching for the first k candidates, in candidate order. */
  ghost function MappingsTo(p: Problem, m: Pairing, k: nat): (s: seq<FileMapping>)
    requires k <= |p.candidates| && forall r :: r in m ==> m[r] < |p.sources|
  {
    if k == 0 then []
    else MappingsTo(p, m, k - 1) + if k - 1 in m then [MappedRow(p, m, k - 1)] else []
  }

  ghost predicate IsTheMaximum(p: Problem, m: Pairing) {
    UniqueMaximum(Weights(p), AllRows(Weights(p)), m) && forall r :: r in m ==> m[r] < |p.sources|
  }

  ghost function TheMaximum(p: Problem): (m: Pairing)
    ensures forall r :: r in m ==> m[r] < |p.sources|
  {
    if exists m :: IsTheMaximum(p, m) then (var m :| IsTheMaximum(p, m); m) else map[]
  }

  ghost function MappingsOf(p: Problem): seq<FileMapping> {
    MappingsTo(p, TheMaximum(p), |p.candidates|)
  }

  // ----- Decisions -----

  const PPM := 1000000

  /** Parts per million, with the code's truncation to 32 bits. */
  function RatioFromBytes(present: nat, total: nat): nat {
    if total == 0 then 0 else (present * PPM / total) % 0x1_0000_0000
  }

  function Dedup(s: seq<nat>): seq<nat> {
    if |s| < 2 then s
    else if s[0] == s[1] then Dedup(s[1..])
    else [s[0]] + Dedup(s[1..])
  }

  function SourceIds(mappings: seq<FileMapping>): seq<SourceId> {
    Dedup(Ascending(Map((f: FileMapping) => f.sourceId, mappings)))
  }

  function MappedSize(f: FileMapping): int {
    f.size
  }

  function MappingWith(q: Request, test: TorrentFile -> bool): FileMapping -> bool {
    (f: FileMapping) => FileWith(q, f.ordinal, test)
  }

  function Selected(q: Request, test: TorrentFile -> bool, mappings: seq<FileMapping>): seq<FileMapping> {
    Filter(MappingWith(q, test), mappings)
  }

  function AtOwnPath(f: FileMapping): bool {
    f.candidatePath == f.sourcePath
  }

  function ModeReason(mode: Mode): Reason {
    match mode
    case Strict => MatchStrict
    case Flexible => MatchFlexible
    case Partial => MatchPartial
    case SeasonFromEpisodes => MatchSeasonFromEpisodes
  }

  function MappedRequired(q: Request, mappings: seq<FileMapping>): int {
    Sum(Map(MappedSize, Selected(q, IsRequired(q.policy), mappings)))
  }

  predicate IsQbitSource(q: Request, id: SourceId) {
    exists i :: 0 <= i < |q.sources| && q.sources[i].id == id && q.sources[i].kind == QbittorrentTorrent
  }

  function QbitSource(q: Request): SourceId -> bool {
    (id: SourceId) => IsQbitSource(q, id)
  }

  lemma MappedNonNegative(mappings: seq<FileMapping>)
    ensures Sum(Map(MappedSize, mappings)) >= 0
  {
    SumNonNegative(Map(MappedSize, mappings));
  }

  function Decide(q: Request, mode: Mode, mappings: seq<FileMapping>, compatibleSources: nat): Decision {
    var total, mapped := RequiredBytes(q), MappedRequired(q, mappings);
    var primaries := Selected(q, IsPrimary(q.policy), mappings);
    var ids := SourceIds(mappings);
    MappedNonNegative(Selected(q, IsRequired(q.policy), mappings));
    SumNonNegative(Map(RequiredSize(q.policy), q.candidate.files));
    Decision(Match, Some(mode), ModeReason(mode), ids, mappings,
             Sum(Map(MappedSize, mappings)),
             if total >= mapped then total - mapped else 0,
             RatioFromBytes(mapped, total),
             true,
             BaseEvidence(q).(
               compatibleSources := compatibleSources,
               mappedFiles := |mappings|,
               mappedPrimaryFiles := |primaries|,
               mappedPrimaryBytes := Sum(Map(MappedSize, primaries)),
               exactPathMappings := |Filter(AtOwnPath, mappings)|,
               qbitSources := |Filter(QbitSource(q), ids)|))
  }

  function Refusal(reason: Reason, evidence: Evidence): Decision {
    Decision(Rejected, None, reason, [], [], 0, 0, 0, false, evidence)
  }

  function NothingFound(q: Request, reason: Reason): Decision {
    Decision(NoMatchFound, None, reason, [], [], 0, RequiredBytes(q), 0, false, BaseEvidence(q))
  }

  // ----- One source -----

  datatype Evaluation = Decided(decision: Decision) | AmbiguousFiles | Unmatched(reason: Reason)

  function TagWith(id: SourceId): SourceFile -> (SourceId, SourceFile) {
    (f: SourceFile) => (id, f)
  }

  function Tagged(s: Source): seq<(SourceId, SourceFile)> {
    Map(TagWith(s.id), s.files)
  }

  function SourceProblem(q: Request, s: Source): Problem {
    Problem(q.names, CandidateFiles(q), Tagged(s), q.policy, false)
  }

  predicate Maps(mappings: seq<FileMapping>, ordinal: nat) {
    exists i :: 0 <= i < |mappings| && mappings[i].ordinal == ordinal
  }

  predicate MapsExactly(mappings: seq<FileMapping>, ordinal: nat) {
    exists i :: 0 <= i < |mappings| && mappings[i].ordinal == ordinal && mappings[i].candidatePath == mappings[i].sourcePath
  }

  /** Every required candidate file is mapped. */
  predicate AllRequired(q: Request, mappings: seq<FileMapping>) {
    var files := CandidateFiles(q);
    forall i :: 0 <= i < |files| && Required(files[i], q.policy) ==> Maps(mappings, files[i].ordinal)
  }

  /** Every required candidate file is mapped at its own path. */
  predicate AllExact(q: Request, mappings: seq<FileMapping>) {
    var files := CandidateFiles(q);
    forall i :: 0 <= i < |files| && Required(files[i], q.policy) ==> MapsExactly(mappings, files[i].ordinal)
  }

  /** The candidate file behind a mapping is a primary video. */
  predicate MapsPrimary(q: Request, mapping: FileMapping) {
    var found := Filter(ByOrdinal(mapping.ordinal), CandidateFiles(q));
    |found| > 0 && Primary(found[0], q.policy)
  }

  predicate AnyPrimary(q: Request, mappings: seq<FileMapping>) {
    exists i :: 0 <= i < |mappings| && MapsPrimary(q, mappings[i])
  }

  predicate SizeConflict(candidate: TorrentFile, source: SourceFile) {
    (candidate.path == source.path || Basename(candidate.path) == Basename(source.path)) && candidate.size != source.size
  }

  function FailureReason(q: Request, files: seq<(SourceId, SourceFile)>): Reason {
    var mine := CandidateFiles(q);
    if exists i, j :: 0 <= i < |mine| && 0 <= j < |files| && Required(mine[i], q.policy) && SizeConflict(mine[i], files[j].1)
    then FileSizeConflict else NoPrimaryVideoOverlap
  }

  function JudgeSource(q: Request, s: Source, mappings: seq<FileMapping>): Evaluation {
    if AllRequired(q, mappings) && AllExact(q, mappings) then Decided(Decide(q, Strict, mappings, 1))
    else if AllRequired(q, mappings) && q.policy.allowFlexible then Decided(Decide(q, Flexible, mappings, 1))
    else if AnyPrimary(q, mappings) && q.policy.allowPartial then Decided(Decide(q, Partial, mappings, 1))
    else Unmatched(FailureReason(q, Tagged(s)))
  }

  ghost function SourceEvaluated(q: Request, s: Source): Evaluation {
    match Incompatible(q.release, s.release, false)
    case Some(reason) => Unmatched(reason)
    case None =>
      match OutcomeOf(SourceProblem(q, s))
      case OverBudget => Unmatched(MatcherBudgetExceeded)
      case Ambiguous => AmbiguousFiles
      case Settled => JudgeSource(q, s, MappingsOf(SourceProblem(q, s)))
  }

  // ----- A season from episodes -----

  /** An episode of the candidate's season. */
  function EpisodeOf(release: Release): Source -> bool {
    (s: Source) =>
      Incompatible(release, s.release, true).None? && s.release.kind == Episode && s.release.season == release.season
  }

  function Concat<T>(parts: seq<seq<T>>): seq<T> {
    if |parts| == 0 then [] else parts[0] + Concat(parts[1..])
  }

  function EpisodeFiles(q: Request, sources: seq<Source>): seq<(SourceId, SourceFile)> {
    Concat(Map(Tagged, Filter(EpisodeOf(q.release), sources)))
  }

  function SeasonProblem(q: Request, sources: seq<Source>): Problem {
    Problem(q.names, CandidateFiles(q), EpisodeFiles(q, sources), q.policy, true)
  }

  function JudgeSeason(q: Request, mappings: seq<FileMapping>): Evaluation {
    if !AnyPrimary(q, mappings) then Unmatched(NoPrimaryVideoOverlap)
    else Decided(Decide(q, SeasonFromEpisodes, mappings, |SourceIds(mappings)|))
  }

  ghost function SeasonEvaluated(q: Request, sources: seq<Source>): Evaluation {
    if EpisodeFiles(q, sources) == [] then Unmatched(NoPrimaryVideoOverlap)
    else
      match OutcomeOf(SeasonProblem(q, sources))
      case OverBudget => Unmatched(MatcherBudgetExceeded)
      case Ambiguous => AmbiguousFiles
      case Settled => JudgeSeason(q, MappingsOf(SeasonProblem(q, sources)))
  }

  // ----- Choosing among decisions -----

  datatype Quality = Quality(rank: nat, primaryBytes: int, exact: nat, sources: nat, qbit: nat, mappings: nat)

  function ModeRank(mode: Option<Mode>): nat {
    match mode
    case Some(Strict) => 4
    case Some(Flexible) => 3
    case Some(Partial) => 2
    case Some(SeasonFromEpisodes) => 1
    case None => 0
  }

  function QualityOf(d: Decision): Quality {
    Quality(ModeRank(d.mode), d.evidence.mappedPrimaryBytes, d.evidence.exactPathMappings, |d.sourceIds|,
            d.evidence.qbitSources, |d.mappings|)
  }

  /** At least as good, on the first component that differs; fewer sources are better. */
  predicate AtLeast(a: Quality, b: Quality) {
    if a.rank != b.rank then a.rank > b.rank
    else if a.primaryBytes != b.primaryBytes then a.primaryBytes > b.primaryBytes
    else if a.exact != b.exact then a.exact > b.exact
    else if a.sources != b.sources then a.sources < b.sources
    else if a.qbit != b.qbit then a.qbit > b.qbit
    else a.mappings >= b.mappings
  }

  predicate Preferred(a: Decision, b: Decision) {
    AtLeast(QualityOf(a), QualityOf(b))
  }

  function Choose(choices: seq<Decision>): Option<Decision> {
    var sorted := Sort(choices, Preferred);
    if |sorted| == 0 then None
    else if |sorted| > 1 && QualityOf(sorted[0]) == QualityOf(sorted[1]) && sorted[0].mappings != sorted[1].mappings
    then Some(Refusal(AmbiguousFileMapping, sorted[0].evidence))
    else Some(sorted[0])
  }

  const PRIORITY: seq<Reason> :=
    [MatcherBudgetExceeded, SeriesConflict, MediaTypeConflict, SeasonConflict, EpisodeConflict, DateConflict,
     YearConflict, TitleConflict, FileSizeConflict, NoPrimaryVideoOverlap]

  function FirstListed(priority: seq<Reason>, reasons: seq<Reason>): Reason {
    if |priority| == 0 then NoPlausibleSource
    else if priority[0] in reasons then priority[0]
    else FirstListed(priority[1..], reasons)
  }

  function Decisions(evaluations: seq<Evaluation>): seq<Decision> {
    if |evaluations| == 0 then []
    else
      var last := evaluations[|evaluations| - 1];
      Decisions(evaluations[..|evaluations| - 1]) + if last.Decided? then [last.decision] else []
  }

  function Conflicts(evaluations: seq<Evaluation>): seq<Reason> {
    if |evaluations| == 0 then []
    else
      var last := evaluations[|evaluations| - 1];
      Conflicts(evaluations[..|evaluations| - 1]) + if last.Unmatched? then [last.reason] else []
  }

  function Conclude(q: Request, evaluations: seq<Evaluation>): Decision {
    if AmbiguousFiles in evaluations then Refusal(AmbiguousFileMapping, BaseEvidence(q))
    else
      match Choose(Decisions(evaluations))
      case Some(d) => d
      case None => NothingFound(q, FirstListed(PRIORITY, Conflicts(evaluations)))
  }

  // ----- The whole evaluation -----

  predicate TriesSeason(q: Request) {
    q.policy.allowSeasonFromEpisodes && q.release.kind == SeasonPack
  }

  ghost function Evaluations(q: Request, sources: seq<Source>): seq<Evaluation> {
    Map((s: Source) => SourceEvaluated(q, s), sources) + if TriesSeason(q) then [SeasonEvaluated(q, sources)] else []
  }

  /** The decision on a request. */
  ghost function Evaluated(q: Request): Decision {
    match InvalidManifest(q)
    case Some(reason) => Refusal(reason, BaseEvidence(q))
    case None =>
      if Present(q) then
        Decision(AlreadyThere, None, AlreadyPresent, [], [], 0, RequiredBytes(q), 0, false, BaseEvidence(q))
      else if InputOverBudget(q) then Refusal(MatcherBudgetExceeded, BaseEvidence(q))
      else Conclude(q, Evaluations(q, SortedSources(q)))
  }
}
