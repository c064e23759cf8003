/** Torrent and source files, the matching policy, and the rules on paths that classify and score
    a pair of files. Title normalisation and episode parsing are parameters. */
module Files {
  import opened Wrappers
  import opened Numbers

  const U64_LIMIT: int := U64_MAX + 1

  type U64 = x: int | 0 <= x < U64_LIMIT

  datatype TorrentFile = TorrentFile(ordinal: nat, path: string, size: U64, padding: bool)

  datatype SourceFile = SourceFile(id: nat, path: string, size: U64)

  type SourceId = nat

  datatype EpisodeKey = Season(season: nat, episode: nat) | Date(day: nat) | Absolute(number: nat)

  /** Release-name parsing and Unicode composition, as far as a decision depends on them. */
  datatype Names = Names(normalize: string -> string, episodeKeys: string -> seq<EpisodeKey>, compose: string -> string)

  datatype Policy = Policy(
    allowFlexible: bool,
    allowPartial: bool,
    allowSeasonFromEpisodes: bool,
    primaryVideoExtensions: seq<string>,
    optionalExtensions: seq<string>,
    optionalPathComponents: seq<string>,
    maxAssignmentFiles: nat,
    maxCandidateEdges: nat,
    maxAssignmentComponentFiles: nat,
    maxAssignmentOperations: nat)

  const DEFAULT_MAX_FILES := 4096
  const DEFAULT_MAX_EDGES := 100000
  const DEFAULT_MAX_COMPONENT_FILES := 128
  const DEFAULT_MAX_OPERATIONS := 50000000

  // ----- Paths -----

  function LowerChar(c: char): char {
    if 'A' <= c <= 'Z' then ((c as int) + 32) as char else c
  }

  function LowerAscii(s: string): string {
    seq(|s|, i requires 0 <= i < |s| => LowerChar(s[i]))
  }

  predicate EqualIgnoringCase(a: string, b: string) {
    LowerAscii(a) == LowerAscii(b)
  }

  /** Where the last occurrence of c is. */
  function LastIndex(s: string, c: char): (i: Option<nat>)
    ensures i.Some? ==> i.value < |s| && s[i.value] == c
  {
    if |s| == 0 then None
    else if s[|s| - 1] == c then Some(|s| - 1)
    else LastIndex(s[..|s| - 1], c)
  }

  function Basename(path: string): string {
    match LastIndex(path, '/')
    case Some(i) => path[i + 1..]
    case None => path
  }

  function ParentBasename(path: string): Option<string> {
    match LastIndex(path, '/')
    case Some(i) => Some(Basename(path[..i]))
    case None => None
  }

  function Extension(path: string): Option<string> {
    var name := Basename(path);
    match LastIndex(name, '.')
    case Some(i) => Some(name[i + 1..])
    case None => None
  }

  function Stem(name: string): string {
    match LastIndex(name, '.')
    case Some(i) => name[..i]
    case None => name
  }

  predicate StartsWith(s: string, prefix: string) {
    prefix <= s
  }

  predicate Contains(s: string, part: string) {
    StartsWith(s, part) || (|s| > 0 && Contains(s[1..], part))
  }

  function PathParts(path: string): seq<string> {
    match LastIndex(path, '/')
    case Some(i) => PathParts(path[..i]) + [path[i + 1..]]
    case None => [path]
  }

  predicate ListedExtension(path: string, listed: seq<string>) {
    match Extension(path)
    case Some(e) => exists i :: 0 <= i < |listed| && EqualIgnoringCase(listed[i], e)
    case None => false
  }

  predicate PrimaryPath(path: string, policy: Policy) {
    var lower := LowerAscii(path);
    || StartsWith(lower, "bdmv/") || Contains(lower, "/bdmv/")
    || StartsWith(lower, "video_ts/") || Contains(lower, "/video_ts/")
    || ListedExtension(path, policy.primaryVideoExtensions)
  }

  predicate OptionalPath(path: string, policy: Policy) {
    || EqualIgnoringCase(Stem(Basename(path)), "sample")
    || ListedExtension(path, policy.optionalExtensions)
    || var parts := PathParts(path);
       exists i, j :: 0 <= i < |parts| && 0 <= j < |policy.optionalPathComponents|
                   && EqualIgnoringCase(policy.optionalPathComponents[j], parts[i])
  }

  predicate Required(file: TorrentFile, policy: Policy) {
    !file.padding && !OptionalPath(file.path, policy)
  }

  predicate Primary(file: TorrentFile, policy: Policy) {
    Required(file, policy) && PrimaryPath(file.path, policy)
  }

  // ----- Scores -----

  const SCORE_EXACT_PATH := 1000000
  const SCORE_EXACT_BASENAME := 100000
  const SCORE_EPISODE := 10000
  const SCORE_PRIMARY_EXTENSION := 1000
  const SCORE_NORMALIZED_BASENAME := 100
  const SCORE_DIRECTORY := 10
  const SCORE_ROLE := 1
  const MAX_SCORE := 1111111

  function Points(held: bool, score: nat): nat {
    if held then score else 0
  }

  predicate EpisodesAgree(names: Names, candidate: string, source: string) {
    var a, b := names.episodeKeys(candidate), names.episodeKeys(source);
    exists i :: 0 <= i < |a| && a[i] in b
  }

  /** How well a source file stands for a candidate file, or None when it cannot. */
  function EdgeScore(names: Names, candidate: TorrentFile, source: SourceFile, policy: Policy, seasonMode: bool): (score: Option<nat>)
    ensures score.Some? ==> 1 <= score.value <= MAX_SCORE && candidate.size == source.size
  {
    var primary := Primary(candidate, policy);
    var episode := EpisodesAgree(names, candidate.path, source.path);
    var keyed := |names.episodeKeys(candidate.path)| > 0 && |names.episodeKeys(source.path)| > 0;
    if candidate.size != source.size then None
    else if primary != PrimaryPath(source.path, policy) then None
    else if !primary && Extension(candidate.path) != Extension(source.path) then None
    else if keyed && !episode then None
    else if seasonMode && primary && !episode then None
    else
      var mine, theirs := Basename(candidate.path), Basename(source.path);
      var myParent, theirParent := ParentBasename(candidate.path), ParentBasename(source.path);
      var directory := myParent.Some? && theirParent.Some?
                       && names.normalize(myParent.value) == names.normalize(theirParent.value);
      Some(SCORE_ROLE
           + Points(candidate.path == source.path, SCORE_EXACT_PATH)
           + Points(mine == theirs, SCORE_EXACT_BASENAME)
           + Points(episode, SCORE_EPISODE)
           + Points(primary && Extension(candidate.path) == Extension(source.path), SCORE_PRIMARY_EXTENSION)
           + Points(names.normalize(Stem(mine)) == names.normalize(Stem(theirs)), SCORE_NORMALIZED_BASENAME)
           + Points(directory, SCORE_DIRECTORY))
  }

  // ----- Buckets -----

  /** Primary files share a bucket by size; others by size and lower-cased extension. */
  datatype BucketKey = BucketKey(size: U64, primary: bool, extension: Option<string>)

  function Bucket(size: U64, path: string, primary: bool): BucketKey {
    BucketKey(size, primary,
              if primary then None
              else Some(LowerAscii(match Extension(path) case Some(e) => e case None => "")))
  }

  function CandidateBucket(file: TorrentFile, policy: Policy): BucketKey {
    Bucket(file.size, file.path, Primary(file, policy))
  }

  function SourceBucket(file: SourceFile, policy: Policy): BucketKey {
    Bucket(file.size, file.path, PrimaryPath(file.path, policy))
  }

  /** A pair that scores shares a bucket, whatever the letter case of its extensions: looking only
      inside the candidate's bucket loses no edge. */
  lemma ScoredPairSharesBucket(names: Names, candidate: TorrentFile, source: SourceFile, policy: Policy, seasonMode: bool)
    requires EdgeScore(names, candidate, source, policy, seasonMode).Some?
    ensures CandidateBucket(candidate, policy) == SourceBucket(source, policy)
  {
  }
}
