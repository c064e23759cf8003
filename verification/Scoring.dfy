/** What the scores of file pairs mean. */
module Scoring {
  import opened Wrappers
  import opened Files

  // ----- When two files score -----

  ghost predicate ShareKey(names: Names, a: string, b: string) {
    exists key :: key in names.episodeKeys(a) && key in names.episodeKeys(b)
  }

  /** Files of one size and one role, with one extension unless they are the videos; an episode only for that
      episode when both name one, and in a season the videos only by a common episode. */
  ghost predicate Pairable(names: Names, candidate: TorrentFile, source: SourceFile, policy: Policy, seasonMode: bool) {
    && candidate.size == source.size
    && (Primary(candidate, policy) <==> PrimaryPath(source.path, policy))
    && (Primary(candidate, policy) || Extension(candidate.path) == Extension(source.path))
    && (names.episodeKeys(candidate.path) == [] || names.episodeKeys(source.path) == [] || ShareKey(names, candidate.path, source.path))
    && (seasonMode && Primary(candidate, policy) ==> ShareKey(names, candidate.path, source.path))
  }

  ghost predicate SameTitle(names: Names, a: string, b: string) {
    names.normalize(Stem(Basename(a))) == names.normalize(Stem(Basename(b)))
  }

  ghost predicate SameDirectory(names: Names, a: string, b: string) {
    ParentBasename(a).Some? && ParentBasename(b).Some? && names.normalize(ParentBasename(a).value) == names.normalize(ParentBasename(b).value)
  }

  /** What a pair agrees on, the strongest agreement first: path, name, episode, the extension of a video, title, directory. */
  ghost function Agreements(names: Names, candidate: TorrentFile, source: SourceFile, policy: Policy): (held: seq<bool>)
    ensures |held| == 6
  {
    [candidate.path == source.path,
     Basename(candidate.path) == Basename(source.path),
     ShareKey(names, candidate.path, source.path),
     Primary(candidate, policy) && Extension(candidate.path) == Extension(source.path),
     SameTitle(names, candidate.path, source.path),
     SameDirectory(names, candidate.path, source.path)]
  }

  function Bit(b: bool): nat {
    if b then 1 else 0
  }

  /** The agreements as decimal digits, and a last digit for the common role. */
  function Worth(held: seq<bool>): nat
    requires |held| == 6
  {
    1000000 * Bit(held[0]) + 100000 * Bit(held[1]) + 10000 * Bit(held[2]) + 1000 * Bit(held[3]) + 100 * Bit(held[4]) + 10 * Bit(held[5]) + 1
  }

  /** The strongest agreement on which two pairs differ decides which scores more. */
  lemma StrongerAgreementWins(a: seq<bool>, b: seq<bool>, k: nat)
    requires |a| == |b| == 6 && k < 6 && a[..k] == b[..k] && a[k] && !b[k]
    ensures Worth(a) > Worth(b)
  {
    assert forall i :: 0 <= i < k ==> a[i] == a[..k][i] == b[..k][i] == b[i];
  }

  lemma AgreeIsShare(names: Names, a: string, b: string)
    ensures EpisodesAgree(names, a, b) <==> ShareKey(names, a, b)
  {
    if ShareKey(names, a, b) {
      var key :| key in names.episodeKeys(a) && key in names.episodeKeys(b);
      var i :| 0 <= i < |names.episodeKeys(a)| && names.episodeKeys(a)[i] == key;
    }
  }

  /** Two files score exactly when they are pairable. */
  lemma ScoresWhenPairable(names: Names, candidate: TorrentFile, source: SourceFile, policy: Policy, seasonMode: bool)
    ensures EdgeScore(names, candidate, source, policy, seasonMode).Some? <==> Pairable(names, candidate, source, policy, seasonMode)
  {
    hide Primary, PrimaryPath, Extension, Basename, ParentBasename, Stem, EpisodesAgree, ShareKey;
    AgreeIsShare(names, candidate.path, source.path);
  }

  /** A pair that scores is worth what it agrees on. */
  lemma ScoreTellsAgreements(names: Names, candidate: TorrentFile, source: SourceFile, policy: Policy, seasonMode: bool)
    requires EdgeScore(names, candidate, source, policy, seasonMode).Some?
    ensures EdgeScore(names, candidate, source, policy, seasonMode) == Some(Worth(Agreements(names, candidate, source, policy)))
  {
    hide Primary, PrimaryPath, Extension, Basename, ParentBasename, Stem, EpisodesAgree, ShareKey;
    AgreeIsShare(names, candidate.path, source.path);
  }
}
