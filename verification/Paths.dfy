/** What the parts of a path are, and which paths are videos, optional or unsafe. */
module Paths {
  import opened Wrappers
  import opened Files
  import opened Decision

  // ----- Names and extensions -----

  /** The last component, what is before it, and its extension are what the path is made of. */
  lemma PathIsBasename(path: string)
    ensures '/' !in Basename(path)
    ensures '/' !in path ==> Basename(path) == path && ParentBasename(path) == None
    ensures '/' in path ==> exists parent :: path == parent + "/" + Basename(path) && ParentBasename(path) == Some(Basename(parent))
  {
    LastIsLast(path, '/');
    if '/' in path {
      var i := LastIndex(path, '/').value;
      assert path == path[..i] + "/" + path[i + 1..];
    }
  }

  lemma NameIsStem(path: string)
    ensures var name := Basename(path);
      match Extension(path)
      case None => '.' !in name && Stem(name) == name
      case Some(e) => '.' !in e && name == Stem(name) + "." + e
  {
    var name := Basename(path);
    LastIsLast(name, '.');
    if '.' in name {
      var i := LastIndex(name, '.').value;
      assert name == name[..i] + "." + name[i + 1..];
    }
  }

  lemma LongerTail(s: string, k: nat, i: nat)
    requires i < k < |s|
    ensures s[..k + 1][i + 1..] == s[..k][i + 1..] + [s[k]]
  {
  }

  lemma {:induction false} LastIsLast(s: string, c: char)
    ensures LastIndex(s, c) == None <==> c !in s
    ensures LastIndex(s, c).Some? ==> c !in s[LastIndex(s, c).value + 1..]
  {
    if |s| > 0 {
      var k := |s| - 1;
      LastIsLast(s[..k], c);
      assert s == s[..k] + [s[k]] && s[..k + 1] == s;
      if s[k] != c && LastIndex(s[..k], c).Some? {
        var i := LastIndex(s[..k], c).value;
        LongerTail(s, k, i);
      }
    }
  }

  /** A letter, whatever its case: the capital and the small one. */
  predicate SameLetter(a: char, b: char) {
    a == b || ('A' <= a <= 'Z' && (b as int) == (a as int) + 32) || ('A' <= b <= 'Z' && (a as int) == (b as int) + 32)
  }

  lemma IgnoringCase(a: string, b: string)
    ensures EqualIgnoringCase(a, b) <==> |a| == |b| && forall i :: 0 <= i < |a| ==> SameLetter(a[i], b[i])
  {
    if |a| == |b| {
      forall i | 0 <= i < |a| ensures LowerAscii(a)[i] == LowerAscii(b)[i] <==> SameLetter(a[i], b[i]) {
      }
      if forall i :: 0 <= i < |a| ==> LowerAscii(a)[i] == LowerAscii(b)[i] {
        assert LowerAscii(a) == LowerAscii(b);
      }
    } else {
      assert |LowerAscii(a)| != |LowerAscii(b)|;
    }
  }

  /** The same letters, whatever their case. */
  ghost predicate SameLetters(a: string, b: string) {
    |a| == |b| && forall i :: 0 <= i < |a| ==> SameLetter(a[i], b[i])
  }

  // ----- Components -----

  function Joined(parts: seq<string>): string
    requires parts != []
  {
    if |parts| == 1 then parts[0] else Joined(parts[..|parts| - 1]) + "/" + parts[|parts| - 1]
  }

  /** The components are what is between the slashes. */
  lemma {:induction false} ComponentsMakePath(path: string)
    ensures PathParts(path) != [] && Joined(PathParts(path)) == path
    ensures forall part :: part in PathParts(path) ==> '/' !in part
    decreases |path|
  {
    LastIsLast(path, '/');
    match LastIndex(path, '/')
    case None =>
    case Some(i) =>
      ComponentsMakePath(path[..i]);
      var parts := PathParts(path);
      assert parts[..|parts| - 1] == PathParts(path[..i]);
      assert path == path[..i] + "/" + path[i + 1..];
  }

  /** d stands at k, between slashes or the ends of the path. */
  ghost predicate StandsAt(path: string, d: string, k: nat) {
    && k + |d| <= |path| && path[k..k + |d|] == d
    && (k == 0 || path[k - 1] == '/') && (k + |d| == |path| || path[k + |d|] == '/')
  }

  lemma {:induction false} ComponentsStand(path: string, d: string)
    requires '/' !in d
    ensures d in PathParts(path) <==> exists k: nat :: StandsAt(path, d, k)
    decreases |path|
  {
    LastIsLast(path, '/');
    match LastIndex(path, '/') {
      case None =>
        if path == d {
          assert StandsAt(path, d, 0);
        }
        forall k: nat | StandsAt(path, d, k) ensures path == d {
          assert forall j :: 0 <= j < |path| ==> path[j] in path;
        }
      case Some(i) =>
        ComponentsStand(path[..i], d);
        var name := path[i + 1..];
        forall k: nat ensures StandsAt(path, d, k) <==> StandsAt(path[..i], d, k) || (k == i + 1 && d == name) {
          StandsBeforeOrAfter(path, d, i, k);
        }
        if d == name {
          assert StandsAt(path, d, i + 1);
        }
        if k: nat :| StandsAt(path[..i], d, k) {
          assert StandsAt(path, d, k);
        }
    }
  }

  /** A component without a slash lies before the last slash or is what follows it. */
  lemma StandsBeforeOrAfter(path: string, d: string, i: nat, k: nat)
    requires '/' !in d && i < |path| && path[i] == '/' && '/' !in path[i + 1..]
    ensures StandsAt(path, d, k) <==> StandsAt(path[..i], d, k) || (k == i + 1 && d == path[i + 1..])
  {
    NoneAfter(path, i);
    NoneAfter("/" + d, 0);
    if StandsAt(path, d, k) {
      assert forall j :: k <= j < k + |d| ==> path[j] == path[k..k + |d|][j - k] == d[j - k] == ("/" + d)[j - k + 1];
      assert k + |d| <= i ==> path[..i][k..k + |d|] == path[k..k + |d|];
    }
    if StandsAt(path[..i], d, k) {
      assert path[..i][k..k + |d|] == path[k..k + |d|];
    }
    if k == i + 1 && d == path[i + 1..] {
      assert path[k..k + |d|] == d;
    }
  }

  lemma NoneAfter(path: string, i: nat)
    requires i < |path| && '/' !in path[i + 1..]
    ensures forall j :: i < j < |path| ==> path[j] != '/'
  {
    forall j | i < j < |path| ensures path[j] != '/' {
      assert path[j] == path[i + 1..][j - (i + 1)];
    }
  }

  lemma {:induction false} ContainsAt(s: string, part: string)
    ensures Contains(s, part) <==> exists k: nat :: k <= |s| && part <= s[k..]
    decreases |s|
  {
    if |s| > 0 {
      ContainsAt(s[1..], part);
      if k: nat :| k <= |s[1..]| && part <= s[1..][k..] {
        assert s[1..][k..] == s[k + 1..];
      }
      if k: nat :| k <= |s| && part <= s[k..] {
        if k > 0 {
          assert s[k..] == s[1..][k - 1..];
        } else {
          assert s[0..] == s;
        }
      }
      if StartsWith(s, part) {
        assert s[0..] == s;
      }
    } else {
      assert s[0..] == s;
    }
  }

  /** Somewhere in the path there is a directory d. */
  ghost predicate HasDirectory(path: string, d: string) {
    LastIndex(path, '/').Some? && d in PathParts(path[..LastIndex(path, '/').value])
  }

  lemma DirectoryIsInside(path: string, d: string)
    requires '/' !in d && d != ""
    ensures HasDirectory(path, d) <==> StartsWith(path, d + "/") || Contains(path, "/" + d + "/")
  {
    hide PathParts, Contains, StandsAt, LastIndex;
    LastIsLast(path, '/');
    ContainsAt(path, "/" + d + "/");
    SlashInside(path, d);
    if '/' in path {
      var i := LastIndex(path, '/').value;
      ComponentsStand(path[..i], d);
      if k: nat :| StandsAt(path[..i], d, k) {
        StandsInside(path, d, i, k);
      }
      if StartsWith(path, d + "/") {
        InsideStands(path, d, i, 0);
      }
      if k: nat :| k <= |path| && "/" + d + "/" <= path[k..] {
        SlashedInside(path, d, k);
        InsideStands(path, d, i, k + 1);
      }
    }
  }

  lemma SlashInside(path: string, d: string)
    ensures StartsWith(path, d + "/") || Contains(path, "/" + d + "/") ==> '/' in path
  {
    ContainsAt(path, "/" + d + "/");
    if StartsWith(path, d + "/") {
      assert path[|d|] == (d + "/")[|d|];
    } else if k: nat :| k <= |path| && "/" + d + "/" <= path[k..] {
      SlashedInside(path, d, k);
    }
  }

  lemma StandsInside(path: string, d: string, i: nat, k: nat)
    requires i < |path| && path[i] == '/' && StandsAt(path[..i], d, k)
    ensures k == 0 ==> StartsWith(path, d + "/")
    ensures k <= |path| && (k > 0 ==> "/" + d + "/" <= path[k - 1..])
  {
    assert path[k..k + |d|] == d && path[k + |d|] == '/';
    assert path[k..k + |d| + 1] == d + "/";
    if k > 0 {
      assert path[k - 1..k + |d| + 1] == "/" + d + "/";
      assert path[k - 1..][..|d| + 2] == path[k - 1..k + |d| + 1];
    } else {
      assert path[..|d| + 1] == path[k..k + |d| + 1];
    }
  }

  lemma SlashedInside(path: string, d: string, k: nat)
    requires k <= |path| && "/" + d + "/" <= path[k..]
    ensures k + 1 + |d| < |path| && path[k] == '/' && path[k + 1..k + 1 + |d|] == d && path[k + 1 + |d|] == '/'
  {
    var part := "/" + d + "/";
    assert path[k..][..|part|] == part;
    assert forall j :: 0 <= j < |part| ==> path[k + j] == path[k..][j] == part[j];
  }

  lemma InsideStands(path: string, d: string, i: nat, k: nat)
    requires i < |path| && path[i] == '/' && '/' !in path[i + 1..]
    requires k + |d| < |path| && path[k..k + |d|] == d && path[k + |d|] == '/' && (k == 0 || path[k - 1] == '/')
    ensures StandsAt(path[..i], d, k)
  {
    NoneAfter(path, i);
    assert path[..i][k..k + |d|] == path[k..k + |d|];
  }

  // ----- Roles -----

  lemma ListedMeans(path: string, listed: seq<string>)
    ensures ListedExtension(path, listed) <==>
              Extension(path).Some? && exists e :: e in listed && SameLetters(e, Extension(path).value)
  {
    hide Extension, EqualIgnoringCase;
    if Extension(path).Some? {
      var mine := Extension(path).value;
      forall e ensures EqualIgnoringCase(e, mine) <==> SameLetters(e, mine) {
        IgnoringCase(e, mine);
      }
      if i :| 0 <= i < |listed| && EqualIgnoringCase(listed[i], mine) {
        assert listed[i] in listed;
      }
      if e :| e in listed && SameLetters(e, mine) {
        var i :| 0 <= i < |listed| && listed[i] == e;
      }
    }
  }

  /** A video is told by its extension or by lying in a disc directory, letters counting alike in either case. */
  lemma PrimaryPathMeans(path: string, policy: Policy)
    ensures PrimaryPath(path, policy) <==>
              || HasDirectory(LowerAscii(path), "bdmv") || HasDirectory(LowerAscii(path), "video_ts")
              || (Extension(path).Some? && exists e :: e in policy.primaryVideoExtensions && SameLetters(e, Extension(path).value))
  {
    DirectoryIsInside(LowerAscii(path), "bdmv");
    DirectoryIsInside(LowerAscii(path), "video_ts");
    ListedMeans(path, policy.primaryVideoExtensions);
    assert "bdmv" + "/" == "bdmv/" && "/" + "bdmv" + "/" == "/bdmv/";
    assert "video_ts" + "/" == "video_ts/" && "/" + "video_ts" + "/" == "/video_ts/";
    hide HasDirectory, ListedExtension, Extension, SameLetters, StartsWith, Contains, LowerAscii;
  }

  /** An optional file is called sample, or has an extension or lies under a component that is listed. */
  lemma OptionalPathMeans(path: string, policy: Policy)
    ensures OptionalPath(path, policy) <==>
              || SameLetters(Stem(Basename(path)), "sample")
              || (Extension(path).Some? && exists e :: e in policy.optionalExtensions && SameLetters(e, Extension(path).value))
              || (exists c, d :: c in policy.optionalPathComponents && d in PathParts(path) && SameLetters(c, d))
  {
    hide Extension, EqualIgnoringCase, Stem, Basename, PathParts;
    ListedMeans(path, policy.optionalExtensions);
    IgnoringCase(Stem(Basename(path)), "sample");
    var parts, listed := PathParts(path), policy.optionalPathComponents;
    forall c, d ensures EqualIgnoringCase(c, d) <==> SameLetters(c, d) {
      IgnoringCase(c, d);
    }
    if i, j :| 0 <= i < |parts| && 0 <= j < |listed| && EqualIgnoringCase(listed[j], parts[i]) {
      assert listed[j] in listed && parts[i] in parts;
    }
    if c, d :| c in listed && d in parts && SameLetters(c, d) {
      var i :| 0 <= i < |parts| && parts[i] == d;
      var j :| 0 <= j < |listed| && listed[j] == c;
    }
  }

  /** A video is a file that is no padding, not optional, and at a video path. */
  lemma RolesMean(file: TorrentFile, policy: Policy)
    ensures Required(file, policy) <==> !file.padding && !OptionalPath(file.path, policy)
    ensures Primary(file, policy) ==> Required(file, policy)
    ensures Required(file, policy) ==> (Primary(file, policy) <==> PrimaryPath(file.path, policy))
  {
    hide OptionalPath, PrimaryPath;
  }

  // ----- Safety -----

  /** Each component, composed or not, names something below the directory it is in. */
  ghost predicate AllBelow(names: Names, parts: seq<string>) {
    forall part :: part in parts ==> part != "" && part != "." && part != ".." && names.compose(part) != "." && names.compose(part) != ".."
  }

  /** A path is accepted when it is relative, has no drive, no backslash and no NUL, and never leaves its directory. */
  lemma SafePathStaysBelow(names: Names, path: string)
    ensures !UnsafePath(names, path) <==>
              && path != "" && '\\' !in path && '\0' !in path
              && !(|path| > 1 && path[0] < (128 as char) && path[1] == ':')
              && AllBelow(names, PathParts(path))
  {
    UnsafeComponents(names, PathParts(path));
    if path != "" && path[0] == '/' {
      FirstComponentEmpty(path);
      assert !AllBelow(names, PathParts(path));
    }
    hide PathParts, UnsafeComponent, AllBelow;
  }

  lemma UnsafeComponents(names: Names, parts: seq<string>)
    ensures (exists i :: 0 <= i < |parts| && UnsafeComponent(names, parts[i])) <==> !AllBelow(names, parts)
  {
    if i :| 0 <= i < |parts| && UnsafeComponent(names, parts[i]) {
      assert parts[i] in parts;
    }
    if part :| part in parts && UnsafeComponent(names, part) {
      var i :| 0 <= i < |parts| && parts[i] == part;
    }
  }

  lemma {:induction false} FirstComponentEmpty(path: string)
    requires path != "" && path[0] == '/'
    ensures "" in PathParts(path)
    decreases |path|
  {
    LastIsLast(path, '/');
    var i := LastIndex(path, '/').value;
    if i == 0 {
      assert path[..i] == "";
      assert PathParts("") == [""];
      assert PathParts(path) == PathParts(path[..i]) + [path[i + 1..]];
      assert PathParts(path)[0] == "";
    } else {
      FirstComponentEmpty(path[..i]);
    }
  }
}
