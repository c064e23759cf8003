/** The scan of a data root: directories listed page by page behind a name cursor, and the worklist
    of directories still to be listed. */
module DirectoryScan {
  import opened Wrappers
  import opened Sorting

  const PAGE_SIZE: nat := 100

  /** File names are byte strings, compared byte by byte. */
  type Name = seq<nat>

  predicate Less(a: Name, b: Name) {
    if b == [] then false
    else if a == [] then true
    else if a[0] != b[0] then a[0] < b[0]
    else Less(a[1..], b[1..])
  }

  lemma {:induction false} LessIsOrder(a: Name, b: Name, c: Name)
    ensures !Less(a, a)
    ensures a == b || Less(a, b) || Less(b, a)
    ensures !(Less(a, b) && Less(b, a))
    ensures Less(a, b) && Less(b, c) ==> Less(a, c)
    decreases |a| + |b| + |c|
  {
    if a != [] {
      if b != [] && c != [] {
        LessIsOrder(a[1..], b[1..], c[1..]);
      } else if b != [] {
        LessIsOrder(a[1..], b[1..], c);
      } else {
        LessIsOrder(a[1..], b, c);
      }
      assert a == [a[0]] + a[1..];
      assert b != [] ==> b == [b[0]] + b[1..];
    }
  }

  lemma SharedFirst(a: Name, b: Name)
    ensures forall k: nat :: 0 < k <= |a| && k < |b| && a[..k] == b[..k] ==> a[0] == b[0]
  {
    forall k: nat | 0 < k <= |a| && k < |b| && a[..k] == b[..k] ensures a[0] == b[0] {
      assert a[..k][0] == b[..k][0];
    }
  }

  /** Names are ordered by their first difference, a prefix before what continues it. */
  lemma {:induction false} LessMeans(a: Name, b: Name)
    ensures Less(a, b) <==> exists k: nat :: k <= |a| && k < |b| && a[..k] == b[..k] && (k == |a| || a[k] < b[k])
    decreases |a|
  {
    if b != [] && a != [] && a[0] == b[0] {
      LessMeans(a[1..], b[1..]);
      if k: nat :| k <= |a[1..]| && k < |b[1..]| && a[1..][..k] == b[1..][..k] && (k == |a[1..]| || a[1..][k] < b[1..][k]) {
        assert a[..k + 1] == [a[0]] + a[1..][..k] && b[..k + 1] == [b[0]] + b[1..][..k];
      }
      if k: nat :| k <= |a| && k < |b| && a[..k] == b[..k] && (k == |a| || a[k] < b[k]) {
        assert k > 0;
        assert a[1..][..k - 1] == a[..k][1..] && b[1..][..k - 1] == b[..k][1..];
      }
    } else if b != [] {
      assert a[..0] == b[..0];
      SharedFirst(a, b);
    }
  }

  // ----- One page -----

  predicate Beyond(cursor: Option<Name>, name: Name) {
    cursor == None || Less(cursor.value, name)
  }

  ghost predicate Rising(names: seq<Name>) {
    forall i, j :: 0 <= i < j < |names| ==> Less(names[i], names[j])
  }

  /** Selected are the smallest of the names beyond the cursor; more are left exactly when a name
      beyond the cursor was not selected. */
  ghost predicate IsPage(names: set<Name>, cursor: Option<Name>, limit: nat, selected: seq<Name>, more: bool) {
    && Rising(selected) && |selected| <= limit
    && (forall x :: x in selected ==> x in names && Beyond(cursor, x))
    && (forall x, y :: x in names && Beyond(cursor, x) && x !in selected && y in selected ==> Less(y, x))
    && (more ==> |selected| == limit && exists x :: x in names && Beyond(cursor, x) && x !in selected)
    && (!more ==> forall x :: x in names && Beyond(cursor, x) ==> x in selected)
  }

  function InsertName(s: seq<Name>, x: Name): seq<Name> {
    if s == [] || Less(x, s[0]) then [x] + s else [s[0]] + InsertName(s[1..], x)
  }

  lemma {:induction false} InsertRises(s: seq<Name>, x: Name)
    requires Rising(s) && x !in s
    ensures Rising(InsertName(s, x)) && |InsertName(s, x)| == |s| + 1
    ensures forall y :: y in InsertName(s, x) <==> y in s || y == x
  {
    if s == [] {
    } else if Less(x, s[0]) {
      forall j | 0 <= j < |s| ensures Less(x, s[j]) {
        LessIsOrder(x, s[0], s[j]);
      }
    } else {
      LessIsOrder(x, s[0], s[0]);
      assert forall i, j :: 0 <= i < j < |s[1..]| ==> Less(s[1..][i], s[1..][j]) by {
        assert forall i :: 0 <= i < |s[1..]| ==> s[1..][i] == s[i + 1];
      }
      InsertRises(s[1..], x);
      var rest := InsertName(s[1..], x);
      forall j | 0 <= j < |rest| ensures Less(s[0], rest[j]) {
        assert rest[j] in rest;
        if rest[j] != x {
          var k :| 0 <= k < |s[1..]| && s[1..][k] == rest[j];
          assert s[k + 1] == rest[j];
        }
      }
    }
  }

  lemma SelectMore(names: set<Name>, cursor: Option<Name>, limit: nat, selected: seq<Name>, more: bool, x: Name)
    requires IsPage(names, cursor, limit, selected, more) && x !in names && Beyond(cursor, x) && |selected| < limit
    ensures IsPage(names + {x}, cursor, limit, InsertName(selected, x), more)
  {
    hide Less, Beyond, InsertName;
    InsertRises(selected, x);
  }

  lemma LastOrBefore(s: seq<Name>, z: Name)
    requires z in s
    ensures z in s[..|s| - 1] || z == s[|s| - 1]
  {
    var i :| 0 <= i < |s| && s[i] == z;
    assert i < |s| - 1 ==> s[..|s| - 1][i] == z;
  }

  lemma DropLargest(names: set<Name>, cursor: Option<Name>, limit: nat, selected: seq<Name>, more: bool, x: Name)
    requires IsPage(names, cursor, limit, selected, more) && x !in names && Beyond(cursor, x) && |selected| == limit
    ensures |InsertName(selected, x)| == limit + 1 && IsPage(names + {x}, cursor, limit, InsertName(selected, x)[..limit], true)
  {
    hide Less, Beyond, InsertName;
    InsertRises(selected, x);
    var grown := InsertName(selected, x);
    var kept, dropped := grown[..limit], grown[limit];
    assert dropped in grown;
    forall y | y in kept ensures y in grown && Less(y, dropped) && y != dropped {
      var i :| 0 <= i < limit && kept[i] == y;
      assert grown[i] == y;
      LessIsOrder(y, dropped, dropped);
    }
    forall z, y | z in names + {x} && Beyond(cursor, z) && z !in kept && y in kept ensures Less(y, z) {
      if z in grown {
        LastOrBefore(grown, z);
      }
      LessIsOrder(y, dropped, z);
    }
  }

  /** Reads a directory in whatever order the filesystem yields and keeps the smallest names. */
  method ScanDirectory(entries: seq<Name>, cursor: Option<Name>, limit: nat) returns (selected: seq<Name>, more: bool)
    requires forall i, j :: 0 <= i < j < |entries| ==> entries[i] != entries[j]
    ensures IsPage(Names(entries), cursor, limit, selected, more)
  {
    selected, more := [], false;
    ghost var seen: set<Name> := {};
    for k := 0 to |entries|
      invariant IsPage(seen, cursor, limit, selected, more)
      invariant forall x :: x in seen <==> x in entries[..k]
    {
      var name := entries[k];
      assert name !in seen;
      assert entries[..k + 1] == entries[..k] + [name];
      if cursor.Some? && !Less(cursor.value, name) {
        SkipOne(seen, cursor, limit, selected, more, name);
      } else {
        if |selected| < limit {
          SelectMore(seen, cursor, limit, selected, more, name);
        } else {
          DropLargest(seen, cursor, limit, selected, more, name);
        }
        selected := InsertName(selected, name);
        if |selected| > limit {
          selected, more := selected[..|selected| - 1], true;
        }
      }
      seen := seen + {name};
    }
    assert seen == Names(entries);
  }

  lemma SkipOne(names: set<Name>, cursor: Option<Name>, limit: nat, selected: seq<Name>, more: bool, x: Name)
    requires IsPage(names, cursor, limit, selected, more) && !Beyond(cursor, x)
    ensures IsPage(names + {x}, cursor, limit, selected, more)
  {
    hide Less, Beyond;
    if more {
      var y :| y in names && Beyond(cursor, y) && y !in selected;
      assert y in names + {x};
    }
  }

  function Names(entries: seq<Name>): set<Name> {
    set x | x in entries
  }

  // ----- Following the cursor -----

  /** Everything up to the cursor has been listed, in order, and nothing else. */
  ghost predicate ListedUpTo(names: set<Name>, cursor: Option<Name>, listed: seq<Name>) {
    && Rising(listed)
    && (forall x :: x in listed <==> x in names && !Beyond(cursor, x))
  }

  lemma PageExtends(names: set<Name>, cursor: Option<Name>, limit: nat, selected: seq<Name>, more: bool, listed: seq<Name>)
    requires limit > 0 && IsPage(names, cursor, limit, selected, more) && ListedUpTo(names, cursor, listed)
    requires selected != []
    ensures ListedUpTo(names, Some(selected[|selected| - 1]), listed + selected)
  {
    hide Less;
    var last := selected[|selected| - 1];
    assert last in selected;
    forall i, j | 0 <= i < j < |listed + selected| ensures Less((listed + selected)[i], (listed + selected)[j]) {
      if i < |listed| <= j {
        var x, y := listed[i], selected[j - |listed|];
        assert x in listed && y in selected;
        if cursor.Some? {
          LessIsOrder(x, cursor.value, y);
        }
      }
    }
    forall x | x in listed + selected ensures x in names && !Less(last, x) {
      if x in listed {
        LessIsOrder(last, x, x);
        if cursor.Some? {
          LessIsOrder(x, cursor.value, last);
          LessIsOrder(cursor.value, last, x);
        }
      } else {
        var k :| 0 <= k < |selected| && selected[k] == x;
        LessIsOrder(last, x, x);
      }
    }
    forall x | x in names && x !in listed && x !in selected ensures Less(last, x) {
      assert Beyond(cursor, x);
    }
  }

  lemma ListingComplete(names: set<Name>, cursor: Option<Name>, limit: nat, selected: seq<Name>, listed: seq<Name>)
    requires IsPage(names, cursor, limit, selected, false) && ListedUpTo(names, cursor, listed)
    ensures Rising(listed + selected) && forall x :: x in listed + selected <==> x in names
  {
    hide Less;
    if selected != [] {
      PageExtends(names, cursor, limit, selected, false, listed);
    } else {
      assert listed + selected == listed;
    }
  }

  datatype Page = Page(selected: seq<Name>, more: bool)

  /** The pages that following the cursor yields: each begins behind the last name of the one
      before, and only the last reports that nothing is left. */
  ghost predicate Follows(names: set<Name>, cursor: Option<Name>, limit: nat, pages: seq<Page>)
    decreases |pages|
  {
    && pages != [] && IsPage(names, cursor, limit, pages[0].selected, pages[0].more)
    && (pages[0].more <==> |pages| > 1)
    && (pages[0].more ==> pages[0].selected != [] && Follows(names, Some(pages[0].selected[|pages[0].selected| - 1]), limit, pages[1..]))
  }

  function Joined(pages: seq<Page>): seq<Name> {
    if pages == [] then [] else pages[0].selected + Joined(pages[1..])
  }

  lemma {:induction false} FollowingLists(names: set<Name>, cursor: Option<Name>, limit: nat, pages: seq<Page>, listed: seq<Name>)
    requires limit > 0 && Follows(names, cursor, limit, pages) && ListedUpTo(names, cursor, listed)
    ensures Rising(listed + Joined(pages)) && forall x :: x in listed + Joined(pages) <==> x in names
    decreases |pages|
  {
    hide IsPage, ListedUpTo, Rising;
    var page := pages[0];
    if page.more {
      PageExtends(names, cursor, limit, page.selected, true, listed);
      FollowingLists(names, Some(page.selected[|page.selected| - 1]), limit, pages[1..], listed + page.selected);
      assert listed + Joined(pages) == listed + page.selected + Joined(pages[1..]);
    } else {
      ListingComplete(names, cursor, limit, page.selected, listed);
      assert pages[1..] == [] && Joined(pages) == page.selected;
    }
  }

  /** Following the cursor to the end lists every entry exactly once, in ascending order. */
  lemma CursorListsDirectory(names: set<Name>, limit: nat, pages: seq<Page>)
    requires limit > 0 && Follows(names, None, limit, pages)
    ensures Rising(Joined(pages)) && forall x :: x in Joined(pages) <==> x in names
  {
    FollowingLists(names, None, limit, pages, []);
    assert [] + Joined(pages) == Joined(pages);
  }

  // ----- The worklist -----

  type Path = seq<Name>

  /** What an entry turns out to be. `Failing` are entries whose inspection ends in an error: unreadable, or a
      release with too many, too deep or too large files. */
  datatype Kind = File | Release | Directory | Link | Failing

  datatype Dir = Dir(readable: bool, entries: seq<Name>, kinds: map<Name, Kind>)

  type Tree = map<Path, Dir>

  datatype Progress = Queued | Running(cursor: Name) | Done

  datatype Row = Row(depth: nat, progress: Progress)

  type Table = map<Path, Row>

  /** Entries have distinct names and known kinds, and directories are in the tree. */
  ghost predicate WellFormed(tree: Tree) {
    && [] in tree
    && (forall p :: p in tree ==> forall i, j :: 0 <= i < j < |tree[p].entries| ==> tree[p].entries[i] != tree[p].entries[j])
    && (forall p :: p in tree ==> forall n :: n in tree[p].entries <==> n in tree[p].kinds)
    && (forall p, n :: p in tree && n in tree[p].kinds && tree[p].kinds[n] == Directory ==> p + [n] in tree)
  }

  /** A directory the scan is to enter: no release, reached through such directories, not too deep. */
  ghost predicate Reachable(tree: Tree, maxDepth: nat, p: Path) {
    || p == []
    || var parent, name := p[..|p| - 1], p[|p| - 1];
       && Reachable(tree, maxDepth, parent) && |parent| < maxDepth
       && parent in tree && name in tree[parent].kinds && tree[parent].kinds[name] == Directory
  }

  predicate Enters(tree: Tree, maxDepth: nat, p: Path, name: Name) {
    p in tree && name in tree[p].kinds && tree[p].kinds[name] == Directory && |p| < maxDepth
  }

  /** Queues the directories among some entries of p; one that is already known is left alone. */
  function QueueChildren(tree: Tree, maxDepth: nat, table: Table, p: Path, names: seq<Name>): Table {
    if names == [] then table
    else
      var before := QueueChildren(tree, maxDepth, table, p, names[..|names| - 1]);
      var name := names[|names| - 1];
      if Enters(tree, maxDepth, p, name) && p + [name] !in before then before[p + [name] := Row(|p| + 1, Queued)] else before
  }

  lemma {:induction false} ChildrenQueued(tree: Tree, maxDepth: nat, table: Table, p: Path, names: seq<Name>)
    ensures var queued := QueueChildren(tree, maxDepth, table, p, names);
      && (forall x :: x in table ==> x in queued && queued[x] == table[x])
      && (forall n :: n in names && Enters(tree, maxDepth, p, n) ==> p + [n] in queued)
      && (forall x :: x in queued && x !in table ==>
            queued[x] == Row(|p| + 1, Queued) && exists n :: n in names && Enters(tree, maxDepth, p, n) && x == p + [n])
  {
    hide Enters;
    if names != [] {
      var k := |names| - 1;
      ChildrenQueued(tree, maxDepth, table, p, names[..k]);
      assert names == names[..k] + [names[k]];
    }
  }

  predicate Processed(progress: Progress, name: Name) {
    match progress
    case Queued => false
    case Running(cursor) => !Less(cursor, name)
    case Done => true
  }

  function CursorOf(progress: Progress): Option<Name> {
    if progress.Running? then Some(progress.cursor) else None
  }

  /** What the table says has been handled is what was handled, once each; the directories found on
      the way are in the table, and nothing else is. */
  ghost predicate Tracks(tree: Tree, maxDepth: nat, table: Table, handled: seq<(Path, Name)>) {
    && [] in table
    && (forall p :: p in table ==> Reachable(tree, maxDepth, p) && p in tree && table[p].depth == |p|)
    && NoRepeats(handled)
    && (forall p, n :: (p, n) in handled <==> p in table && n in tree[p].kinds && Processed(table[p].progress, n))
    && (forall p, n :: (p, n) in handled && Enters(tree, maxDepth, p, n) ==> p + [n] in table)
  }

  function Entries(p: Path, names: seq<Name>): seq<(Path, Name)> {
    seq(|names|, i requires 0 <= i < |names| => (p, names[i]))
  }

  /** The state of a directory after one of its pages. */
  function After(selected: seq<Name>, more: bool): Progress
    requires more ==> selected != []
  {
    if more then Running(selected[|selected| - 1]) else Done
  }

  /** A page handles exactly the entries that the directory's new state adds. */
  lemma PageProcesses(names: set<Name>, progress: Progress, limit: nat, selected: seq<Name>, more: bool, n: Name)
    requires limit > 0 && progress != Done && IsPage(names, CursorOf(progress), limit, selected, more) && n in names
    ensures more ==> selected != []
    ensures Processed(After(selected, more), n) <==> Processed(progress, n) || n in selected
    ensures n in selected ==> !Processed(progress, n)
  {
    if more {
      var last := selected[|selected| - 1];
      assert last in selected;
      LessIsOrder(last, n, n);
      if n in selected {
        var k :| 0 <= k < |selected| && selected[k] == n;
        assert k < |selected| - 1 ==> Less(n, last);
      }
      if progress.Running? {
        LessIsOrder(n, progress.cursor, last);
        LessIsOrder(progress.cursor, last, n);
        LessIsOrder(progress.cursor, n, n);
      }
    }
  }

  function AfterPage(tree: Tree, maxDepth: nat, table: Table, p: Path, selected: seq<Name>, more: bool): Table
    requires p in table && (more ==> selected != [])
  {
    QueueChildren(tree, maxDepth, table, p, selected)[p := Row(table[p].depth, After(selected, more))]
  }

  /** The hypothesis of one step of the scan: a page of an unfinished directory. */
  ghost predicate Steps(tree: Tree, maxDepth: nat, table: Table, handled: seq<(Path, Name)>, p: Path, selected: seq<Name>, more: bool) {
    && WellFormed(tree) && Tracks(tree, maxDepth, table, handled) && p in table && table[p].progress != Done
    && IsPage(Names(tree[p].entries), CursorOf(table[p].progress), PAGE_SIZE, selected, more) && (more ==> selected != [])
  }

  lemma ChildReachable(tree: Tree, maxDepth: nat, p: Path, n: Name)
    requires WellFormed(tree) && Reachable(tree, maxDepth, p) && Enters(tree, maxDepth, p, n)
    ensures Reachable(tree, maxDepth, p + [n]) && p + [n] in tree && |p + [n]| == |p| + 1
  {
    assert (p + [n])[..|p|] == p;
  }

  lemma StepKeepsPaths(tree: Tree, maxDepth: nat, table: Table, handled: seq<(Path, Name)>, p: Path, selected: seq<Name>, more: bool)
    requires Steps(tree, maxDepth, table, handled, p, selected, more)
    ensures var table' := AfterPage(tree, maxDepth, table, p, selected, more);
      [] in table' && forall x :: x in table' ==> Reachable(tree, maxDepth, x) && x in tree && table'[x].depth == |x|
  {
    hide IsPage, Processed, Enters, QueueChildren, WellFormed, Reachable;
    ChildrenQueued(tree, maxDepth, table, p, selected);
    var table' := AfterPage(tree, maxDepth, table, p, selected, more);
    forall x | x in table' ensures Reachable(tree, maxDepth, x) && x in tree && table'[x].depth == |x| {
      if x !in table {
        var n :| n in selected && Enters(tree, maxDepth, p, n) && x == p + [n];
        ChildReachable(tree, maxDepth, p, n);
      }
    }
  }

  lemma EntryNames(tree: Tree, p: Path, n: Name)
    requires WellFormed(tree) && p in tree
    ensures n in Names(tree[p].entries) <==> n in tree[p].kinds
  {
  }

  lemma EntriesMembers(p: Path, names: seq<Name>, q: Path, n: Name)
    ensures (q, n) in Entries(p, names) <==> q == p && n in names
  {
    if q == p && n in names {
      var i :| 0 <= i < |names| && names[i] == n;
      assert Entries(p, names)[i] == (q, n);
    }
  }

  lemma StepHandlesOnce(tree: Tree, maxDepth: nat, table: Table, handled: seq<(Path, Name)>, p: Path, selected: seq<Name>, more: bool)
    requires Steps(tree, maxDepth, table, handled, p, selected, more)
    ensures NoRepeats(handled + Entries(p, selected))
  {
    var names, progress := Names(tree[p].entries), table[p].progress;
    assert Rising(selected) && forall x :: x in selected ==> x in names;
    var added := Entries(p, selected);
    forall j | 0 <= j < |added| ensures added[j] !in handled {
      assert selected[j] in selected;
      PageProcesses(names, progress, PAGE_SIZE, selected, more, selected[j]);
    }
    hide IsPage, Processed, WellFormed, Reachable, Tracks, Less;
    forall i, j | 0 <= i < j < |added| ensures added[i] != added[j] {
      LessIsOrder(selected[i], selected[j], selected[j]);
    }
    assert NoRepeats(handled) by {
      OnceBefore(tree, maxDepth, table, handled);
    }
  }

  lemma OnceBefore(tree: Tree, maxDepth: nat, table: Table, handled: seq<(Path, Name)>)
    requires Tracks(tree, maxDepth, table, handled)
    ensures NoRepeats(handled)
  {
  }

  lemma StepHandles(tree: Tree, maxDepth: nat, table: Table, handled: seq<(Path, Name)>, p: Path, selected: seq<Name>, more: bool, q: Path, n: Name)
    requires Steps(tree, maxDepth, table, handled, p, selected, more)
    ensures var table' := AfterPage(tree, maxDepth, table, p, selected, more);
      && ((q, n) in handled + Entries(p, selected) <==> q in table' && q in tree && n in tree[q].kinds && Processed(table'[q].progress, n))
      && ((q, n) in handled + Entries(p, selected) && Enters(tree, maxDepth, q, n) ==> q + [n] in table')
  {
    ChildrenQueued(tree, maxDepth, table, p, selected);
    EntriesMembers(p, selected, q, n);
    EntryNames(tree, p, n);
    assert n in selected ==> n in Names(tree[p].entries);
    if n in tree[p].kinds {
      PageProcesses(Names(tree[p].entries), table[p].progress, PAGE_SIZE, selected, more, n);
    }
    hide IsPage, WellFormed, Reachable, QueueChildren, Enters, Less, Names, Entries;
    StepKeepsPaths(tree, maxDepth, table, handled, p, selected, more);
    var table' := AfterPage(tree, maxDepth, table, p, selected, more);
    if q != p && q in table' && q !in table {
      assert table'[q].progress == Queued;
    }
  }

  /** One page keeps the table true to what was handled. */
  lemma StepTracks(tree: Tree, maxDepth: nat, table: Table, handled: seq<(Path, Name)>, p: Path, selected: seq<Name>, more: bool)
    requires Steps(tree, maxDepth, table, handled, p, selected, more)
    ensures Tracks(tree, maxDepth, AfterPage(tree, maxDepth, table, p, selected, more), handled + Entries(p, selected))
  {
    var table', handled' := AfterPage(tree, maxDepth, table, p, selected, more), handled + Entries(p, selected);
    hide Steps, AfterPage, Processed, Enters, Entries, Reachable;
    StepKeepsPaths(tree, maxDepth, table, handled, p, selected, more);
    StepHandlesOnce(tree, maxDepth, table, handled, p, selected, more);
    forall q, n ensures (q, n) in handled' <==> q in table' && q in tree && n in tree[q].kinds && Processed(table'[q].progress, n) {
      StepHandles(tree, maxDepth, table, handled, p, selected, more, q, n);
    }
    forall q, n | (q, n) in handled' && Enters(tree, maxDepth, q, n) ensures q + [n] in table' {
      StepHandles(tree, maxDepth, table, handled, p, selected, more, q, n);
    }
  }

  /** When every directory in the table is done, the table holds every reachable directory. */
  lemma {:induction false} AllReached(tree: Tree, maxDepth: nat, table: Table, handled: seq<(Path, Name)>, p: Path)
    requires WellFormed(tree) && Tracks(tree, maxDepth, table, handled) && Reachable(tree, maxDepth, p)
    requires forall x :: x in table ==> table[x].progress == Done
    ensures p in table
  {
    hide Tracks, WellFormed;
    if p == [] {
      RootTracked(tree, maxDepth, table, handled);
    } else {
      var parent, name := p[..|p| - 1], p[|p| - 1];
      AllReached(tree, maxDepth, table, handled, parent);
      DoneQueues(tree, maxDepth, table, handled, parent, name);
      assert p == parent + [name];
    }
  }

  lemma RootTracked(tree: Tree, maxDepth: nat, table: Table, handled: seq<(Path, Name)>)
    requires Tracks(tree, maxDepth, table, handled)
    ensures [] in table
  {
  }

  /** A completed directory has queued every directory in it. */
  lemma DoneQueues(tree: Tree, maxDepth: nat, table: Table, handled: seq<(Path, Name)>, p: Path, n: Name)
    requires Tracks(tree, maxDepth, table, handled) && p in table && table[p].progress == Done && Enters(tree, maxDepth, p, n)
    ensures p + [n] in table
  {
    hide Reachable, NoRepeats;
    assert (p, n) in handled;
  }

  lemma TracksInitially(tree: Tree, maxDepth: nat)
    requires WellFormed(tree)
    ensures Tracks(tree, maxDepth, map[[] := Row(0, Queued)], [])
  {
  }

  lemma DistinctEntries(tree: Tree, p: Path)
    requires WellFormed(tree) && p in tree
    ensures forall i, j :: 0 <= i < j < |tree[p].entries| ==> tree[p].entries[i] != tree[p].entries[j]
  {
  }

  lemma PageNotEmpty(tree: Tree, p: Path, cursor: Option<Name>, selected: seq<Name>, more: bool)
    requires p in tree && IsPage(Names(tree[p].entries), cursor, PAGE_SIZE, selected, more)
    ensures more ==> selected != []
    ensures forall n :: n in selected ==> n in tree[p].entries
  {
  }

  /** What a page changes: its own directory's row, and children that are new and queued. */
  lemma StepShrinks(tree: Tree, maxDepth: nat, table: Table, p: Path, selected: seq<Name>, more: bool)
    requires p in table && (more ==> selected != [])
    ensures var table' := AfterPage(tree, maxDepth, table, p, selected, more);
      && p in table' && (table'[p].progress == Done <==> !more)
      && (forall x :: x in table && x != p ==> x in table' && table'[x] == table[x])
      && (forall x :: x in table' && x !in table ==> table'[x].progress == Queued)
  {
    ChildrenQueued(tree, maxDepth, table, p, selected);
    hide QueueChildren;
  }

  lemma HandledWhenDone(tree: Tree, maxDepth: nat, table: Table, handled: seq<(Path, Name)>, p: Path, n: Name)
    requires WellFormed(tree) && Tracks(tree, maxDepth, table, handled)
    requires forall x :: x in table ==> table[x].progress == Done
    ensures (p, n) in handled <==> p in tree && Reachable(tree, maxDepth, p) && n in tree[p].entries
  {
    if Reachable(tree, maxDepth, p) {
      AllReached(tree, maxDepth, table, handled, p);
    }
  }

  lemma HandledNext(p: Path, selected: seq<Name>, handled: seq<(Path, Name)>, x: (Path, Name))
    ensures x in handled + Entries(p, selected) <==> x in handled || (x.0 == p && x.1 in selected)
  {
    EntriesMembers(p, selected, x.0, x.1);
  }

  function EntryPairs(tree: Tree): set<(Path, Name)> {
    set p, n | p in tree && n in tree[p].entries :: (p, n)
  }

  /** The entries not handled yet, and the directories not completed yet. */
  ghost predicate Remaining(tree: Tree, table: Table, handled: seq<(Path, Name)>, left: set<(Path, Name)>, open: set<Path>) {
    && (forall x :: x in left <==> x in EntryPairs(tree) && x !in handled)
    && (forall p :: p in open <==> p in tree && !(p in table && table[p].progress == Done))
  }

  function Without(left: set<(Path, Name)>, p: Path, selected: seq<Name>): set<(Path, Name)> {
    left - set n | n in selected :: (p, n)
  }

  lemma WithoutMembers(left: set<(Path, Name)>, p: Path, selected: seq<Name>, x: (Path, Name))
    ensures x in Without(left, p, selected) <==> x in left && !(x.0 == p && x.1 in selected)
  {
  }

  lemma StepRemaining(tree: Tree, maxDepth: nat, table: Table, handled: seq<(Path, Name)>, p: Path, selected: seq<Name>, more: bool,
                      left: set<(Path, Name)>, open: set<Path>)
    requires p in table && p in tree && table[p].progress != Done && (more ==> selected != [])
    requires Remaining(tree, table, handled, left, open)
    ensures Remaining(tree, AfterPage(tree, maxDepth, table, p, selected, more), handled + Entries(p, selected),
                      Without(left, p, selected), if more then open else open - {p})
  {
    hide AfterPage, Entries, Without, EntryPairs;
    StepShrinks(tree, maxDepth, table, p, selected, more);
    forall x ensures x in handled + Entries(p, selected) <==> x in handled || (x.0 == p && x.1 in selected) {
      HandledNext(p, selected, handled, x);
    }
    forall x ensures x in Without(left, p, selected) <==> x in left && !(x.0 == p && x.1 in selected) {
      WithoutMembers(left, p, selected, x);
    }
  }

  /** Every page leaves less to do: it handles an entry, or completes a directory. */
  lemma StepShrinksRest(tree: Tree, maxDepth: nat, table: Table, handled: seq<(Path, Name)>, p: Path, selected: seq<Name>, more: bool,
                        left: set<(Path, Name)>, open: set<Path>)
    requires Steps(tree, maxDepth, table, handled, p, selected, more) && Remaining(tree, table, handled, left, open)
    ensures var left', open' := Without(left, p, selected), if more then open else open - {p};
      left' < left || (left' == left && open' < open)
  {
    hide Less, Rising, WellFormed, Reachable, Enters;
    if selected != [] {
      var n := selected[0];
      assert n in selected;
      PageNotEmpty(tree, p, CursorOf(table[p].progress), selected, more);
      PageProcesses(Names(tree[p].entries), table[p].progress, PAGE_SIZE, selected, more, n);
      assert (p, n) in left;
      WithoutMembers(left, p, selected, (p, n));
    } else {
      assert Without(left, p, selected) == left;
      assert p in open;
    }
  }

  lemma RemainingInitially(tree: Tree)
    ensures Remaining(tree, map[[] := Row(0, Queued)], [], EntryPairs(tree), tree.Keys)
  {
  }

  lemma TableInTree(tree: Tree, maxDepth: nat, table: Table, handled: seq<(Path, Name)>)
    requires Tracks(tree, maxDepth, table, handled)
    ensures forall p :: p in table ==> p in tree && Reachable(tree, maxDepth, p) && table[p].depth == |p|
    ensures NoRepeats(handled)
  {
  }

  // ----- What ends a scan early -----

  predicate IsRelease(tree: Tree, x: (Path, Name)) {
    x.0 in tree && x.1 in tree[x.0].kinds && tree[x.0].kinds[x.1] == Release
  }

  predicate IsFailing(tree: Tree, x: (Path, Name)) {
    x.0 in tree && x.1 in tree[x.0].kinds && tree[x.0].kinds[x.1] == Failing
  }

  ghost function ReleasesOf(tree: Tree, handled: seq<(Path, Name)>): set<(Path, Name)> {
    set x | x in handled && IsRelease(tree, x)
  }

  /** Every release of the tree that a scan can come across. */
  ghost function AllReleases(tree: Tree, maxDepth: nat): set<(Path, Name)> {
    set p, n | p in tree && n in tree[p].kinds && IsRelease(tree, (p, n)) && Reachable(tree, maxDepth, p) :: (p, n)
  }

  /** A directory that a scan comes across cannot be read, or an entry in one cannot be inspected. */
  ghost predicate Broken(tree: Tree, maxDepth: nat) {
    || (exists p :: p in tree && Reachable(tree, maxDepth, p) && !tree[p].readable)
    || (exists x :: IsFailing(tree, x) && Reachable(tree, maxDepth, x.0))
  }

  lemma ReleasesAppend(tree: Tree, handled: seq<(Path, Name)>, x: (Path, Name))
    requires NoRepeats(handled + [x])
    ensures |ReleasesOf(tree, handled + [x])| == |ReleasesOf(tree, handled)| + if IsRelease(tree, x) then 1 else 0
  {
    hide IsRelease;
    assert forall i :: 0 <= i < |handled| ==> (handled + [x])[i] == handled[i] && (handled + [x])[|handled|] == x;
    assert x !in ReleasesOf(tree, handled);
    assert ReleasesOf(tree, handled + [x]) == ReleasesOf(tree, handled) + if IsRelease(tree, x) then {x} else {};
  }

  lemma SubsetSize<T>(a: set<T>, b: set<T>)
    requires a <= b
    ensures |a| <= |b|
  {
    assert b == a + (b - a);
  }

  lemma EntriesPrefix(p: Path, selected: seq<Name>, k: nat, handled: seq<(Path, Name)>)
    requires k < |selected| && NoRepeats(handled + Entries(p, selected))
    ensures Entries(p, selected[..k + 1]) == Entries(p, selected[..k]) + [(p, selected[k])]
    ensures NoRepeats(handled + Entries(p, selected[..k]) + [(p, selected[k])])
  {
    var all, some := handled + Entries(p, selected), handled + Entries(p, selected[..k]) + [(p, selected[k])];
    assert some == all[..|some|];
  }

  /** Counts the releases of a page, stopping above the limit. */
  method CountReleases(tree: Tree, p: Path, selected: seq<Name>, observed: nat, limit: nat, ghost handled: seq<(Path, Name)>)
    returns (observed': nat, over: bool)
    requires NoRepeats(handled + Entries(p, selected)) && observed == |ReleasesOf(tree, handled)| <= limit
    ensures !over ==> observed' == |ReleasesOf(tree, handled + Entries(p, selected))| <= limit
    ensures over ==> exists k: nat :: k <= |selected| && |ReleasesOf(tree, handled + Entries(p, selected[..k]))| > limit
  {
    hide IsRelease, ReleasesOf, NoRepeats;
    observed', over := observed, false;
    assert handled + Entries(p, selected[..0]) == handled;
    for k := 0 to |selected|
      invariant observed' == |ReleasesOf(tree, handled + Entries(p, selected[..k]))| <= limit
    {
      EntriesPrefix(p, selected, k, handled);
      ReleasesAppend(tree, handled + Entries(p, selected[..k]), (p, selected[k]));
      assert handled + Entries(p, selected[..k + 1]) == handled + Entries(p, selected[..k]) + [(p, selected[k])];
      if IsRelease(tree, (p, selected[k])) {
        observed' := observed' + 1;
        if observed' > limit {
          over := true;
          return;
        }
      }
    }
    assert selected[..|selected|] == selected;
  }

  /** Whatever was handled, together with part of a page of a known directory, can be come across. */
  lemma ReleasesReachable(tree: Tree, maxDepth: nat, table: Table, handled: seq<(Path, Name)>, p: Path, some: seq<Name>)
    requires Tracks(tree, maxDepth, table, handled) && p in table
    ensures |ReleasesOf(tree, handled + Entries(p, some))| <= |AllReleases(tree, maxDepth)|
  {
    hide Processed, Enters, Entries;
    var releases := ReleasesOf(tree, handled + Entries(p, some));
    forall x | x in releases ensures x in AllReleases(tree, maxDepth) {
      HandledNext(p, some, handled, x);
    }
    SubsetSize(releases, AllReleases(tree, maxDepth));
  }

  /** Nothing that was come across so far is broken. */
  ghost predicate Clean(tree: Tree, table: Table, handled: seq<(Path, Name)>) {
    && (forall p :: p in table && p in tree && table[p].progress != Queued ==> tree[p].readable)
    && (forall x :: x in handled ==> !IsFailing(tree, x))
  }

  lemma StepClean(tree: Tree, maxDepth: nat, table: Table, handled: seq<(Path, Name)>, p: Path, selected: seq<Name>, more: bool)
    requires Clean(tree, table, handled) && p in table && p in tree && tree[p].readable && (more ==> selected != [])
    requires forall n :: n in selected ==> !IsFailing(tree, (p, n))
    ensures Clean(tree, AfterPage(tree, maxDepth, table, p, selected, more), handled + Entries(p, selected))
  {
    hide AfterPage, Entries, IsFailing;
    StepShrinks(tree, maxDepth, table, p, selected, more);
    forall x | x in handled + Entries(p, selected) ensures !IsFailing(tree, x) {
      HandledNext(p, selected, handled, x);
    }
  }

  lemma FailingHandled(tree: Tree, maxDepth: nat, handled: seq<(Path, Name)>)
    requires WellFormed(tree)
    requires forall p, n :: (p, n) in handled <==> p in tree && Reachable(tree, maxDepth, p) && n in tree[p].entries
    ensures forall x :: IsFailing(tree, x) && Reachable(tree, maxDepth, x.0) ==> x in handled
  {
    hide Reachable;
    forall x | IsFailing(tree, x) && Reachable(tree, maxDepth, x.0) ensures x in handled {
      assert (x.0, x.1) in handled;
    }
  }

  /** With every directory completed and everything clean, the tree has nothing broken in reach. */
  lemma CleanWhenDone(tree: Tree, maxDepth: nat, table: Table, handled: seq<(Path, Name)>)
    requires WellFormed(tree) && Tracks(tree, maxDepth, table, handled) && Clean(tree, table, handled)
    requires forall x :: x in table ==> table[x].progress == Done
    ensures !Broken(tree, maxDepth) && ReleasesOf(tree, handled) == AllReleases(tree, maxDepth)
  {
    hide Tracks, Reachable;
    forall p | p in tree && Reachable(tree, maxDepth, p) ensures tree[p].readable {
      AllReached(tree, maxDepth, table, handled, p);
    }
    forall p, n ensures (p, n) in handled <==> p in tree && Reachable(tree, maxDepth, p) && n in tree[p].entries {
      HandledWhenDone(tree, maxDepth, table, handled, p, n);
    }
    FailingHandled(tree, maxDepth, handled);
    forall x ensures x in ReleasesOf(tree, handled) <==> x in AllReleases(tree, maxDepth) {
      assert x == (x.0, x.1);
    }
  }

  lemma FailingBreaks(tree: Tree, maxDepth: nat, p: Path, n: Name)
    requires Reachable(tree, maxDepth, p) && IsFailing(tree, (p, n))
    ensures Broken(tree, maxDepth)
  {
    assert IsFailing(tree, (p, n)) && Reachable(tree, maxDepth, (p, n).0);
  }

  lemma UnreadableBreaks(tree: Tree, maxDepth: nat, p: Path)
    requires p in tree && Reachable(tree, maxDepth, p) && !tree[p].readable
    ensures Broken(tree, maxDepth)
  {
  }

  datatype Ending = Completed | ReleaseLimit | Failed

  /** Scans a root page by page until no directory is queued or running, a page cannot be read, or more
      than `maxReleases` releases were found. It completes exactly when nothing in reach is broken and
      the releases in reach are within the limit; then each reachable directory is completed, and each
      of their entries was handled exactly once. */
  method ScanRoot(tree: Tree, maxDepth: nat, maxReleases: nat) returns (ending: Ending, table: Table, ghost handled: seq<(Path, Name)>)
    requires WellFormed(tree)
    ensures ending == Completed <==> !Broken(tree, maxDepth) && |AllReleases(tree, maxDepth)| <= maxReleases
    ensures ending == Failed ==> Broken(tree, maxDepth)
    ensures ending == ReleaseLimit ==> |AllReleases(tree, maxDepth)| > maxReleases
    ensures NoRepeats(handled) && |ReleasesOf(tree, handled)| <= maxReleases
    ensures forall p :: p in table ==> p in tree && Reachable(tree, maxDepth, p) && table[p].depth == |p|
    ensures ending == Completed ==>
              && (forall p :: p in table <==> Reachable(tree, maxDepth, p))
              && (forall p :: p in table ==> table[p].progress == Done)
              && (forall p, n :: (p, n) in handled <==> p in tree && Reachable(tree, maxDepth, p) && n in tree[p].entries)
  {
    hide *;
    table, handled := map[[] := Row(0, Queued)], [];
    var observed: nat := 0;
    TracksInitially(tree, maxDepth);
    RemainingInitially(tree);
    CleanInitially(tree);
    ghost var left, open := EntryPairs(tree), tree.Keys;
    while exists p :: p in table && table[p].progress != Done
      invariant Tracks(tree, maxDepth, table, handled) && Remaining(tree, table, handled, left, open)
      invariant Clean(tree, table, handled) && observed == |ReleasesOf(tree, handled)| <= maxReleases
      decreases left, open
    {
      TableInTree(tree, maxDepth, table, handled);
      var p :| p in table && table[p].progress != Done;
      if !tree[p].readable {
        UnreadableBreaks(tree, maxDepth, p);
        return Failed, table, handled;
      }
      DistinctEntries(tree, p);
      var selected, more := ScanDirectory(tree[p].entries, CursorOf(table[p].progress), PAGE_SIZE);
      if name :| name in selected && IsFailing(tree, (p, name)) {
        FailingBreaks(tree, maxDepth, p, name);
        return Failed, table, handled;
      }
      PageNotEmpty(tree, p, CursorOf(table[p].progress), selected, more);
      MakeStep(tree, maxDepth, table, handled, p, selected, more);
      StepTracks(tree, maxDepth, table, handled, p, selected, more);
      StepHandlesOnce(tree, maxDepth, table, handled, p, selected, more);
      var observed', over := CountReleases(tree, p, selected, observed, maxReleases, handled);
      if over {
        ghost var k: nat :| k <= |selected| && |ReleasesOf(tree, handled + Entries(p, selected[..k]))| > maxReleases;
        ReleasesReachable(tree, maxDepth, table, handled, p, selected[..k]);
        return ReleaseLimit, table, handled;
      }
      StepRemaining(tree, maxDepth, table, handled, p, selected, more, left, open);
      StepShrinksRest(tree, maxDepth, table, handled, p, selected, more, left, open);
      StepClean(tree, maxDepth, table, handled, p, selected, more);
      handled := handled + Entries(p, selected);
      table := AfterPage(tree, maxDepth, table, p, selected, more);
      observed := observed';
      left := Without(left, p, selected);
      open := if more then open else open - {p};
    }
    TableInTree(tree, maxDepth, table, handled);
    CleanWhenDone(tree, maxDepth, table, handled);
    forall p | Reachable(tree, maxDepth, p) ensures p in table {
      AllReached(tree, maxDepth, table, handled, p);
    }
    forall p, n ensures (p, n) in handled <==> p in tree && Reachable(tree, maxDepth, p) && n in tree[p].entries {
      HandledWhenDone(tree, maxDepth, table, handled, p, n);
    }
    ending := Completed;
  }

  lemma CleanInitially(tree: Tree)
    ensures Clean(tree, map[[] := Row(0, Queued)], []) && ReleasesOf(tree, []) == {}
  {
  }

  lemma MakeStep(tree: Tree, maxDepth: nat, table: Table, handled: seq<(Path, Name)>, p: Path, selected: seq<Name>, more: bool)
    requires WellFormed(tree) && Tracks(tree, maxDepth, table, handled) && p in table && p in tree && table[p].progress != Done
    requires IsPage(Names(tree[p].entries), CursorOf(table[p].progress), PAGE_SIZE, selected, more) && (more ==> selected != [])
    ensures Steps(tree, maxDepth, table, handled, p, selected, more)
  {
    hide WellFormed, Tracks, IsPage;
  }
}
