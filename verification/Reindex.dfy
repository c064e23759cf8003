/** Renumbering rows and columns of a graph: the compact matrix of a component, or a reordering of
    the source files, has the same matchings as the part of the graph it stands for. */
module Reindex {
  import opened Sums
  import opened Matching
  import opened Sorting

  ghost function Position(s: seq<nat>, x: nat): (i: nat)
    requires x in s
    ensures i < |s| && s[i] == x
  {
    var i :| 0 <= i < |s| && s[i] == x;
    i
  }

  lemma PositionOf(s: seq<nat>, i: nat)
    requires NoRepeats(s) && i < |s|
    ensures Position(s, s[i]) == i
  {
  }

  ghost function Elements(s: seq<nat>): set<nat> {
    set x | x in s
  }

  /** w is the part of g on the listed rows and columns, and no edge of those rows leaves them. */
  ghost predicate Compact(g: Graph, rows: seq<nat>, columns: seq<nat>, w: Graph) {
    && NoRepeats(rows) && NoRepeats(columns)
    && |w| == |rows|
    && (forall i :: 0 <= i < |rows| ==> rows[i] < |g| && |w[i]| == |columns|)
    && (forall i, j :: 0 <= i < |rows| && 0 <= j < |columns| ==>
          columns[j] < |g[rows[i]]| && w[i][j] == g[rows[i]][columns[j]])
    && (forall r, c :: r in rows && Edge(g, r, c) ==> c in columns)
  }

  /** A matching of the part, in the numbering of the whole. */
  ghost function Lift(rows: seq<nat>, columns: seq<nat>, n: Pairing): Pairing
    requires forall i :: i in n ==> n[i] < |columns|
  {
    map r | r in rows && Position(rows, r) in n :: columns[n[Position(rows, r)]]
  }

  /** A matching of the whole on those rows, in the numbering of the part. */
  ghost function Project(rows: seq<nat>, columns: seq<nat>, m: Pairing): Pairing
    requires forall r :: r in m ==> m[r] in columns
  {
    map i: nat | 0 <= i < |rows| && rows[i] in m :: Position(columns, m[rows[i]])
  }

  lemma LiftAt(g: Graph, rows: seq<nat>, columns: seq<nat>, w: Graph, n: Pairing, i: nat)
    requires Compact(g, rows, columns, w) && IsMatching(w, n) && i < |rows|
    ensures forall k :: k in n ==> n[k] < |columns|
    ensures var m := Lift(rows, columns, n); (i in n <==> rows[i] in m) && (i in n ==> m[rows[i]] == columns[n[i]])
  {
    forall k | k in n ensures n[k] < |columns| {
      assert Edge(w, k, n[k]);
    }
    PositionOf(rows, i);
  }

  lemma LiftIsMatching(g: Graph, rows: seq<nat>, columns: seq<nat>, w: Graph, n: Pairing)
    requires Compact(g, rows, columns, w) && IsMatching(w, n)
    ensures forall k :: k in n ==> n[k] < |columns|
    ensures MatchingOn(g, Elements(rows), Lift(rows, columns, n))
  {
    forall k | k in n ensures n[k] < |columns| && k < |rows| {
      assert Edge(w, k, n[k]);
    }
    var m := Lift(rows, columns, n);
    forall r | r in m ensures Edge(g, r, m[r]) {
      var i := Position(rows, r);
      assert Edge(w, i, n[i]);
    }
  }

  lemma ProjectIsMatching(g: Graph, rows: seq<nat>, columns: seq<nat>, w: Graph, m: Pairing)
    requires Compact(g, rows, columns, w) && MatchingOn(g, Elements(rows), m)
    ensures forall r :: r in m ==> m[r] in columns
    ensures IsMatching(w, Project(rows, columns, m))
  {
    forall r | r in m ensures r in rows && m[r] in columns {
      assert r in Elements(rows) && Edge(g, r, m[r]);
    }
    var n := Project(rows, columns, m);
    forall i | i in n ensures Edge(w, i, n[i]) {
      assert Edge(g, rows[i], m[rows[i]]);
    }
    forall i, j | i in n && j in n && i != j ensures n[i] != n[j] {
      assert rows[i] != rows[j];
    }
  }

  lemma ProjectThenLift(rows: seq<nat>, columns: seq<nat>, m: Pairing)
    requires forall r :: r in m ==> r in rows && m[r] in columns
    ensures forall i :: i in Project(rows, columns, m) ==> Project(rows, columns, m)[i] < |columns|
    ensures Lift(rows, columns, Project(rows, columns, m)) == m
  {
    var back := Lift(rows, columns, Project(rows, columns, m));
    assert back.Keys == m.Keys;
  }

  lemma LiftProject(g: Graph, rows: seq<nat>, columns: seq<nat>, w: Graph, m: Pairing)
    requires Compact(g, rows, columns, w) && MatchingOn(g, Elements(rows), m)
    ensures forall r :: r in m ==> m[r] in columns
    ensures IsMatching(w, Project(rows, columns, m))
    ensures forall i :: i in Project(rows, columns, m) ==> Project(rows, columns, m)[i] < |columns|
    ensures Lift(rows, columns, Project(rows, columns, m)) == m
  {
    hide Compact, IsMatching, Edge, Project, Lift;
    ProjectIsMatching(g, rows, columns, w, m);
    forall r | r in m ensures r in rows {
      assert r in Elements(rows);
    }
    ProjectThenLift(rows, columns, m);
  }

  lemma LiftInjective(g: Graph, rows: seq<nat>, columns: seq<nat>, w: Graph, n: Pairing, n': Pairing)
    requires Compact(g, rows, columns, w) && IsMatching(w, n) && IsMatching(w, n')
    requires forall k :: k in n ==> n[k] < |columns|
    requires forall k :: k in n' ==> n'[k] < |columns|
    requires Lift(rows, columns, n) == Lift(rows, columns, n')
    ensures n == n'
  {
    forall i: nat ensures i in n <==> i in n' {
      if i in n {
        assert Edge(w, i, n[i]);
        LiftAt(g, rows, columns, w, n, i);
        LiftAt(g, rows, columns, w, n', i);
      }
      if i in n' {
        assert Edge(w, i, n'[i]);
        LiftAt(g, rows, columns, w, n, i);
        LiftAt(g, rows, columns, w, n', i);
      }
    }
    forall i | i in n ensures n[i] == n'[i] {
      assert Edge(w, i, n[i]);
      LiftAt(g, rows, columns, w, n, i);
      LiftAt(g, rows, columns, w, n', i);
      assert columns[n[i]] == columns[n'[i]];
    }
  }

  lemma LiftGain(g: Graph, rows: seq<nat>, columns: seq<nat>, w: Graph, n: Pairing, i: nat)
    requires Compact(g, rows, columns, w) && IsMatching(w, n) && i < |rows|
    requires forall k :: k in n ==> n[k] < |columns|
    requires IsMatching(g, Lift(rows, columns, n))
    ensures Gain(w, n, i) == Gain(g, Lift(rows, columns, n), rows[i])
  {
    hide Lift;
    LiftAt(g, rows, columns, w, n, i);
    if i in n {
      assert Edge(w, i, n[i]);
    }
  }

  lemma LiftGains(g: Graph, rows: seq<nat>, columns: seq<nat>, w: Graph, n: Pairing)
    requires Compact(g, rows, columns, w) && IsMatching(w, n)
    requires forall k :: k in n ==> n[k] < |columns|
    requires IsMatching(g, Lift(rows, columns, n))
    ensures |w| == |rows| && forall i :: 0 <= i < |rows| ==>
              0 <= rows[i] < |g| && Gains(w, n)[i] == Gains(g, Lift(rows, columns, n))[rows[i]]
  {
    assert |w| == |rows| && forall i :: 0 <= i < |rows| ==> rows[i] < |g|;
    hide Lift, IsMatching, Compact, Gain;
    forall i | 0 <= i < |rows|
      ensures 0 <= rows[i] < |g| && Gains(w, n)[i] == Gains(g, Lift(rows, columns, n))[rows[i]]
    {
      LiftGain(g, rows, columns, w, n, i);
    }
  }

  lemma LiftWeight(g: Graph, rows: seq<nat>, columns: seq<nat>, w: Graph, n: Pairing)
    requires Compact(g, rows, columns, w) && IsMatching(w, n)
    ensures forall k :: k in n ==> n[k] < |columns|
    ensures IsMatching(g, Lift(rows, columns, n))
    ensures Weight(g, Lift(rows, columns, n)) == Weight(w, n)
  {
    LiftIsMatching(g, rows, columns, w, n);
    LiftGains(g, rows, columns, w, n);
    var m := Lift(rows, columns, n);
    hide Edge, IsMatching;
    ZeroOutside(rows, Gains(g, m));
    PickedIsSum(Gains(g, m), rows, Gains(w, n));
  }

  /** Entries outside the listed rows being zero, the listed ones carry the whole sum. */
  lemma ZeroOutside(rows: seq<nat>, whole: seq<int>)
    requires NoRepeats(rows) && forall i :: 0 <= i < |rows| ==> 0 <= rows[i] < |whole|
    requires forall r :: 0 <= r < |whole| && whole[r] != 0 ==> r in rows
    ensures Picked(whole, rows, |rows|) == Sum(whole)
  {
    var p := seq(|whole|, r requires 0 <= r < |whole| => if r in rows then Position(rows, r) + 1 else 0);
    PickedExactly(whole, rows, p, |rows|);
  }

  /** Maxima of the part are maxima of the rows it stands for, and uniqueness carries over. */
  lemma LiftMaximum(g: Graph, rows: seq<nat>, columns: seq<nat>, w: Graph, n: Pairing)
    requires Compact(g, rows, columns, w) && Maximum(w, AllRows(w), n)
    ensures forall k :: k in n ==> n[k] < |columns|
    ensures Maximum(g, Elements(rows), Lift(rows, columns, n))
  {
    LiftIsMatching(g, rows, columns, w, n);
    LiftWeight(g, rows, columns, w, n);
    forall m | MatchingOn(g, Elements(rows), m) ensures Weight(g, m) <= Weight(g, Lift(rows, columns, n)) {
      ProjectBelow(g, rows, columns, w, n, m);
    }
  }

  lemma ProjectBelow(g: Graph, rows: seq<nat>, columns: seq<nat>, w: Graph, n: Pairing, m: Pairing)
    requires Compact(g, rows, columns, w) && Maximum(w, AllRows(w), n)
    requires MatchingOn(g, Elements(rows), m)
    ensures forall r :: r in m ==> m[r] in columns
    ensures IsMatching(w, Project(rows, columns, m)) && Weight(w, Project(rows, columns, m)) == Weight(g, m) <= Weight(w, n)
    ensures MatchingOn(w, AllRows(w), Project(rows, columns, m))
  {
    LiftProject(g, rows, columns, w, m);
    var n' := Project(rows, columns, m);
    LiftWeight(g, rows, columns, w, n');
    forall i | i in n' ensures i in AllRows(w) {
      assert Edge(w, i, n'[i]);
    }
    assert MatchingOn(w, AllRows(w), n');
  }

  lemma LiftUnique(g: Graph, rows: seq<nat>, columns: seq<nat>, w: Graph, n: Pairing)
    requires Compact(g, rows, columns, w) && UniqueMaximum(w, AllRows(w), n)
    ensures forall k :: k in n ==> n[k] < |columns|
    ensures UniqueMaximum(g, Elements(rows), Lift(rows, columns, n))
  {
    LiftMaximum(g, rows, columns, w, n);
    LiftWeight(g, rows, columns, w, n);
    forall m | Maximum(g, Elements(rows), m) ensures m == Lift(rows, columns, n) {
      ProjectBelow(g, rows, columns, w, n, m);
      assert Maximum(w, AllRows(w), Project(rows, columns, m));
      LiftProject(g, rows, columns, w, m);
    }
  }

  lemma LiftAmbiguous(g: Graph, rows: seq<nat>, columns: seq<nat>, w: Graph)
    requires Compact(g, rows, columns, w) && AmbiguousMaximum(w, AllRows(w))
    ensures AmbiguousMaximum(g, Elements(rows))
  {
    var n, n' :| Maximum(w, AllRows(w), n) && Maximum(w, AllRows(w), n') && n != n';
    LiftMaximum(g, rows, columns, w, n);
    LiftMaximum(g, rows, columns, w, n');
    if Lift(rows, columns, n) == Lift(rows, columns, n') {
      LiftInjective(g, rows, columns, w, n, n');
    }
  }
}
