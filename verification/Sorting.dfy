/** The sorts of the standard library that the code relies on, by insertion. */
module Sorting {

  /** s[0] goes in front of the first element of the sorted rest it may precede, so equal elements
      keep their order. */
  function Insert<T>(x: T, s: seq<T>, leq: (T, T) -> bool): (r: seq<T>)
    ensures multiset(r) == multiset([x] + s)
    ensures |r| == |s| + 1
  {
    if |s| == 0 || leq(x, s[0]) then [x] + s
    else
      assert s == [s[0]] + s[1..];
      [s[0]] + Insert(x, s[1..], leq)
  }

  function Sort<T>(s: seq<T>, leq: (T, T) -> bool): (r: seq<T>)
    ensures multiset(r) == multiset(s)
    ensures |r| == |s|
  {
    if |s| == 0 then []
    else
      assert s == [s[0]] + s[1..];
      Insert(s[0], Sort(s[1..], leq), leq)
  }

  ghost predicate TotalPreorder<T(!new)>(leq: (T, T) -> bool) {
    && (forall x, y :: leq(x, y) || leq(y, x))
    && (forall x, y, z :: leq(x, y) && leq(y, z) ==> leq(x, z))
  }

  ghost predicate SortedBy<T>(s: seq<T>, leq: (T, T) -> bool) {
    forall i, j :: 0 <= i < j < |s| ==> leq(s[i], s[j])
  }

  lemma {:induction false} InsertSorted<T(!new)>(x: T, s: seq<T>, leq: (T, T) -> bool)
    requires TotalPreorder(leq) && SortedBy(s, leq)
    ensures SortedBy(Insert(x, s, leq), leq)
  {
    if |s| == 0 || leq(x, s[0]) {
    } else {
      InsertSorted(x, s[1..], leq);
      var rest := Insert(x, s[1..], leq);
      forall j | 0 <= j < |rest| ensures leq(s[0], rest[j]) {
        assert rest[j] in multiset([x] + s[1..]);
      }
    }
  }

  lemma {:induction false} SortSorted<T(!new)>(s: seq<T>, leq: (T, T) -> bool)
    requires TotalPreorder(leq)
    ensures SortedBy(Sort(s, leq), leq)
  {
    if |s| > 0 {
      SortSorted(s[1..], leq);
      InsertSorted(s[0], Sort(s[1..], leq), leq);
    }
  }

  lemma SameElements<T>(s: seq<T>, r: seq<T>, x: T)
    requires multiset(s) == multiset(r)
    ensures x in s <==> x in r
  {
    assert x in s <==> x in multiset(s);
    assert x in r <==> x in multiset(r);
  }

  // ----- Natural numbers in ascending order -----

  function Ascending(s: seq<nat>): (r: seq<nat>)
    ensures multiset(r) == multiset(s)
  {
    Sort(s, (x: nat, y: nat) => x <= y)
  }

  lemma AscendingSorted(s: seq<nat>)
    ensures forall i, j :: 0 <= i < j < |Ascending(s)| ==> Ascending(s)[i] <= Ascending(s)[j]
  {
    SortSorted(s, (x: nat, y: nat) => x <= y);
  }

  ghost predicate NoRepeats<T>(s: seq<T>) {
    forall i, j :: 0 <= i < j < |s| ==> s[i] != s[j]
  }

  /** A reordering of a sequence without repeats has no repeats. */
  lemma {:induction false} NoRepeatsMultiset<T>(s: seq<T>)
    ensures NoRepeats(s) <==> forall x :: x in s ==> multiset(s)[x] == 1
  {
    if |s| > 0 {
      var rest := s[1..];
      assert s == [s[0]] + rest;
      NoRepeatsMultiset(rest);
      if NoRepeats(s) {
        forall x | x in s ensures multiset(s)[x] == 1 {
          if x == s[0] {
            assert x !in rest;
          } else {
            assert x in rest;
          }
        }
      }
      if forall x :: x in s ==> multiset(s)[x] == 1 {
        forall x | x in rest ensures multiset(rest)[x] == 1 && x != s[0] {
          assert x in s;
        }
        forall i, j | 0 <= i < j < |s| ensures s[i] != s[j] {
          if i == 0 {
            assert s[j] in rest;
          } else {
            assert rest[i - 1] != rest[j - 1];
          }
        }
      }
    }
  }

  lemma ReorderingNoRepeats<T>(s: seq<T>, r: seq<T>)
    requires multiset(s) == multiset(r) && NoRepeats(s)
    ensures NoRepeats(r)
  {
    NoRepeatsMultiset(s);
    NoRepeatsMultiset(r);
    forall x | x in r ensures multiset(r)[x] == 1 {
      SameElements(s, r, x);
    }
  }

  // ----- Reorderings -----

  function Map<S, T>(f: S -> T, s: seq<S>): (r: seq<T>)
    ensures |r| == |s| && forall i :: 0 <= i < |s| ==> r[i] == f(s[i])
  {
    seq(|s|, i requires 0 <= i < |s| => f(s[i]))
  }

  function Filter<T(!new)>(keep: T -> bool, s: seq<T>): (r: seq<T>)
    ensures forall x :: x in r <==> x in s && keep(x)
  {
    if |s| == 0 then []
    else if keep(s[0]) then [s[0]] + Filter(keep, s[1..])
    else Filter(keep, s[1..])
  }

  function Remove<T>(s: seq<T>, i: nat): seq<T>
    requires i < |s|
  {
    s[..i] + s[i + 1..]
  }

  /** A reordering starts with some element of the other and goes on as a reordering of the rest. */
  lemma SplitFirst<T>(s: seq<T>, t: seq<T>) returns (i: nat)
    requires multiset(s) == multiset(t) && |s| > 0
    ensures i < |t| && t[i] == s[0] && multiset(s[1..]) == multiset(Remove(t, i))
  {
    SameElements(s, t, s[0]);
    i :| 0 <= i < |t| && t[i] == s[0];
    RemoveOne(s, 0);
    RemoveOne(t, i);
    assert Remove(s, 0) == s[1..];
  }

  lemma RemoveOne<T>(s: seq<T>, i: nat)
    requires i < |s|
    ensures multiset(Remove(s, i)) == multiset(s) - multiset{s[i]}
  {
    assert s == s[..i] + [s[i]] + s[i + 1..];
  }

  lemma {:induction false} MapReordered<S, T>(f: S -> T, s: seq<S>, t: seq<S>)
    requires multiset(s) == multiset(t)
    ensures multiset(Map(f, s)) == multiset(Map(f, t))
  {
    assert |s| == |multiset(s)| == |multiset(t)| == |t|;
    if |s| > 0 {
      var i := SplitFirst(s, t);
      MapReordered(f, s[1..], Remove(t, i));
      assert Map(f, s) == [f(s[0])] + Map(f, s[1..]);
      assert Map(f, t) == Map(f, t[..i]) + [f(t[i])] + Map(f, t[i + 1..]);
      assert Map(f, Remove(t, i)) == Map(f, t[..i]) + Map(f, t[i + 1..]);
    }
  }

  lemma {:induction false} FilterSplit<T(!new)>(keep: T -> bool, a: seq<T>, b: seq<T>)
    ensures Filter(keep, a + b) == Filter(keep, a) + Filter(keep, b)
  {
    if |a| == 0 {
      assert a + b == b;
    } else {
      assert (a + b)[1..] == a[1..] + b;
      FilterSplit(keep, a[1..], b);
    }
  }

  lemma FilterCons<T(!new)>(keep: T -> bool, x: T, b: seq<T>)
    ensures Filter(keep, [x] + b) == (if keep(x) then [x] else []) + Filter(keep, b)
  {
    assert ([x] + b)[1..] == b;
  }

  lemma FilterAround<T(!new)>(keep: T -> bool, t: seq<T>, i: nat)
    requires i < |t|
    ensures multiset(Filter(keep, t)) == multiset(Filter(keep, Remove(t, i))) + if keep(t[i]) then multiset{t[i]} else multiset{}
  {
    hide Filter;
    var a, x, b := t[..i], t[i], t[i + 1..];
    FilterSplit(keep, a, b);
    FilterSplit(keep, a, [x] + b);
    FilterCons(keep, x, b);
    assert t == a + ([x] + b);
  }

  lemma {:induction false} FilterReordered<T(!new)>(keep: T -> bool, s: seq<T>, t: seq<T>)
    requires multiset(s) == multiset(t)
    ensures multiset(Filter(keep, s)) == multiset(Filter(keep, t))
  {
    assert |s| == |multiset(s)| == |multiset(t)| == |t|;
    if |s| > 0 {
      var i := SplitFirst(s, t);
      FilterReordered(keep, s[1..], Remove(t, i));
      FilterAround(keep, t, i);
    }
  }

  lemma SameRest<T>(s: seq<T>, t: seq<T>)
    requires multiset(s) == multiset(t) && |s| > 0 && |t| > 0 && s[0] == t[0]
    ensures multiset(s[1..]) == multiset(t[1..])
  {
    DropFirst(s);
    DropFirst(t);
  }

  lemma DropFirst<T>(s: seq<T>)
    requires |s| > 0
    ensures multiset(s[1..]) == multiset(s) - multiset{s[0]}
  {
    RemoveOne(s, 0);
    assert Remove(s, 0) == s[1..];
  }

  lemma SameFirst<T>(key: T -> int, s: seq<T>, t: seq<T>)
    requires multiset(s) == multiset(t) && |s| > 0 && |t| > 0
    requires forall i, j :: 0 <= i < j < |s| ==> key(s[i]) < key(s[j])
    requires forall i, j :: 0 <= i < j < |t| ==> key(t[i]) < key(t[j])
    ensures s[0] == t[0]
  {
    SameElements(s, t, s[0]);
    SameElements(s, t, t[0]);
    var i :| 0 <= i < |s| && s[i] == t[0];
    var j :| 0 <= j < |t| && t[j] == s[0];
    assert key(s[0]) <= key(s[i]);
    assert key(t[0]) <= key(t[j]);
  }

  /** Two orderings of the same elements by strictly increasing key are the same. */
  lemma {:induction false} OneOrdering<T>(key: T -> int, s: seq<T>, t: seq<T>)
    requires multiset(s) == multiset(t)
    requires forall i, j :: 0 <= i < j < |s| ==> key(s[i]) < key(s[j])
    requires forall i, j :: 0 <= i < j < |t| ==> key(t[i]) < key(t[j])
    ensures s == t
  {
    assert |s| == |multiset(s)| == |multiset(t)| == |t|;
    if |s| > 0 {
      SameFirst(key, s, t);
      SameRest(s, t);
      OneOrdering(key, s[1..], t[1..]);
    }
  }

  /** Sequences without repeats and with the same elements are reorderings of each other. */
  lemma SameSet<T>(s: seq<T>, t: seq<T>)
    requires NoRepeats(s) && NoRepeats(t) && forall x :: x in s <==> x in t
    ensures multiset(s) == multiset(t)
  {
    NoRepeatsMultiset(s);
    NoRepeatsMultiset(t);
    forall x ensures multiset(s)[x] == multiset(t)[x] {
      assert x in s <==> x in multiset(s);
      assert x in t <==> x in multiset(t);
    }
  }

  /** The positions that realise a reordering. */
  lemma {:induction false} Rearrangement<T>(s: seq<T>, t: seq<T>) returns (at: seq<nat>)
    requires multiset(s) == multiset(t)
    ensures |at| == |t| == |s| && NoRepeats(at)
    ensures forall j :: 0 <= j < |at| ==> at[j] < |s| && t[j] == s[at[j]]
    ensures forall c: nat :: c < |s| ==> c in at
    decreases |t|
  {
    assert |s| == |multiset(s)| == |multiset(t)| == |t|;
    if |t| == 0 {
      return [];
    }
    var i := SplitFirst(t, s);
    var rest := Rearrangement(Remove(s, i), t[1..]);
    var moved := seq(|rest|, j requires 0 <= j < |rest| => if rest[j] < i then rest[j] else rest[j] + 1);
    at := [i] + moved;
    forall c: nat | c < |s| ensures c in at {
      if c != i {
        var before: nat := if c < i then c else c - 1;
        assert before in rest;
        var j :| 0 <= j < |rest| && rest[j] == before;
        assert at[j + 1] == c;
      }
    }
  }

  // ----- Sorting by a key -----

  function KeyOrder<T>(key: T -> int): (T, T) -> bool {
    (x: T, y: T) => key(x) <= key(y)
  }

  lemma KeyOrderAt<T>(key: T -> int, x: T, y: T)
    ensures KeyOrder(key)(x, y) <==> key(x) <= key(y)
  {
  }

  function SortByKey<T>(key: T -> int, s: seq<T>): (r: seq<T>)
    ensures multiset(r) == multiset(s)
  {
    Sort(s, KeyOrder(key))
  }

  lemma SortByKeyStrict<T(!new)>(key: T -> int, s: seq<T>)
    requires NoRepeats(Map(key, s))
    ensures forall i, j :: 0 <= i < j < |SortByKey(key, s)| ==> key(SortByKey(key, s)[i]) < key(SortByKey(key, s)[j])
  {
    var r := SortByKey(key, s);
    SortSorted(s, KeyOrder(key));
    MapReordered(key, s, r);
    ReorderingNoRepeats(Map(key, s), Map(key, r));
    forall i, j | 0 <= i < j < |r| ensures key(r[i]) < key(r[j]) {
      assert Map(key, r)[i] != Map(key, r)[j];
    }
  }

  /** Sorting by a key without repeats forgets the order. */
  lemma SortForgetsOrder<T(!new)>(key: T -> int, s: seq<T>, t: seq<T>)
    requires multiset(s) == multiset(t) && NoRepeats(Map(key, s))
    ensures SortByKey(key, s) == SortByKey(key, t)
  {
    MapReordered(key, s, t);
    ReorderingNoRepeats(Map(key, s), Map(key, t));
    SortByKeyStrict(key, s);
    SortByKeyStrict(key, t);
    OneOrdering(key, SortByKey(key, s), SortByKey(key, t));
  }
}
