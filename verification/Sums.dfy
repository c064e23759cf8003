/** Finite sums over sequences, as the duality argument and the weight encoding use them. */
module Sums {

  function Sum(s: seq<int>): int {
    if |s| == 0 then 0 else Sum(s[..|s| - 1]) + s[|s| - 1]
  }

  /** Replacing one entry moves the sum by exactly the difference. */
  lemma {:induction false} SumUpdate(s: seq<int>, i: nat, x: int)
    requires i < |s|
    ensures Sum(s[i := x]) == Sum(s) - s[i] + x
  {
    var k := |s| - 1;
    if i == k {
      assert s[i := x][..k] == s[..k];
    } else {
      assert s[i := x][..k] == s[..k][i := x];
      SumUpdate(s[..k], i, x);
    }
  }

  lemma {:induction false} SumOfZeros(s: seq<int>)
    requires forall i :: 0 <= i < |s| ==> s[i] == 0
    ensures Sum(s) == 0
  {
    if |s| > 0 {
      SumOfZeros(s[..|s| - 1]);
    }
  }

  lemma {:induction false} SumNonPositive(s: seq<int>)
    requires forall i :: 0 <= i < |s| ==> s[i] <= 0
    ensures Sum(s) <= 0
  {
    if |s| > 0 {
      SumNonPositive(s[..|s| - 1]);
    }
  }

  lemma SumPrefix(s: seq<int>, k: nat)
    requires k < |s|
    ensures Sum(s[..k + 1]) == Sum(s[..k]) + s[k]
  {
    assert s[..k + 1][..k] == s[..k];
  }

  lemma {:induction false} SumConcat(a: seq<int>, b: seq<int>)
    ensures Sum(a + b) == Sum(a) + Sum(b)
  {
    if |b| == 0 {
      assert a + b == a;
    } else {
      assert (a + b)[..|a + b| - 1] == a + b[..|b| - 1];
      SumConcat(a, b[..|b| - 1]);
    }
  }

  /** Sums add entry by entry. */
  lemma {:induction false} SumAdd(a: seq<int>, b: seq<int>, c: seq<int>)
    requires |a| == |b| == |c| && forall i :: 0 <= i < |a| ==> c[i] == a[i] + b[i]
    ensures Sum(c) == Sum(a) + Sum(b)
  {
    if |a| > 0 {
      SumAdd(a[..|a| - 1], b[..|a| - 1], c[..|a| - 1]);
    }
  }

  lemma {:induction false} SumMonotone(a: seq<int>, b: seq<int>)
    requires |a| == |b| && forall i :: 0 <= i < |a| ==> a[i] <= b[i]
    ensures Sum(a) <= Sum(b)
  {
    if |a| > 0 {
      SumMonotone(a[..|a| - 1], b[..|a| - 1]);
    }
  }

  /** Multiplication, named so that proofs can leave it closed. */
  function Times(x: int, y: int): (z: int)
    ensures x >= 0 && y >= 0 ==> z >= 0
  {
    x * y
  }

  lemma TimesNonNegative(x: nat, unit: nat)
    ensures Times(x, unit) >= 0
  {
  }

  lemma TimesNext(x: int, y: int)
    ensures Times(0, y) == 0 && Times(x + 1, y) == Times(x, y) + y
  {
  }

  lemma TimesMonotone(x: nat, x': nat, y: nat, y': nat)
    requires x <= x' && y <= y'
    ensures Times(x, y) <= Times(x', y')
  {
    assert x * y <= x' * y;
    assert x' * y <= x' * y';
  }

  lemma TimesSmall(unit: int)
    ensures Times(0, unit) == 0 && Times(1, unit) == unit
  {
  }

  lemma TimesStep(x: int, y: int, unit: nat)
    requires x < y
    ensures Times(x, unit) + unit <= Times(y, unit)
  {
    var d := y - x - 1;
    assert d * unit >= 0;
    assert y * unit == x * unit + unit + d * unit;
  }

  lemma TimesAdd(x: int, y: int, unit: int)
    ensures Times(x + y, unit) == Times(x, unit) + Times(y, unit)
  {
  }

  lemma {:induction false} SumScale(a: seq<int>, b: seq<int>, unit: int)
    requires |a| == |b| && forall i :: 0 <= i < |a| ==> b[i] == Times(a[i], unit)
    ensures Sum(b) == Times(Sum(a), unit)
  {
    hide Times;
    TimesSmall(unit);
    if |a| > 0 {
      SumScale(a[..|a| - 1], b[..|a| - 1], unit);
      TimesAdd(Sum(a[..|a| - 1]), a[|a| - 1], unit);
    }
  }

  /** An entry of a non-negative sequence is at most the sum. */
  lemma {:induction false} EntryAtMostSum(s: seq<int>, i: nat)
    requires i < |s| && forall j :: 0 <= j < |s| ==> s[j] >= 0
    ensures s[i] <= Sum(s)
  {
    var rest := s[i := 0];
    SumUpdate(s, i, 0);
    SumMonotone(seq(|s|, _ => 0), rest);
    SumOfZeros(seq(|s|, _ => 0));
  }

  lemma {:induction false} SumNonNegative(s: seq<int>)
    requires forall i :: 0 <= i < |s| ==> s[i] >= 0
    ensures Sum(s) >= 0
  {
    SumMonotone(seq(|s|, _ => 0), s);
    SumOfZeros(seq(|s|, _ => 0));
  }

  /** A sequence of distinct values drawn from 1..k has at most k elements. */
  lemma {:induction false} Pigeonhole(s: seq<int>, k: nat)
    requires forall i :: 0 <= i < |s| ==> 1 <= s[i] <= k
    requires forall i, j :: 0 <= i < j < |s| ==> s[i] != s[j]
    ensures |s| <= k
    decreases k
  {
    if |s| == 0 {
      return;
    }
    assert 1 <= s[0] <= k;
    if t :| 0 <= t < |s| && s[t] == k {
      Pigeonhole(s[..t] + s[t + 1..], k - 1);
    } else {
      Pigeonhole(s, k - 1);
    }
  }

  /** The sum of the entries picked by the first k indices. */
  function Picked(w: seq<int>, a: seq<int>, k: nat): int
    requires k <= |a| && forall r :: 0 <= r < |a| ==> 0 <= a[r] < |w|
  {
    if k == 0 then 0 else Picked(w, a, k - 1) + w[a[k - 1]]
  }

  lemma {:induction false} PickedUnaffected(w: seq<int>, a: seq<int>, k: nat, j: int, x: int)
    requires k <= |a| && forall r :: 0 <= r < |a| ==> 0 <= a[r] < |w|
    requires 0 <= j < |w| && forall r :: 0 <= r < k ==> a[r] != j
    ensures Picked(w[j := x], a, k) == Picked(w, a, k)
  {
    if k > 0 {
      PickedUnaffected(w, a, k - 1, j, x);
    }
  }

  /** Distinct indices pick up at least the sum of non-positive entries. */
  lemma {:induction false} PickedAtLeast(w: seq<int>, a: seq<int>, k: nat)
    requires k <= |a| && forall r :: 0 <= r < |a| ==> 0 <= a[r] < |w|
    requires forall r, s :: 0 <= r < s < k ==> a[r] != a[s]
    requires forall j :: 0 <= j < |w| ==> w[j] <= 0
    ensures Picked(w, a, k) >= Sum(w)
    decreases k
  {
    if k == 0 {
      SumNonPositive(w);
    } else {
      PickedAtLeast(w[a[k - 1] := 0], a, k - 1);
      PickedUnaffected(w, a, k - 1, a[k - 1], 0);
      SumUpdate(w, a[k - 1], 0);
    }
  }

  /** They pick up exactly the sum when every entry left out is zero; `p` gives, 1-based, the
      position at which an entry is picked. */
  lemma {:induction false} PickedExactly(w: seq<int>, a: seq<int>, p: seq<int>, k: nat)
    requires k <= |a| && |p| == |w| && forall r :: 0 <= r < |a| ==> 0 <= a[r] < |w|
    requires forall r, s :: 0 <= r < s < k ==> a[r] != a[s]
    requires forall j :: 0 <= j < |w| && w[j] != 0 ==> 1 <= p[j] <= k && a[p[j] - 1] == j
    ensures Picked(w, a, k) == Sum(w)
    decreases k
  {
    if k == 0 {
      SumOfZeros(w);
    } else {
      PickedExactly(w[a[k - 1] := 0], a, p, k - 1);
      PickedUnaffected(w, a, k - 1, a[k - 1], 0);
      SumUpdate(w, a[k - 1], 0);
    }
  }

  lemma {:induction false} PickedIsSum(w: seq<int>, a: seq<int>, b: seq<int>)
    requires |a| == |b| && forall r :: 0 <= r < |a| ==> 0 <= a[r] < |w| && b[r] == w[a[r]]
    ensures Picked(w, a, |a|) == Sum(b)
  {
    PickedPrefix(w, a, b, |a|);
    assert b[..|a|] == b;
  }

  lemma {:induction false} PickedPrefix(w: seq<int>, a: seq<int>, b: seq<int>, k: nat)
    requires |a| == |b| && forall r :: 0 <= r < |a| ==> 0 <= a[r] < |w| && b[r] == w[a[r]]
    requires k <= |a|
    ensures Picked(w, a, k) == Sum(b[..k])
  {
    if k > 0 {
      PickedPrefix(w, a, b, k - 1);
      SumPrefix(b, k - 1);
    }
  }

  /** Distinct indices pick up at most the sum of non-negative entries. */
  lemma {:induction false} PickedAtMost(w: seq<int>, a: seq<int>, k: nat)
    requires k <= |a| && forall r :: 0 <= r < |a| ==> 0 <= a[r] < |w|
    requires forall r, s :: 0 <= r < s < k ==> a[r] != a[s]
    requires forall j :: 0 <= j < |w| ==> w[j] >= 0
    ensures Picked(w, a, k) <= Sum(w)
    decreases k
  {
    if k == 0 {
      SumNonNegative(w);
    } else {
      PickedAtMost(w[a[k - 1] := 0], a, k - 1);
      PickedUnaffected(w, a, k - 1, a[k - 1], 0);
      SumUpdate(w, a[k - 1], 0);
    }
  }

  /** A prefix and part of the next entry stay within the sum of non-negative entries. */
  lemma {:induction false} PrefixAtMostSum(s: seq<int>, i: nat, x: int)
    requires i < |s| && x <= s[i] && forall j :: 0 <= j < |s| ==> s[j] >= 0
    ensures Sum(s[..i]) + x <= Sum(s)
    decreases |s|
  {
    var k := |s| - 1;
    if i < k {
      PrefixAtMostSum(s[..k], i, x);
      assert s[..k][..i] == s[..i];
    } else {
      assert s[..i] == s[..k];
    }
  }
}
