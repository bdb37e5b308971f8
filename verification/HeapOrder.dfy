/** Binary heap order on sequences of keys, with positions counted from 1 as the timer manager counts them. */
module HeapOrder {

  /** The key at position i is not below its parent's. */
  predicate Below(k: seq<int>, i: nat)
    requires 2 <= i <= |k|
  {
    k[i / 2 - 1] <= k[i - 1]
  }

  predicate Ordered(k: seq<int>) {
    forall i :: 2 <= i <= |k| ==> Below(k, i)
  }

  /** The children of p are not below p's parent. */
  predicate Grand(k: seq<int>, p: nat)
    requires 1 <= p <= |k|
  {
    p >= 2 ==> (2 * p <= |k| ==> k[p / 2 - 1] <= k[2 * p - 1]) && (2 * p < |k| ==> k[p / 2 - 1] <= k[2 * p])
  }

  /** Ordered, but for what involves position p. */
  predicate Around(k: seq<int>, p: nat) {
    1 <= p <= |k| && Grand(k, p) && forall i :: 2 <= i <= |k| && i != p && i / 2 != p ==> Below(k, i)
  }

  /** Ordered, but for p and its children. */
  predicate OnlyDown(k: seq<int>, p: nat) {
    1 <= p <= |k| && Grand(k, p) && forall i :: 2 <= i <= |k| && i / 2 != p ==> Below(k, i)
  }

  /** Ordered, but for p and its parent. */
  predicate OnlyUp(k: seq<int>, p: nat) {
    1 <= p <= |k| && Grand(k, p) && forall i :: 2 <= i <= |k| && i != p ==> Below(k, i)
  }

  function Swapped<T>(s: seq<T>, i: nat, j: nat): (r: seq<T>)
    requires 1 <= i <= |s| && 1 <= j <= |s|
    ensures |r| == |s| && r[i - 1] == s[j - 1] && r[j - 1] == s[i - 1]
    ensures forall x :: 0 <= x < |s| && x != i - 1 && x != j - 1 ==> r[x] == s[x]
  {
    s[i - 1 := s[j - 1]][j - 1 := s[i - 1]]
  }

  /** The smaller child of p, if it is smaller than p; p otherwise. */
  function Least(k: seq<int>, p: nat): (m: nat)
    requires 1 <= p <= |k|
    ensures m == p || (m / 2 == p && 2 <= m <= |k| && k[m - 1] < k[p - 1])
    ensures forall i :: 2 <= i <= |k| && i / 2 == p ==> k[m - 1] <= k[i - 1]
  {
    var m := if 2 * p <= |k| && k[2 * p - 1] < k[p - 1] then 2 * p else p;
    if 2 * p + 1 <= |k| && k[2 * p] < k[m - 1] then 2 * p + 1 else m
  }

  /** Nothing below p is out of order. */
  lemma NoLesser(k: seq<int>, p: nat)
    requires 1 <= p <= |k| && Least(k, p) == p
    ensures Around(k, p) ==> OnlyUp(k, p)
    ensures OnlyDown(k, p) ==> Ordered(k)
  {
  }

  /** A step down moves the disorder down, and mends what was above. */
  lemma StepDown(k: seq<int>, p: nat)
    requires Around(k, p) && Least(k, p) != p
    ensures OnlyDown(Swapped(k, p, Least(k, p)), Least(k, p))
  {
    var m := Least(k, p);
    var r := Swapped(k, p, m);
    forall i | 2 <= i <= |r| && i / 2 != m ensures Below(r, i) {
      if i != p && i / 2 != p {
        assert Below(k, i);
      }
    }
    if 2 * m <= |k| {
      assert Below(k, 2 * m);
    }
    if 2 * m + 1 <= |k| {
      assert Below(k, 2 * m + 1);
    }
  }

  /** A step up moves the disorder up. */
  lemma StepUp(k: seq<int>, p: nat)
    requires OnlyUp(k, p) && p >= 2 && k[p - 1] < k[p / 2 - 1]
    ensures OnlyUp(Swapped(k, p, p / 2), p / 2)
  {
    var q := p / 2;
    var r := Swapped(k, p, q);
    forall i | 2 <= i <= |r| && i != q ensures Below(r, i) {
      if i / 2 == p {
        assert k[q - 1] <= k[i - 1];
      } else if i != p {
        assert Below(k, i);
      }
    }
    if q >= 2 {
      assert Below(k, q);
      assert 2 * q <= |k| && 2 * q != p ==> Below(k, 2 * q);
      assert 2 * q < |k| && 2 * q + 1 != p ==> Below(k, 2 * q + 1);
    }
  }

  lemma UpDone(k: seq<int>, p: nat)
    requires OnlyUp(k, p) && (p == 1 || k[p / 2 - 1] <= k[p - 1])
    ensures Ordered(k)
  {
  }

  /** The root is a minimum. */
  lemma {:induction false} RootLeast(k: seq<int>, i: nat)
    requires Ordered(k) && 1 <= i <= |k|
    ensures k[0] <= k[i - 1]
  {
    if i >= 2 {
      assert Below(k, i);
      RootLeast(k, i / 2);
    }
  }

  /** Putting any key in one place of an ordered heap leaves disorder there only. */
  lemma Replaced(k: seq<int>, p: nat, x: int)
    requires Ordered(k) && 1 <= p <= |k|
    ensures Around(k[p - 1 := x], p)
  {
    var r := k[p - 1 := x];
    forall i | 2 <= i <= |r| && i != p && i / 2 != p ensures Below(r, i) {
      assert Below(k, i);
    }
    if p >= 2 {
      assert Below(k, p);
      assert 2 * p <= |k| ==> Below(k, 2 * p);
      assert 2 * p < |k| ==> Below(k, 2 * p + 1);
    }
  }

  lemma Shorter(k: seq<int>)
    requires Ordered(k) && k != []
    ensures Ordered(k[..|k| - 1])
  {
    var r := k[..|k| - 1];
    forall i | 2 <= i <= |r| ensures Below(r, i) {
      assert Below(k, i);
    }
  }

  lemma Appended(k: seq<int>, x: int)
    requires Ordered(k)
    ensures OnlyUp(k + [x], |k| + 1)
  {
    var r := k + [x];
    forall i | 2 <= i <= |r| && i != |r| ensures Below(r, i) {
      assert Below(k, i);
    }
  }

  lemma NoKeys()
    ensures Ordered([])
  {
  }

  /** The last key in the place of the first. */
  lemma RootReplaced(k: seq<int>)
    requires Ordered(k) && |k| >= 2
    ensures var r := Swapped(k, 1, |k|)[..|k| - 1];
            Around(r, 1) && OnlyDown(r, 1)
  {
    var n := |k| - 1;
    Shorter(k);
    Replaced(k[..n], 1, k[n]);
    assert k[..n][0 := k[n]] == Swapped(k, 1, |k|)[..n];
  }

  /** The last key in place p. */
  lemma PlaceReplaced(k: seq<int>, p: nat)
    requires Ordered(k) && 1 <= p < |k|
    ensures Around(Swapped(k, p, |k|)[..|k| - 1], p)
  {
    var n := |k| - 1;
    Shorter(k);
    Replaced(k[..n], p, k[n]);
    assert k[..n][p - 1 := k[n]] == Swapped(k, p, |k|)[..n];
  }
}
