/** sds.c: splitting at a separator, and joining. */
module SdsSplit {
  import opened Bytes

  /** sep stands in s at k. */
  predicate Matches(s: bytes, k: nat, sep: bytes) {
    k + |sep| <= |s| && s[k..k + |sep|] == sep
  }

  predicate Contains(s: bytes, sep: bytes) {
    exists k :: 0 <= k <= |s| && Matches(s, k, sep)
  }

  /** Tokens with sep between them. */
  function Joined(tokens: seq<bytes>, sep: bytes): bytes {
    if tokens == [] then []
    else if |tokens| == 1 then tokens[0]
    else tokens[0] + sep + Joined(tokens[1..], sep)
  }

  /** Tokens with sep behind each. */
  function Ended(tokens: seq<bytes>, sep: bytes): bytes {
    if tokens == [] then [] else Ended(tokens[..|tokens| - 1], sep) + tokens[|tokens| - 1] + sep
  }

  /** t is what comes before the first sep in t + sep. */
  predicate Foremost(t: bytes, sep: bytes) {
    forall k :: 0 <= k < |t| ==> !Matches(t + sep, k, sep)
  }

  /** s cut at each separator, the leftmost first. */
  predicate IsCut(s: bytes, sep: bytes, tokens: seq<bytes>) {
    && tokens != [] && Joined(tokens, sep) == s
    && (forall t <- tokens :: !Contains(t, sep))
    && (forall i :: 0 <= i < |tokens| - 1 ==> Foremost(tokens[i], sep))
  }

  /** The tokens of s; an empty string has none. */
  predicate IsSplit(s: bytes, sep: bytes, tokens: seq<bytes>) {
    if s == [] then tokens == [] else IsCut(s, sep, tokens)
  }

  lemma {:induction false} JoinedEnded(tokens: seq<bytes>, t: bytes, sep: bytes)
    ensures Joined(tokens + [t], sep) == Ended(tokens, sep) + t
    decreases |tokens|
  {
    if tokens == [] {
      assert tokens + [t] == [t];
    } else {
      hide Ended;
      EndedFront(tokens, sep);
      JoinedEnded(tokens[1..], t, sep);
      assert (tokens + [t])[1..] == tokens[1..] + [t];
      assert tokens[0] + sep + (Ended(tokens[1..], sep) + t) == tokens[0] + sep + Ended(tokens[1..], sep) + t;
    }
  }

  lemma Grouped(a: bytes, b: bytes, c: bytes, d: bytes, e: bytes)
    ensures a + b + c + d + e == a + b + (c + d + e)
  {
  }

  lemma EndedLast(tokens: seq<bytes>, sep: bytes)
    requires tokens != []
    ensures Ended(tokens, sep) == Ended(tokens[..|tokens| - 1], sep) + tokens[|tokens| - 1] + sep
  {
  }

  lemma {:induction false} EndedFront(tokens: seq<bytes>, sep: bytes)
    requires tokens != []
    ensures Ended(tokens, sep) == tokens[0] + sep + Ended(tokens[1..], sep)
    decreases |tokens|
  {
    hide Ended;
    var n := |tokens| - 1;
    EndedLast(tokens, sep);
    if n == 0 {
      EndedNone(sep);
      assert tokens[..0] == [] && tokens[1..] == [];
    } else {
      var middle := tokens[..n][1..];
      EndedFront(tokens[..n], sep);
      EndedLast(tokens[1..], sep);
      assert middle == tokens[1..][..n - 1];
      Grouped(tokens[0], sep, Ended(middle, sep), tokens[n], sep);
    }
  }

  lemma EndedNone(sep: bytes)
    ensures Ended([], sep) == []
  {
  }

  lemma EndedMore(tokens: seq<bytes>, t: bytes, sep: bytes)
    ensures Ended(tokens + [t], sep) == Ended(tokens, sep) + t + sep
  {
    assert (tokens + [t])[..|tokens|] == tokens;
  }

  lemma SliceOfSlice(s: bytes, start: nat, j: nat, k: nat, n: nat)
    requires start + k + n <= j <= |s|
    ensures s[start..j][k..k + n] == s[start + k..start + k + n]
  {
    var t := s[start..j];
    assert forall i :: k <= i < k + n ==> t[i] == s[start + i];
    assert t[k..k + n] == s[start + k..start + k + n];
  }

  /** Without a match in s from start up to j, what lies between holds no separator. */
  lemma NoneBetween(s: bytes, sep: bytes, start: nat, j: nat)
    requires start <= j <= |s| && sep != []
    requires forall k :: start <= k < j ==> !Matches(s, k, sep)
    ensures !Contains(s[start..j], sep)
  {
    forall k | 0 <= k <= j - start ensures !Matches(s[start..j], k, sep) {
      if Matches(s[start..j], k, sep) {
        SliceOfSlice(s, start, j, k, |sep|);
        assert Matches(s, start + k, sep);
      }
    }
  }

  lemma FirstMatch(s: bytes, sep: bytes, start: nat, j: nat)
    requires start <= j && Matches(s, j, sep) && sep != []
    requires forall k :: start <= k < j ==> !Matches(s, k, sep)
    ensures Foremost(s[start..j], sep)
  {
    var t := s[start..j];
    assert t + sep == s[start..j + |sep|];
    forall k | 0 <= k < |t| ensures !Matches(t + sep, k, sep) {
      if Matches(t + sep, k, sep) {
        SliceOfSlice(s, start, j + |sep|, k, |sep|);
        assert Matches(s, start + k, sep);
      }
    }
  }

  lemma CutHere(before: bytes, s: bytes, start: nat, j: nat, sep: bytes)
    requires start <= j && Matches(s, j, sep) && before + s[start..] == s
    ensures before + s[start..j] + sep + s[j + |sep|..] == s
  {
    assert s[start..] == s[start..j] + (sep + s[j + |sep|..]);
  }

  lemma LastToken(s: bytes, sep: bytes, tokens: seq<bytes>, t: bytes)
    requires Joined(tokens + [t], sep) == s && !Contains(t, sep)
    requires forall t <- tokens :: !Contains(t, sep) && Foremost(t, sep)
    ensures IsCut(s, sep, tokens + [t])
  {
    hide Contains, Foremost, Joined;
  }

  /** sdssplitlen; None for an empty separator. */
  method SplitLen(s: bytes, sep: bytes) returns (tokens: Option<seq<bytes>>)
    ensures tokens.None? <==> sep == []
    ensures tokens.Some? ==> IsSplit(s, sep, tokens.value)
  {
    hide Joined, Ended, Contains, Foremost;
    EndedNone(sep);
    if sep == [] {
      return None;
    }
    if s == [] {
      return Some([]);
    }
    var elements: seq<bytes>, start, j := [], 0, 0;
    while j < |s| - (|sep| - 1)
      invariant 0 <= start <= j <= |s| && Ended(elements, sep) + s[start..] == s
      invariant forall k :: start <= k < j ==> !Matches(s, k, sep)
      invariant forall t <- elements :: !Contains(t, sep) && Foremost(t, sep)
    {
      if s[j..j + |sep|] == sep {
        NoneBetween(s, sep, start, j);
        FirstMatch(s, sep, start, j);
        EndedMore(elements, s[start..j], sep);
        CutHere(Ended(elements, sep), s, start, j, sep);
        elements := elements + [s[start..j]];
        start := j + |sep|;
        j := j + |sep| - 1;
      }
      j := j + 1;
    }
    NoneBetween(s, sep, start, |s|);
    assert s[start..|s|] == s[start..];
    JoinedEnded(elements, s[start..], sep);
    LastToken(s, sep, elements, s[start..]);
    tokens := Some(elements + [s[start..]]);
  }

  /** sdsjoinsds. */
  method JoinSds(argv: seq<bytes>, sep: bytes) returns (join: bytes)
    ensures join == Joined(argv, sep)
  {
    join := [];
    var j := 0;
    while j < |argv|
      invariant 0 <= j <= |argv|
      invariant if j < |argv| then join == Ended(argv[..j], sep) else join == Joined(argv, sep)
    {
      EndedMore(argv[..j], argv[j], sep);
      JoinedEnded(argv[..j], argv[j], sep);
      assert argv[..j + 1] == argv[..j] + [argv[j]];
      assert j == |argv| - 1 ==> argv[..j + 1] == argv;
      join := join + argv[j];
      if j != |argv| - 1 {
        join := join + sep;
      }
      j := j + 1;
    }
  }

  lemma SeparatorAt(s: bytes, sep: bytes, a: seq<bytes>)
    requires IsCut(s, sep, a) && |a| > 1
    ensures Matches(s, |a[0]|, sep) && Contains(s, sep) && s[..|a[0]| + |sep|] == a[0] + sep
  {
    assert s[|a[0]|..|a[0]| + |sep|] == sep;
    assert Matches(s, |a[0]|, sep);
  }

  lemma MatchInside(s: bytes, sep: bytes, k: nat, t: bytes)
    requires k < |t| && |t| + |sep| <= |s| && s[..|t| + |sep|] == t + sep && Matches(s, k, sep)
    ensures !Foremost(t, sep)
  {
    assert (t + sep)[k..k + |sep|] == s[k..k + |sep|];
    assert Matches(t + sep, k, sep);
  }

  /** The first of several tokens ends no later than that of another cut. */
  lemma FirstNoLonger(s: bytes, sep: bytes, a: seq<bytes>, b: seq<bytes>)
    requires sep != [] && IsCut(s, sep, a) && IsCut(s, sep, b) && |a| > 1
    ensures |b| > 1 && |b[0]| <= |a[0]|
  {
    hide Foremost, Contains, Matches;
    SeparatorAt(s, sep, a);
    if |b| > 1 {
      SeparatorAt(s, sep, b);
      if |a[0]| < |b[0]| {
        MatchInside(s, sep, |a[0]|, b[0]);
      }
    }
  }

  /** There is only one way to cut. */
  lemma {:induction false} CutUnique(s: bytes, sep: bytes, a: seq<bytes>, b: seq<bytes>)
    requires sep != [] && IsCut(s, sep, a) && IsCut(s, sep, b)
    ensures a == b
    decreases |a|
  {
    hide Foremost, Contains;
    if |a| > 1 || |b| > 1 {
      if |a| > 1 {
        FirstNoLonger(s, sep, a, b);
      }
      FirstNoLonger(s, sep, b, a);
      if |a| > 1 {
        assert a[0] == s[..|a[0]|] == b[0];
        var rest := s[|a[0]| + |sep|..];
        assert Joined(a[1..], sep) == rest == Joined(b[1..], sep);
        CutUnique(rest, sep, a[1..], b[1..]);
      }
    }
  }

  /** The tokens of a string are determined by what sdssplitlen promises of them. */
  lemma SplitUnique(s: bytes, sep: bytes, a: seq<bytes>, b: seq<bytes>)
    requires sep != [] && IsSplit(s, sep, a) && IsSplit(s, sep, b)
    ensures a == b
  {
    if s != [] {
      CutUnique(s, sep, a, b);
    }
  }

  /** Joining what was split gives the string back, and no token holds the separator. */
  method SplitThenJoin(s: bytes, sep: bytes) returns (tokens: seq<bytes>, join: bytes)
    requires sep != []
    ensures join == s && forall t <- tokens :: !Contains(t, sep)
  {
    var split := SplitLen(s, sep);
    tokens := split.value;
    join := JoinSds(tokens, sep);
  }
}
