/** The ordered lists the keymap keeps in fixed arrays (the layer stack and
    the pending one-shot keys), and the removal rule both use: take out the
    first matching entry and close the gap, keeping the order of the rest. */
module Lists {

  /** The position of the first occurrence of `x` in `s`. */
  function FirstIndex<T(==)>(s: seq<T>, x: T): (i: nat)
    requires x in s
    ensures i < |s| && s[i] == x
    ensures forall j :: 0 <= j < i ==> s[j] != x
  {
    if s[0] == x then 0
    else
      assert x in s[1..] by { assert s == [s[0]] + s[1..]; }
      1 + FirstIndex(s[1..], x)
  }

  /** `s` without its first occurrence of `x`; `s` itself when `x` is absent. */
  function RemoveFirst<T(==)>(s: seq<T>, x: T): (r: seq<T>)
    ensures x in s ==> |r| == |s| - 1
    ensures x !in s ==> r == s
  {
    if s == [] then []
    else if s[0] == x then s[1..]
    else
      assert x in s ==> x in s[1..] by { assert s == [s[0]] + s[1..]; }
      [s[0]] + RemoveFirst(s[1..], x)
  }

  /** Removal takes out one copy of `x` and nothing else. */
  lemma {:induction false} RemoveFirstCount<T>(s: seq<T>, x: T)
    ensures multiset(RemoveFirst(s, x)) == multiset(s) - multiset{x}
  {
    if s != [] {
      assert s == [s[0]] + s[1..];
      if s[0] != x {
        RemoveFirstCount(s[1..], x);
      }
    }
  }

  /** Cutting the tail of `s` at `j` is cutting `s` at `j + 1`. */
  lemma ConsCut<T>(s: seq<T>, j: nat)
    requires j + 1 < |s|
    ensures [s[0]] + (s[1..][..j] + s[1..][j + 1..]) == s[..j + 1] + s[j + 2..]
  {
    assert [s[0]] + s[1..][..j] == s[..j + 1];
    assert s[1..][j + 1..] == s[j + 2..];
  }

  /** Removal closes the gap at a position `i` holding the first `x`. */
  lemma {:induction false} RemoveFirstAt<T>(s: seq<T>, x: T, i: nat)
    requires i < |s| && s[i] == x && forall j :: 0 <= j < i ==> s[j] != x
    ensures RemoveFirst(s, x) == s[..i] + s[i + 1..]
  {
    if i == 0 {
      assert s[..0] + s[1..] == s[1..];
    } else {
      RemoveFirstAt(s[1..], x, i - 1);
      ConsCut(s, i - 1);
    }
  }

  /** Removal closes the gap at the first match: everything before it and
      everything after it stays, in order. */
  lemma RemoveFirstSplit<T>(s: seq<T>, x: T)
    requires x in s
    ensures RemoveFirst(s, x) == s[..FirstIndex(s, x)] + s[FirstIndex(s, x) + 1..]
  {
    RemoveFirstAt(s, x, FirstIndex(s, x));
  }

  /** Removal skips a prefix that does not hold `x`. */
  lemma {:induction false} RemoveFirstAfterPrefix<T>(t: seq<T>, u: seq<T>, x: T)
    requires x !in t
    ensures RemoveFirst(t + u, x) == t + RemoveFirst(u, x)
  {
    if t == [] {
      assert t + u == u;
    } else {
      assert (t + u)[0] == t[0] && (t + u)[1..] == t[1..] + u;
      assert x !in t[1..] by { assert t == [t[0]] + t[1..]; }
      RemoveFirstAfterPrefix(t[1..], u, x);
      assert t == [t[0]] + t[1..];
    }
  }

  /** Removal keeps only elements that were there. */
  lemma RemoveFirstSubset<T>(s: seq<T>, x: T, y: T)
    requires y in RemoveFirst(s, x)
    ensures y in s
  {
    RemoveFirstCount(s, x);
    assert y in multiset(RemoveFirst(s, x));
  }

  /** The last element of a list, or `base` for the empty list. */
  function LastOr<T>(s: seq<T>, base: T): (r: T)
    ensures s != [] ==> r == s[|s| - 1]
    ensures s == [] ==> r == base
  {
    if s == [] then base else s[|s| - 1]
  }
}
