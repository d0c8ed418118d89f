/**
 * The java.util collection operations the stores and models share, on sequences
 * compared with `==` (which plays the part of the elements' `equals`).
 */
module Lists {

  /** List.remove(Object) and Deque.remove(Object): drop the first element equal to `x`. */
  function RemoveFirst<T(==)>(s: seq<T>, x: T): (r: seq<T>)
    ensures x !in s ==> r == s
    ensures x in s ==> |r| == |s| - 1
    ensures multiset(r) == multiset(s) - multiset{x}
  {
    if s == [] then []
    else
      assert s == [s[0]] + s[1..];
      if s[0] == x then s[1..]
      else [s[0]] + RemoveFirst(s[1..], x)
  }

  /** The first index at which `x` occurs in `s`, or |s| when it does not. */
  function IndexOf<T(==)>(s: seq<T>, x: T): (i: nat)
    ensures i <= |s|
    ensures i < |s| <==> x in s
    ensures i < |s| ==> s[i] == x
    ensures x !in s[..i]
  {
    if s == [] then 0
    else if s[0] == x then 0
    else
      assert s[1..][..IndexOf(s[1..], x)] == s[1..1 + IndexOf(s[1..], x)];
      1 + IndexOf(s[1..], x)
  }

  lemma {:induction false} RemoveFirstAt<T>(s: seq<T>, x: T)
    requires x in s
    ensures RemoveFirst(s, x) == s[..IndexOf(s, x)] + s[IndexOf(s, x) + 1..]
  {
    if s[0] != x {
      var j := IndexOf(s[1..], x);
      RemoveFirstAt(s[1..], x);
      RemoveFirstAtStep(s, x, j);
    } else {
      assert s[..0] + s[1..] == s[1..];
    }
  }

  lemma RemoveFirstAtStep<T>(s: seq<T>, x: T, j: nat)
    requires s != [] && s[0] != x && x in s[1..] && j == IndexOf(s[1..], x)
    requires RemoveFirst(s[1..], x) == s[1..][..j] + s[1..][j + 1..]
    ensures RemoveFirst(s, x) == s[..IndexOf(s, x)] + s[IndexOf(s, x) + 1..]
  {
    assert IndexOf(s, x) == j + 1;
    assert RemoveFirst(s, x) == [s[0]] + RemoveFirst(s[1..], x);
    ConsDropped(s, j);
  }

  /** Dropping the element after index `j` of the tail, with the head put back, drops the element at `j + 1`. */
  lemma ConsDropped<T>(s: seq<T>, j: nat)
    requires j + 1 < |s|
    ensures [s[0]] + (s[1..][..j] + s[1..][j + 1..]) == s[..j + 1] + s[j + 2..]
  {
    assert [s[0]] + s[1..][..j] == s[..j + 1];
    assert s[1..][j + 1..] == s[j + 2..];
  }

  lemma Associative<T>(a: seq<T>, b: seq<T>, c: seq<T>)
    ensures a + b + c == a + (b + c)
  {
  }

  /** A prefix of a prefix is a prefix. */
  lemma PrefixOfPrefix<T>(a: seq<T>, b: seq<T>, c: seq<T>)
    requires |a| <= |b| <= |c| && b[..|a|] == a && c[..|b|] == b
    ensures c[..|a|] == a
  {
    assert c[..|a|] == c[..|b|][..|a|];
  }

  /** A list that starts with `p` is `p` followed by the rest. */
  lemma PrefixThenRest<T>(s: seq<T>, p: seq<T>)
    requires |p| <= |s| && s[..|p|] == p
    ensures s == p + s[|p|..]
  {
  }

  /** Dropping the element at `i` takes one occurrence of it out of the list's multiset. */
  lemma DropAt<T>(s: seq<T>, i: nat)
    requires i < |s|
    ensures |s[..i] + s[i + 1..]| == |s| - 1 && multiset(s[..i] + s[i + 1..]) == multiset(s) - multiset{s[i]}
  {
    assert s == s[..i] + [s[i]] + s[i + 1..];
  }

  /** Setting a field of the first element equal to `x` (an object held in the list) to give `y`. */
  function ReplaceFirst<T(==)>(s: seq<T>, x: T, y: T): (r: seq<T>)
    ensures |r| == |s|
  {
    if s == [] then []
    else if s[0] == x then [y] + s[1..]
    else [s[0]] + ReplaceFirst(s[1..], x, y)
  }

  lemma {:induction false} ReplaceFirstAt<T>(s: seq<T>, x: T, y: T)
    requires x in s
    ensures ReplaceFirst(s, x, y) == s[IndexOf(s, x) := y]
  {
    if s[0] != x {
      var t := s[1..];
      ReplaceFirstAt(t, x, y);
      assert IndexOf(s, x) == 1 + IndexOf(t, x);
      assert [s[0]] + t[IndexOf(t, x) := y] == s[IndexOf(s, x) := y];
    }
  }

  lemma {:induction false} ReplaceFirstAbsent<T>(s: seq<T>, x: T, y: T)
    requires x !in s
    ensures ReplaceFirst(s, x, y) == s
  {
    if s != [] {
      ReplaceFirstAbsent(s[1..], x, y);
      assert [s[0]] + s[1..] == s;
    }
  }

  /** The element replaced leaves the multiset of values and its replacement enters it. */
  lemma ReplaceFirstMultiset<T>(s: seq<T>, x: T, y: T)
    ensures multiset(ReplaceFirst(s, x, y)) == if x in s then multiset(s) - multiset{x} + multiset{y} else multiset(s)
  {
    if x in s {
      ReplaceFirstAt(s, x, y);
    } else {
      ReplaceFirstAbsent(s, x, y);
    }
  }

  /** A value appended last, and found nowhere before, is the one replaced. */
  lemma ReplaceFirstLast<T>(s: seq<T>, x: T, y: T)
    requires x !in s
    ensures ReplaceFirst(s + [x], x, y) == s + [y]
  {
    ReplaceFirstAt(s + [x], x, y);
    assert (s + [x])[..|s|] == s;
    assert IndexOf(s + [x], x) == |s|;
  }

  lemma ReplaceFirstCons<T>(x: T, t: seq<T>, a: T, b: T)
    ensures ReplaceFirst([x] + t, a, b) == if x == a then [b] + t else [x] + ReplaceFirst(t, a, b)
  {
    assert ([x] + t)[0] == x && ([x] + t)[1..] == t;
  }

  lemma RemoveFirstCons<T>(x: T, t: seq<T>, a: T)
    ensures RemoveFirst([x] + t, a) == if x == a then t else [x] + RemoveFirst(t, a)
  {
    assert ([x] + t)[0] == x && ([x] + t)[1..] == t;
  }

  /** Appending, one by one, each element of `news` that is not already present (`contains` on the live list). */
  function AppendAbsent<T(==)>(s: seq<T>, news: seq<T>): (r: seq<T>)
    ensures |s| <= |r| <= |s| + |news|
    ensures r[..|s|] == s
    decreases news
  {
    if news == [] then s
    else AppendAbsent(if news[0] in s then s else s + [news[0]], news[1..])
  }

  lemma {:induction false} AppendAbsentMembers<T>(s: seq<T>, news: seq<T>)
    ensures forall x :: x in AppendAbsent(s, news) <==> x in s || x in news
    decreases news
  {
    if news != [] {
      var s' := if news[0] in s then s else s + [news[0]];
      AppendAbsentMembers(s', news[1..]);
      assert news == [news[0]] + news[1..];
    }
  }

  /** No element occurs twice. */
  predicate NoDuplicates<T(==)>(s: seq<T>) {
    forall i, j :: 0 <= i < j < |s| ==> s[i] != s[j]
  }

  lemma {:induction false} AppendAbsentKeepsDistinct<T>(s: seq<T>, news: seq<T>)
    requires NoDuplicates(s)
    ensures NoDuplicates(AppendAbsent(s, news))
    decreases news
  {
    if news != [] {
      var s' := if news[0] in s then s else s + [news[0]];
      AppendAbsentKeepsDistinct(s', news[1..]);
    }
  }

  /** The elements of `s` that occur in `keep`, in their order in `s`. */
  function KeepIn<T(==)>(s: seq<T>, keep: seq<T>): (r: seq<T>)
    ensures |r| <= |s|
    ensures forall i :: 0 <= i < |r| ==> r[i] in s && r[i] in keep
  {
    if s == [] then []
    else (if s[0] in keep then [s[0]] else []) + KeepIn(s[1..], keep)
  }

  lemma {:induction false} KeepInMembers<T>(s: seq<T>, keep: seq<T>, x: T)
    ensures x in KeepIn(s, keep) <==> x in s && x in keep
  {
    if s != [] {
      KeepInMembers(s[1..], keep, x);
      assert s == [s[0]] + s[1..];
    }
  }

  lemma {:induction false} KeepInAppend<T>(s: seq<T>, t: seq<T>, keep: seq<T>)
    ensures KeepIn(s + t, keep) == KeepIn(s, keep) + KeepIn(t, keep)
  {
    if s != [] {
      KeepInAppend(s[1..], t, keep);
      assert (s + t)[0] == s[0];
      assert (s + t)[1..] == s[1..] + t;
      var head := if s[0] in keep then [s[0]] else [];
      calc {
        KeepIn(s + t, keep);
        KeepIn([(s + t)[0]] + (s + t)[1..], keep);
        head + KeepIn(s[1..] + t, keep);
        head + (KeepIn(s[1..], keep) + KeepIn(t, keep));
        (head + KeepIn(s[1..], keep)) + KeepIn(t, keep);
      }
    } else {
      assert s + t == t;
    }
  }

  /** A window of `s` that holds `a + b` holds `a`, then `b`. */
  lemma SliceConcat<T>(s: seq<T>, k: nat, c: seq<T>, a: seq<T>, b: seq<T>)
    requires c == a + b && k + |c| <= |s| && s[k..k + |c|] == c
    ensures k + |a| + |b| <= |s| && s[k..k + |a|] == a && s[k + |a|..k + |a| + |b|] == b
  {
    assert s[k..k + |a|] == c[..|a|];
    assert s[k + |a|..k + |a| + |b|] == c[|a|..];
  }

  /** Adding a value to a multiset and taking it away again gives the multiset back. */
  lemma AddThenTake<T>(m: multiset<T>, x: T)
    ensures m + multiset{x} - multiset{x} == m
  {
    assert forall y :: (m + multiset{x} - multiset{x})[y] == m[y];
  }
}
