/**
 * The list arithmetic behind the client models' synchronisation with a server reply: what a
 * sync keeps, drops and appends, the events it fires, and the legacy updater's removal loop as
 * ArrayList's fail-fast iterator runs it.
 */
module ModelSync {
  import opened Lists
  import opened Listeners

  /** Each event delivered, in order, to the listeners `to`. */
  function Deliver<E>(events: seq<E>, to: seq<Listener>): (r: seq<Notice<E>>)
    ensures |r| == |events|
    ensures forall i :: 0 <= i < |events| ==> r[i] == Notice(events[i], to)
  {
    seq(|events|, i requires 0 <= i < |events| => Notice(events[i], to))
  }

  /** One removed event per POI, in order. */
  function Removals<P>(ps: seq<P>): (r: seq<PoiEvent<P>>)
    ensures |r| == |ps|
    ensures forall i :: 0 <= i < |ps| ==> r[i] == PoiRemoved(ps[i])
  {
    seq(|ps|, i requires 0 <= i < |ps| => PoiRemoved(ps[i]))
  }

  /** One added event per POI, in order. */
  function Additions<P>(ps: seq<P>): (r: seq<PoiEvent<P>>)
    ensures |r| == |ps|
    ensures forall i :: 0 <= i < |ps| ==> r[i] == PoiAdded(ps[i])
  {
    seq(|ps|, i requires 0 <= i < |ps| => PoiAdded(ps[i]))
  }

  lemma DeliverAppend<E>(a: seq<E>, b: seq<E>, to: seq<Listener>)
    ensures Deliver(a + b, to) == Deliver(a, to) + Deliver(b, to)
  {
  }

  /** Events delivered in two turns are the two lists of events delivered at once. */
  lemma DeliveredInTurn<E>(before: seq<Notice<E>>, a: seq<E>, b: seq<E>, to: seq<Listener>, mid: seq<Notice<E>>, after: seq<Notice<E>>)
    requires mid == before + Deliver(a, to) && after == mid + Deliver(b, to)
    ensures after == before + Deliver(a + b, to)
  {
    DeliverAppend(a, b, to);
  }

  /** The notices of the removal loop followed by those of the adding loop are a current sync's events. */
  lemma SyncNotices<P>(local: seq<P>, fetched: seq<P>, before: seq<Notice<PoiEvent<P>>>, mid: seq<Notice<PoiEvent<P>>>, after: seq<Notice<PoiEvent<P>>>, to: seq<Listener>)
    requires mid == before + Deliver(Removals(Dropped(local, fetched)), to)
    requires after == mid + Deliver(Additions(AppendAbsent(KeepIn(local, fetched), fetched)[|KeepIn(local, fetched)|..]), to)
    ensures after == before + Deliver(SyncEvents(local, fetched), to)
  {
    var kept := KeepIn(local, fetched);
    DeliveredInTurn(before, Removals(Dropped(local, fetched)), Additions(AppendAbsent(kept, fetched)[|kept|..]), to, mid, after);
  }

  lemma RemovalsAppend<P>(a: seq<P>, b: seq<P>)
    ensures Removals(a + b) == Removals(a) + Removals(b)
  {
  }

  lemma AdditionsAppend<P>(a: seq<P>, b: seq<P>)
    ensures Additions(a + b) == Additions(a) + Additions(b)
  {
  }

  lemma RemovedNotice<P>(d: seq<P>, x: P, to: seq<Listener>)
    ensures Deliver(Removals(d + [x]), to) == Deliver(Removals(d), to) + [Notice(PoiRemoved(x), to)]
  {
  }

  lemma AddedNotice<P>(d: seq<P>, x: P, to: seq<Listener>)
    ensures Deliver(Additions(d + [x]), to) == Deliver(Additions(d), to) + [Notice(PoiAdded(x), to)]
  {
  }

  /** The elements of `s` that do not occur in `keep`, in their order in `s`: what a sync removes. */
  function Dropped<T(==)>(s: seq<T>, keep: seq<T>): (r: seq<T>)
    ensures |r| <= |s|
    ensures forall i :: 0 <= i < |r| ==> r[i] in s && r[i] !in keep
  {
    if s == [] then []
    else (if s[0] in keep then [] else [s[0]]) + Dropped(s[1..], keep)
  }

  /** Every element is either kept or dropped, never both and never neither. */
  lemma {:induction false} KeptAndDropped<T>(s: seq<T>, keep: seq<T>)
    ensures multiset(KeepIn(s, keep)) + multiset(Dropped(s, keep)) == multiset(s)
  {
    if s != [] {
      KeptAndDropped(s[1..], keep);
      KeptAndDroppedStep(s, keep);
    }
  }

  lemma KeptAndDroppedStep<T>(s: seq<T>, keep: seq<T>)
    requires s != [] && multiset(KeepIn(s[1..], keep)) + multiset(Dropped(s[1..], keep)) == multiset(s[1..])
    ensures multiset(KeepIn(s, keep)) + multiset(Dropped(s, keep)) == multiset(s)
  {
    assert KeepIn(s, keep) == (if s[0] in keep then [s[0]] else []) + KeepIn(s[1..], keep);
    assert Dropped(s, keep) == (if s[0] in keep then [] else [s[0]]) + Dropped(s[1..], keep);
    assert s == [s[0]] + s[1..];
    HeadSorted(s[0], s[0] in keep, KeepIn(s[1..], keep), Dropped(s[1..], keep), s[1..]);
  }

  /** One more element, put on the kept side or on the dropped side, is one more element in all. */
  lemma HeadSorted<T>(x: T, kept: bool, k: seq<T>, d: seq<T>, t: seq<T>)
    requires multiset(k) + multiset(d) == multiset(t)
    ensures multiset((if kept then [x] else []) + k) + multiset((if kept then [] else [x]) + d) == multiset([x] + t)
  {
  }

  lemma {:induction false} DroppedAppend<T>(s: seq<T>, t: seq<T>, keep: seq<T>)
    ensures Dropped(s + t, keep) == Dropped(s, keep) + Dropped(t, keep)
  {
    if s != [] {
      DroppedAppend(s[1..], t, keep);
      assert (s + t)[0] == s[0];
      assert (s + t)[1..] == s[1..] + t;
      var head := if s[0] in keep then [] else [s[0]];
      calc {
        Dropped(s + t, keep);
        head + Dropped(s[1..] + t, keep);
        head + (Dropped(s[1..], keep) + Dropped(t, keep));
        (head + Dropped(s[1..], keep)) + Dropped(t, keep);
      }
    } else {
      assert s + t == t;
    }
  }

  /** Removing the first copy of `x` where the earlier part holds none removes exactly that one. */
  lemma RemoveFirstAfter<T>(a: seq<T>, x: T, b: seq<T>)
    requires x !in a
    ensures RemoveFirst(a + ([x] + b), x) == a + b
  {
    var s := a + ([x] + b);
    assert s[|a|] == x;
    var k := IndexOf(s, x);
    assert k == |a| by {
      assert s[..|a|] == a;
      assert x in s[..|a| + 1] by { assert s[..|a| + 1][|a|] == x; }
    }
    RemoveFirstAt(s, x);
    assert s[..|a|] == a && s[|a| + 1..] == b;
  }

  /**
   * One pass of a removal loop over a snapshot `s` of the list, at position i: with the live list
   * holding the kept part of s[..i] followed by s[i..], removing s[i] when the reply lacks it
   * leaves the kept part of s[..i + 1] followed by s[i + 1..]; a kept s[i] stays where it is.
   */
  lemma RemovalPass<T>(s: seq<T>, i: nat, keep: seq<T>)
    requires i < |s|
    ensures s[i] in keep ==> KeepIn(s[..i + 1], keep) + s[i + 1..] == KeepIn(s[..i], keep) + s[i..]
    ensures s[i] !in keep ==> RemoveFirst(KeepIn(s[..i], keep) + s[i..], s[i]) == KeepIn(s[..i + 1], keep) + s[i + 1..]
  {
    if s[i] in keep {
      KeptPass(s, i, keep);
    } else {
      DroppedPass(s, i, keep);
    }
  }

  lemma KeptPass<T>(s: seq<T>, i: nat, keep: seq<T>)
    requires i < |s| && s[i] in keep
    ensures KeepIn(s[..i + 1], keep) + s[i + 1..] == KeepIn(s[..i], keep) + s[i..]
  {
    KeptOneMore(s, i, keep);
    ShiftOne(KeepIn(s[..i], keep), s, i);
  }

  lemma DroppedPass<T>(s: seq<T>, i: nat, keep: seq<T>)
    requires i < |s| && s[i] !in keep
    ensures RemoveFirst(KeepIn(s[..i], keep) + s[i..], s[i]) == KeepIn(s[..i + 1], keep) + s[i + 1..]
  {
    var kept := KeepIn(s[..i], keep);
    KeptOneMore(s, i, keep);
    assert KeepIn(s[..i + 1], keep) == kept by {
      assert kept + [] == kept;
    }
    HeadOfSuffix(s, i);
    RemoveFirstAfter(kept, s[i], s[i + 1..]);
  }

  lemma HeadOfSuffix<T>(s: seq<T>, i: nat)
    requires i < |s|
    ensures s[i..] == [s[i]] + s[i + 1..]
  {
  }

  /** The element at `i`, moved to the end of `k`, leaves `k` followed by s[i..] as it was. */
  lemma ShiftOne<T>(k: seq<T>, s: seq<T>, i: nat)
    requires i < |s|
    ensures (k + [s[i]]) + s[i + 1..] == k + s[i..]
  {
    assert s[i..] == [s[i]] + s[i + 1..];
  }

  /** The kept part of a prefix one longer. */
  lemma KeptOneMore<T>(s: seq<T>, i: nat, keep: seq<T>)
    requires i < |s|
    ensures KeepIn(s[..i + 1], keep) == KeepIn(s[..i], keep) + (if s[i] in keep then [s[i]] else [])
    ensures s[i] !in keep ==> s[i] !in KeepIn(s[..i], keep)
  {
    assert s[..i + 1] == s[..i] + [s[i]];
    KeepInAppend(s[..i], [s[i]], keep);
    assert KeepIn([s[i]], keep) == (if s[i] in keep then [s[i]] else []) + KeepIn([], keep);
    KeepInMembers(s[..i], keep, s[i]);
  }

  /** The dropped part of a prefix one longer. */
  lemma DroppedOneMore<T>(s: seq<T>, i: nat, keep: seq<T>)
    requires i < |s|
    ensures Dropped(s[..i + 1], keep) == Dropped(s[..i], keep) + (if s[i] in keep then [] else [s[i]])
  {
    assert s[..i + 1] == s[..i] + [s[i]];
    DroppedAppend(s[..i], [s[i]], keep);
    assert Dropped([s[i]], keep) == (if s[i] in keep then [] else [s[i]]) + Dropped([], keep);
  }

  /**
   * The events of one pass of a removal loop: a removed event for s[i] when the reply lacks it,
   * none otherwise, extend the events of the passes before it.
   */
  lemma RemovalNoticesPass<P>(before: seq<Notice<PoiEvent<P>>>, s: seq<P>, i: nat, keep: seq<P>, to: seq<Listener>)
    requires i < |s|
    ensures s[i] !in keep ==>
      (before + Deliver(Removals(Dropped(s[..i], keep)), to) + [Notice(PoiRemoved(s[i]), to)]
       == before + Deliver(Removals(Dropped(s[..i + 1], keep)), to))
    ensures s[i] in keep ==> Deliver(Removals(Dropped(s[..i + 1], keep)), to) == Deliver(Removals(Dropped(s[..i], keep)), to)
  {
    var d := Dropped(s[..i], keep);
    DroppedOneMore(s, i, keep);
    if s[i] !in keep {
      RemovedNotice(d, s[i], to);
      assert before + Deliver(Removals(d), to) + [Notice(PoiRemoved(s[i]), to)]
        == before + (Deliver(Removals(d), to) + [Notice(PoiRemoved(s[i]), to)]);
    } else {
      assert d + [] == d;
    }
  }

  /**
   * One pass of an add loop over `news` at position j: what is left to append after it, from the
   * list it leaves, is what was left before it.
   */
  lemma AdditionPass<P>(s: seq<P>, news: seq<P>, j: nat)
    requires j < |news|
    ensures AppendAbsent(s, news[j..]) == AppendAbsent(if news[j] in s then s else s + [news[j]], news[j + 1..])
  {
    assert news[j..][0] == news[j];
    assert news[j..][1..] == news[j + 1..];
  }

  /** An appended POI's added event extends the events of the POIs appended after `kept` before it. */
  lemma AdditionNoticesPass<P>(before: seq<Notice<PoiEvent<P>>>, kept: seq<P>, s: seq<P>, x: P, to: seq<Listener>)
    requires |kept| <= |s|
    ensures before + Deliver(Additions(s[|kept|..]), to) + [Notice(PoiAdded(x), to)]
      == before + Deliver(Additions((s + [x])[|kept|..]), to)
  {
    var a := s[|kept|..];
    assert (s + [x])[|kept|..] == a + [x];
    AddedNotice(a, x, to);
    assert before + Deliver(Additions(a), to) + [Notice(PoiAdded(x), to)]
      == before + (Deliver(Additions(a), to) + [Notice(PoiAdded(x), to)]);
  }

  /** appendAbsent one element further: the new element is appended when absent. */
  lemma {:induction false} AppendAbsentSnoc<T>(s: seq<T>, news: seq<T>, x: T)
    ensures var t := AppendAbsent(s, news);
      AppendAbsent(s, news + [x]) == if x in t then t else t + [x]
    decreases news
  {
    if news == [] {
      assert news + [x] == [x];
      assert [x][1..] == [];
    } else {
      assert (news + [x])[0] == news[0];
      assert (news + [x])[1..] == news[1..] + [x];
      var s' := if news[0] in s then s else s + [news[0]];
      AppendAbsentSnoc(s', news[1..], x);
    }
  }

  /** What appendAbsent adds after `s` are elements of `news` that `s` lacks. */
  lemma {:induction false} AppendAbsentExtra<T>(s: seq<T>, news: seq<T>)
    ensures forall i :: |s| <= i < |AppendAbsent(s, news)| ==> AppendAbsent(s, news)[i] in news && AppendAbsent(s, news)[i] !in s
    decreases news
  {
    if news != [] {
      var s' := if news[0] in s then s else s + [news[0]];
      AppendAbsentExtra(s', news[1..]);
      var r := AppendAbsent(s, news);
      assert r == AppendAbsent(s', news[1..]);
      forall i | |s| <= i < |r|
        ensures r[i] in news && r[i] !in s
      {
        if i < |s'| {
          assert r[i] == s'[i] == news[0];
        } else {
          assert r[i] in news[1..];
        }
      }
    }
  }

  /** When every element of `news` is already present, appendAbsent adds nothing. */
  lemma {:induction false} AppendAbsentPresent<T>(s: seq<T>, news: seq<T>)
    requires forall x :: x in news ==> x in s
    ensures AppendAbsent(s, news) == s
    decreases news
  {
    if news != [] {
      assert news[0] in news;
      assert forall x :: x in news[1..] ==> x in news;
      AppendAbsentPresent(s, news[1..]);
    }
  }

  /** What appendAbsent adds depends only on which elements of `news` the list already holds. */
  lemma {:induction false} AppendAbsentSameAdds<T>(s: seq<T>, t: seq<T>, news: seq<T>)
    requires forall x :: x in news ==> (x in s <==> x in t)
    ensures AppendAbsent(s, news)[|s|..] == AppendAbsent(t, news)[|t|..]
    decreases news
  {
    if news != [] {
      var x := news[0];
      assert x in news;
      if x in s {
        SameAddsStep(s, t, news);
        AppendAbsentSameAdds(s, t, news[1..]);
      } else {
        SameAddsStep(s + [x], t + [x], news);
        AppendAbsentSameAdds(s + [x], t + [x], news[1..]);
        AppendedFirst(s, news);
        AppendedFirst(t, news);
      }
    }
  }

  /** The membership premise of AppendAbsentSameAdds carries over to the rest of `news`. */
  lemma SameAddsStep<T>(s: seq<T>, t: seq<T>, news: seq<T>)
    requires news != []
    requires forall x :: x in news ==> (x in s <==> x in t)
    ensures forall y :: y in news[1..] ==> (y in s <==> y in t)
    ensures forall y :: y in news[1..] ==> (y in s + [news[0]] <==> y in t + [news[0]])
  {
    forall y | y in news[1..]
      ensures y in news
    {
    }
  }

  /** A first element of `news` that `s` lacks is appended right after `s`. */
  lemma AppendedFirst<T>(s: seq<T>, news: seq<T>)
    requires news != [] && news[0] !in s
    ensures AppendAbsent(s, news)[|s|..] == [news[0]] + AppendAbsent(s + [news[0]], news[1..])[|s| + 1..]
  {
    var s' := s + [news[0]];
    var r := AppendAbsent(s', news[1..]);
    assert AppendAbsent(s, news) == r;
    assert r[..|s'|] == s';
    PrefixThen(r, s, news[0]);
  }

  lemma PrefixThen<T>(r: seq<T>, s: seq<T>, x: T)
    requires |s| < |r| && r[..|s| + 1] == s + [x]
    ensures r[|s|..] == [x] + r[|s| + 1..]
  {
    assert r[|s|] == (s + [x])[|s|];
  }

  /** Keeping the elements of a list all of which are kept gives it back. */
  lemma {:induction false} KeepInAll<T>(s: seq<T>, keep: seq<T>)
    requires forall x :: x in s ==> x in keep
    ensures KeepIn(s, keep) == s
  {
    if s != [] {
      assert s[0] in s;
      assert forall x :: x in s[1..] ==> x in s;
      KeepInAll(s[1..], keep);
      assert s == [s[0]] + s[1..];
    }
  }

  lemma {:induction false} KeepInKeepsDistinct<T>(s: seq<T>, keep: seq<T>)
    requires NoDuplicates(s)
    ensures NoDuplicates(KeepIn(s, keep))
  {
    if s != [] {
      assert NoDuplicates(s[1..]) by {
        forall i, j | 0 <= i < j < |s[1..]|
          ensures s[1..][i] != s[1..][j]
        {
          assert s[1..][i] == s[i + 1] && s[1..][j] == s[j + 1];
        }
      }
      KeepInKeepsDistinct(s[1..], keep);
      KeepInMembers(s[1..], keep, s[0]);
      assert s[0] !in s[1..] by {
        forall j | 0 <= j < |s[1..]|
          ensures s[1..][j] != s[0]
        {
          assert s[1..][j] == s[j + 1];
        }
      }
      var tail := KeepIn(s[1..], keep);
      var r := KeepIn(s, keep);
      if s[0] in keep {
        assert r == [s[0]] + tail;
        forall i, j | 0 <= i < j < |r|
          ensures r[i] != r[j]
        {
          if i == 0 {
            assert r[j] == tail[j - 1];
            assert tail[j - 1] in tail;
          } else {
            assert r[i] == tail[i - 1] && r[j] == tail[j - 1];
          }
        }
      } else {
        assert r == [] + tail;
      }
    }
  }

  // Syncing a local list with a reply.

  /** The current clients' sync: drop what the reply lacks, then append what the list lacks. */
  function RemoveThenAdd<T(==)>(local: seq<T>, fetched: seq<T>): seq<T> {
    AppendAbsent(KeepIn(local, fetched), fetched)
  }

  /** The legacy updater's sync as its authors meant it: append what the list lacks, then drop what the reply lacks. */
  function AddThenRemove<T(==)>(local: seq<T>, fetched: seq<T>): seq<T> {
    KeepIn(AppendAbsent(local, fetched), fetched)
  }

  /** The events a current sync fires, removals first, in order. */
  function SyncEvents<T(==)>(local: seq<T>, fetched: seq<T>): seq<PoiEvent<T>> {
    var kept := KeepIn(local, fetched);
    Removals(Dropped(local, fetched)) + Additions(AppendAbsent(kept, fetched)[|kept|..])
  }

  /** After a sync the local list holds exactly the POIs the server sent: each local one was fetched, each fetched one is local. */
  lemma RemoveThenAddMembers<T>(local: seq<T>, fetched: seq<T>, x: T)
    ensures x in RemoveThenAdd(local, fetched) <==> x in fetched
  {
    AppendAbsentMembers(KeepIn(local, fetched), fetched);
    KeepInMembers(local, fetched, x);
  }

  /** The sync keeps the local POIs the reply still has, in their local order, before any new one. */
  lemma RemoveThenAddKeepsOrder<T>(local: seq<T>, fetched: seq<T>)
    ensures var kept := KeepIn(local, fetched);
      |kept| <= |RemoveThenAdd(local, fetched)| && RemoveThenAdd(local, fetched)[..|kept|] == kept
      && forall x :: x in kept <==> x in local && x in fetched
  {
    var kept := KeepIn(local, fetched);
    forall x
      ensures x in kept <==> x in local && x in fetched
    {
      KeepInMembers(local, fetched, x);
    }
  }

  /** A sync neither duplicates a POI nor lets a repeated one in the reply in twice. */
  lemma RemoveThenAddDistinct<T>(local: seq<T>, fetched: seq<T>)
    requires NoDuplicates(local)
    ensures NoDuplicates(RemoveThenAdd(local, fetched))
  {
    KeepInKeepsDistinct(local, fetched);
    AppendAbsentKeepsDistinct(KeepIn(local, fetched), fetched);
  }

  /** Syncing again with the same reply changes nothing and fires nothing. */
  lemma SyncIdempotent<T>(local: seq<T>, fetched: seq<T>)
    ensures RemoveThenAdd(RemoveThenAdd(local, fetched), fetched) == RemoveThenAdd(local, fetched)
    ensures SyncEvents(RemoveThenAdd(local, fetched), fetched) == []
  {
    var synced := RemoveThenAdd(local, fetched);
    forall x | x in synced
      ensures x in fetched
    {
      RemoveThenAddMembers(local, fetched, x);
    }
    KeepInAll(synced, fetched);
    forall x | x in fetched
      ensures x in synced
    {
      RemoveThenAddMembers(local, fetched, x);
    }
    AppendAbsentPresent(synced, fetched);
    KeptAndDropped(synced, fetched);
    assert multiset(Dropped(synced, fetched)) == multiset{};
  }

  /** Appending first and dropping afterwards, done correctly, leaves the same list as dropping first. */
  lemma EitherOrder<T>(local: seq<T>, fetched: seq<T>)
    ensures AddThenRemove(local, fetched) == RemoveThenAdd(local, fetched)
  {
    var kept := KeepIn(local, fetched);
    var grown := AppendAbsent(local, fetched);
    var extra := grown[|local|..];
    PrefixThenRest(grown, local);
    AppendAbsentExtra(local, fetched);
    forall j | 0 <= j < |extra|
      ensures extra[j] in fetched
    {
      assert extra[j] == grown[|local| + j];
    }
    assert forall x :: x in extra ==> x in fetched;
    KeepInAll(extra, fetched);
    KeepInAppend(local, extra, fetched);
    forall x | x in fetched
      ensures x in local <==> x in kept
    {
      KeepInMembers(local, fetched, x);
    }
    AppendAbsentSameAdds(local, kept, fetched);
    var synced := AppendAbsent(kept, fetched);
    PrefixThenRest(synced, kept);
  }

  /** The intended legacy sync leaves exactly the fetched POIs. */
  lemma AddThenRemoveMembers<T>(local: seq<T>, fetched: seq<T>, x: T)
    ensures x in AddThenRemove(local, fetched) <==> x in fetched
  {
    EitherOrder(local, fetched);
    RemoveThenAddMembers(local, fetched, x);
  }

  // The legacy removal loop as written: a for-each over the very ArrayList it removes from.

  /** How the loop ends: the list left, the POIs it removed, and whether the iterator threw ConcurrentModificationException. */
  datatype SweepEnd<T> = SweepEnd(left: seq<T>, dropped: seq<T>, thrown: bool)

  /**
   * The for-each loop from iterator position `cursor` on. hasNext is `cursor != size`; next first
   * fails when the list was modified since the iterator was made. The first removal therefore
   * ends the loop: quietly when it leaves the cursor at the new size, by the exception otherwise.
   */
  function SweepAsWritten<T(==)>(s: seq<T>, cursor: nat, keep: seq<T>): (r: SweepEnd<T>)
    requires cursor <= |s|
    ensures |r.dropped| <= 1
    ensures r.dropped == [] ==> r == SweepEnd(s, [], false)
    decreases |s| - cursor
  {
    if cursor == |s| then SweepEnd(s, [], false)
    else if s[cursor] in keep then SweepAsWritten(s, cursor + 1, keep)
    else
      var t := RemoveFirst(s, s[cursor]);
      SweepEnd(t, [s[cursor]], cursor + 1 != |t|)
  }

  /** Until its first removal the loop just moves on. */
  lemma {:induction false} SweepSkipsKept<T>(s: seq<T>, c: nat, i: nat, keep: seq<T>)
    requires c <= i <= |s|
    requires forall j :: c <= j < i ==> s[j] in keep
    ensures SweepAsWritten(s, c, keep) == SweepAsWritten(s, i, keep)
    decreases i - c
  {
    if c < i {
      SweepSkipsKept(s, c + 1, i, keep);
    }
  }

  /**
   * The loop removes only the first POI the reply lacks, at index i. It ends quietly only when
   * that POI was the next-to-last; everywhere else it throws.
   */
  lemma SweepFirstDrop<T>(s: seq<T>, i: nat, keep: seq<T>)
    requires i < |s| && s[i] !in keep
    requires forall j :: 0 <= j < i ==> s[j] in keep
    ensures SweepAsWritten(s, 0, keep) == SweepEnd(s[..i] + s[i + 1..], [s[i]], i + 2 != |s|)
  {
    SweepSkipsKept(s, 0, i, keep);
    assert IndexOf(s, s[i]) == i by {
      assert s[i] !in s[..i];
      assert s[i] in s[..i + 1] by { assert s[..i + 1][i] == s[i]; }
    }
    RemoveFirstAt(s, s[i]);
  }

  /** When the reply holds every POI the loop removes nothing and ends quietly. */
  lemma SweepKeepsAll<T>(s: seq<T>, keep: seq<T>)
    requires forall j :: 0 <= j < |s| ==> s[j] in keep
    ensures SweepAsWritten(s, 0, keep) == SweepEnd(s, [], false)
  {
    SweepSkipsKept(s, 0, |s|, keep);
  }

  /**
   * An empty reply on a two-POI list: the loop removes the first POI, finds the cursor at the
   * new size and stops, so the second POI stays on the map though the server no longer has it.
   */
  lemma SweepLeavesStale<T>(a: T, b: T)
    ensures SweepAsWritten([a, b], 0, []) == SweepEnd([b], [a], false)
    ensures b !in [] && AddThenRemove([a, b], []) == []
  {
    SweepFirstDrop([a, b], 0, []);
    assert [a, b][..0] + [a, b][1..] == [b];
    assert [a, b][1..] == [b] && [b][1..] == [];
    assert KeepIn([a, b], []) == [];
  }

  /** An empty reply on a three-POI list: the first removal makes the next step of the iterator throw. */
  lemma SweepThrows<T>(a: T, b: T, c: T)
    ensures SweepAsWritten([a, b, c], 0, []).thrown
  {
    SweepFirstDrop([a, b, c], 0, []);
  }
}
