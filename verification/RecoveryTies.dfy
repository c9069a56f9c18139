/**
 What ties leave open. Records that share time, source and message id may be ingested in any
 order; this says what becomes of the Store.

 Main results: the value a key ends with is determined by the records alone if and only if
 the newest records of that key agree on it (`ValueDeterminedExactly`); and without ties
 between different records of one key the whole Store is (`StoreDetermined`): ties between
 keys are harmless.
 */
module RecoveryTies {
  import opened MonitorData
  import opened MonitorStore
  import opened InboxRecovery

  function KeyOf(x: Item): (k: Key) {
    x.record.data.key
  }

  function ValueOf(x: Item): (v: Value) {
    x.record.data.value
  }

  /** Nothing of its key comes after it. */
  ghost predicate Latest(items: seq<Item>, x: Item) {
    x in items && forall y <- items :: KeyOf(y) == KeyOf(x) ==> !Precedes(x, y)
  }

  ghost predicate NewestAgree(items: seq<Item>, k: Key) {
    forall x, y :: Latest(items, x) && Latest(items, y) && KeyOf(x) == k && KeyOf(y) == k ==>
      SameValue(ValueOf(x), ValueOf(y))
  }

  /** Both Stores hold the key, with values the Store takes for equal. */
  ghost predicate HoldSame(a: Records, b: Records, k: Key) {
    k in a && k in b && SameValue(a[k].data.value, b[k].data.value)
  }

  ghost predicate ValueDetermined(items: seq<Item>, k: Key) {
    forall before: Records, s, t :: Arrangement(s, items) && Arrangement(t, items) ==>
      HoldSame(IngestAll(before, s), IngestAll(before, t), k)
  }

  ghost predicate Proper(items: seq<Item>) {
    forall x <- items :: !ValueOf(x).Valueless?
  }

  // ----- the last of a key -----

  ghost predicate LastOf(s: seq<Item>, i: nat, k: Key) {
    i < |s| && KeyOf(s[i]) == k && forall j :: i < j < |s| ==> KeyOf(s[j]) != k
  }

  lemma {:induction false} FindLast(s: seq<Item>, k: Key) returns (i: nat)
    requires exists x <- s :: KeyOf(x) == k
    ensures LastOf(s, i, k)
  {
    i := |s| - 1;
    if KeyOf(s[i]) != k {
      assert s == s[..i] + [s[i]];
      i := FindLast(s[..|s| - 1], k);
    }
  }

  lemma LastIsLatest(s: seq<Item>, items: seq<Item>, i: nat, k: Key)
    requires Arrangement(s, items) && LastOf(s, i, k)
    ensures Latest(items, s[i])
  {
    SameMembers(s, items);
    forall y <- items | KeyOf(y) == k ensures !Precedes(s[i], y) {
      assert y in s;
      var j :| 0 <= j < |s| && s[j] == y;
      PrecedesOrders(s[i], s[i]);
    }
  }

  lemma FinalIsLast(before: Records, s: seq<Item>, i: nat, k: Key)
    requires LastOf(s, i, k) && Proper(s)
    ensures var final := IngestAll(before, s); k in final && SameValue(ValueOf(s[i]), final[k].data.value)
  {
    assert !ValueOf(s[i]).Valueless?;
    LastOfKeyStays(before, s, i);
  }

  /** Any of the newest records can be the last of its key. */
  lemma MakeLast(items: seq<Item>, x: Item) returns (s: seq<Item>, i: nat)
    requires Latest(items, x)
    ensures Arrangement(s, items) && LastOf(s, i, KeyOf(x)) && s[i] == x
  {
    var a := SomeArrangement(items);
    SameMembers(a, items);
    i := FindLast(a, KeyOf(x));
    LastIsLatest(a, items, i, KeyOf(x));
    if a[i] == x {
      return a, i;
    }
    assert x in a && a[i] in items;
    var p :| 0 <= p < |a| && a[p] == x;
    s := Exchange(a, p, i);
  }

  lemma ArrangementIsProper(s: seq<Item>, items: seq<Item>, k: Key)
    requires Arrangement(s, items) && Proper(items) && exists x <- items :: KeyOf(x) == k
    ensures Proper(s) && exists x <- s :: KeyOf(x) == k
  {
    SameMembers(s, items);
    var x :| x in items && KeyOf(x) == k;
    assert x in s;
  }

  lemma AgreeingNewestDecide(before: Records, items: seq<Item>, s: seq<Item>, t: seq<Item>, k: Key)
    requires Proper(items) && (exists x <- items :: KeyOf(x) == k) && NewestAgree(items, k)
    requires Arrangement(s, items) && Arrangement(t, items)
    ensures HoldSame(IngestAll(before, s), IngestAll(before, t), k)
  {
    ArrangementIsProper(s, items, k);
    ArrangementIsProper(t, items, k);
    var i := FindLast(s, k);
    var j := FindLast(t, k);
    LastIsLatest(s, items, i, k);
    LastIsLatest(t, items, j, k);
    FinalIsLast(before, s, i, k);
    FinalIsLast(before, t, j, k);
  }

  lemma DisagreeingNewestLeaveChoice(items: seq<Item>, x: Item, y: Item)
    requires Proper(items) && Latest(items, x) && Latest(items, y) && KeyOf(x) == KeyOf(y)
    requires !SameValue(ValueOf(x), ValueOf(y))
    ensures !ValueDetermined(items, KeyOf(x))
  {
    var k := KeyOf(x);
    var s, i := MakeLast(items, x);
    var t, j := MakeLast(items, y);
    ArrangementIsProper(s, items, k);
    ArrangementIsProper(t, items, k);
    FinalIsLast(map[], s, i, k);
    FinalIsLast(map[], t, j, k);
    assert !HoldSame(IngestAll(map[], s), IngestAll(map[], t), k);
  }

  /** The value of a key is determined by the records if and only if the newest of its records agree. */
  lemma ValueDeterminedExactly(items: seq<Item>, k: Key)
    requires Proper(items) && exists x <- items :: KeyOf(x) == k
    ensures ValueDetermined(items, k) <==> NewestAgree(items, k)
  {
    if NewestAgree(items, k) {
      forall before: Records, s, t | Arrangement(s, items) && Arrangement(t, items)
        ensures HoldSame(IngestAll(before, s), IngestAll(before, t), k)
      {
        AgreeingNewestDecide(before, items, s, t, k);
      }
    } else {
      var x, y :| Latest(items, x) && Latest(items, y) && KeyOf(x) == k && KeyOf(y) == k &&
        !SameValue(ValueOf(x), ValueOf(y));
      DisagreeingNewestLeaveChoice(items, x, y);
    }
  }

  // ----- ties between keys -----

  function Only(s: seq<Item>, k: Key): (t: seq<Item>) {
    if |s| == 0 then []
    else
      var last := s[|s| - 1];
      Only(s[..|s| - 1], k) + (if KeyOf(last) == k then [last] else [])
  }

  /** A key sees its own records only. */
  lemma {:induction false} KeySeesItsOwn(before: Records, s: seq<Item>, k: Key)
    ensures var a, b := IngestAll(before, s), IngestAll(before, Only(s, k));
      (k in a <==> k in b) && (k in a ==> a[k] == b[k])
  {
    if |s| > 0 {
      var front, last := s[..|s| - 1], s[|s| - 1];
      KeySeesItsOwn(before, front, k);
      if KeyOf(last) == k {
        assert (Only(front, k) + [last])[..|Only(front, k)|] == Only(front, k);
      } else {
        assert Only(s, k) == Only(front, k);
      }
    }
  }

  lemma {:induction false} OnlyCounts(s: seq<Item>, k: Key, x: Item)
    ensures multiset(Only(s, k))[x] == if KeyOf(x) == k then multiset(s)[x] else 0
  {
    if |s| > 0 {
      var front, last := s[..|s| - 1], s[|s| - 1];
      assert s == front + [last];
      OnlyCounts(front, k, x);
    }
  }

  lemma {:induction false} OnlyIsOrdered(s: seq<Item>, k: Key)
    requires Ordered(s)
    ensures Ordered(Only(s, k)) && forall x <- Only(s, k) :: x in s && KeyOf(x) == k
  {
    if |s| > 0 {
      var front, last := s[..|s| - 1], s[|s| - 1];
      OnlyIsOrdered(front, k);
      forall x <- Only(front, k) ensures !Precedes(last, x) {
        assert x in front;
        var i :| 0 <= i < |front| && front[i] == x;
      }
    }
  }

  /** Different records that tie are of different keys. */
  ghost predicate NoTiesInKeys(items: seq<Item>) {
    forall x, y :: x in items && y in items && Tied(x, y) && KeyOf(x) == KeyOf(y) ==> x == y
  }

  lemma SameCounts(s: seq<Item>, t: seq<Item>, k: Key)
    requires multiset(s) == multiset(t)
    ensures multiset(Only(s, k)) == multiset(Only(t, k))
  {
    forall x: Item ensures multiset(Only(s, k))[x] == multiset(Only(t, k))[x] {
      OnlyCounts(s, k, x);
      OnlyCounts(t, k, x);
    }
  }

  lemma KeyTellsApart(items: seq<Item>, s: seq<Item>, k: Key)
    requires NoTiesInKeys(items) && forall x <- s :: x in items && KeyOf(x) == k
    ensures TellsApart(Precedes, s)
  {
    forall i, j | 0 <= i < |s| && 0 <= j < |s| && !Precedes(s[i], s[j]) && !Precedes(s[j], s[i]) ensures s[i] == s[j] {
      assert Tied(s[i], s[j]) && s[i] in s && s[j] in s;
    }
  }

  lemma SameForKey(items: seq<Item>, s: seq<Item>, t: seq<Item>, k: Key)
    requires NoTiesInKeys(items) && Arrangement(s, items) && Arrangement(t, items)
    ensures Only(s, k) == Only(t, k)
  {
    OnlyIsOrdered(s, k);
    OnlyIsOrdered(t, k);
    SameMembers(s, items);
    SameCounts(s, t, k);
    KeyTellsApart(items, Only(s, k), k);
    OneOrder(Precedes, Only(s, k), Only(t, k));
  }

  /** Ties between records of different keys leave nothing open. */
  lemma StoreDetermined(before: Records, items: seq<Item>, s: seq<Item>, t: seq<Item>)
    requires NoTiesInKeys(items) && Arrangement(s, items) && Arrangement(t, items)
    ensures IngestAll(before, s) == IngestAll(before, t)
  {
    var a, b := IngestAll(before, s), IngestAll(before, t);
    forall k: Key ensures (k in a <==> k in b) && (k in a ==> a[k] == b[k]) {
      KeySeesItsOwn(before, s, k);
      KeySeesItsOwn(before, t, k);
      SameForKey(items, s, t, k);
    }
    assert a.Keys == b.Keys;
  }
}
