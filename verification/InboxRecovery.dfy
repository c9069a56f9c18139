/**
 Rebuilding the collector's Store from its inbox. Directory order is arbitrary, so the
 records are sorted by (timestamp, source, message id) before they are ingested.

 Main results: the order is determined exactly when no two different records share time,
 source and message id (`OrderDeterminedExactly`); then there is one sorted sequence
 (`SortedIsUnique`), and each key ends with the value of its newest record (`NewestWins`),
 newest by time, then by source, then by message id (`PrecedesExactly`).
 `ReliableCollector.RecoveryIgnoresListing` joins this with the files.
 */
module InboxRecovery {
  import opened Bytes
  import opened MonitorData
  import opened Names
  import opened MonitorStore

  datatype Item = Item(timestampMs: u64, id: Identity, record: StoredRecord)

  // ----- the order -----

  /** Lexicographic order of byte strings. */
  predicate BytesLess(a: seq<byte>, b: seq<byte>) {
    |b| > 0 && (|a| == 0 || a[0] < b[0] || (a[0] == b[0] && BytesLess(a[1..], b[1..])))
  }

  predicate Precedes(a: Item, b: Item) {
    || a.timestampMs < b.timestampMs
    || (a.timestampMs == b.timestampMs && a.id.source < b.id.source)
    || (a.timestampMs == b.timestampMs && a.id.source == b.id.source && BytesLess(a.id.messageId, b.id.messageId))
  }

  lemma {:induction false} BytesLessOrders(a: seq<byte>, b: seq<byte>)
    ensures !(BytesLess(a, b) && BytesLess(b, a))
    ensures a != b ==> BytesLess(a, b) || BytesLess(b, a)
  {
    if |a| > 0 && |b| > 0 {
      BytesLessOrders(a[1..], b[1..]);
      if a[0] == b[0] && a != b {
        assert a == [a[0]] + a[1..] && b == [b[0]] + b[1..];
      }
    }
  }

  lemma {:induction false} BytesLessTransitive(a: seq<byte>, b: seq<byte>, c: seq<byte>)
    requires BytesLess(a, b) && BytesLess(b, c)
    ensures BytesLess(a, c)
  {
    if |a| > 0 && a[0] == b[0] == c[0] {
      BytesLessTransitive(a[1..], b[1..], c[1..]);
    }
  }

  lemma PrecedesOrders(a: Item, b: Item)
    ensures !(Precedes(a, b) && Precedes(b, a))
    ensures a.id != b.id ==> Precedes(a, b) || Precedes(b, a)
  {
    BytesLessOrders(a.id.messageId, b.id.messageId);
  }

  lemma PrecedesTransitive(a: Item, b: Item, c: Item)
    requires Precedes(a, b) && Precedes(b, c)
    ensures Precedes(a, c)
  {
    if BytesLess(a.id.messageId, b.id.messageId) && BytesLess(b.id.messageId, c.id.messageId) {
      BytesLessTransitive(a.id.messageId, b.id.messageId, c.id.messageId);
    }
  }

  /** The strings are the same up to byte `k`, where `a` has the greater one. */
  predicate GreaterAt(a: seq<byte>, b: seq<byte>, k: nat) {
    k < |a| && k < |b| && a[..k] == b[..k] && a[k] > b[k]
  }

  /** `a` is the newer record: by its time, then its source, then the first byte the message ids differ in. */
  ghost predicate Newer(a: Item, b: Item) {
    if a.timestampMs != b.timestampMs then a.timestampMs > b.timestampMs
    else if a.id.source != b.id.source then a.id.source > b.id.source
    else exists k: nat :: GreaterAt(a.id.messageId, b.id.messageId, k)
  }

  lemma {:induction false} BytesLessExactly(a: seq<byte>, b: seq<byte>)
    requires |a| == |b|
    ensures BytesLess(a, b) <==> exists k: nat :: GreaterAt(b, a, k)
  {
    if |a| > 0 {
      BytesLessExactly(a[1..], b[1..]);
      if a[0] != b[0] {
        assert a[0] < b[0] ==> GreaterAt(b, a, 0);
        assert forall k: nat :: GreaterAt(b, a, k) && k > 0 ==> a[..k][0] == b[..k][0];
      } else {
        if k: nat :| GreaterAt(b[1..], a[1..], k) {
          assert b[..k + 1] == [b[0]] + b[1..][..k] && a[..k + 1] == [a[0]] + a[1..][..k];
          assert GreaterAt(b, a, k + 1);
        }
        if k: nat :| GreaterAt(b, a, k) {
          assert b[1..][..k - 1] == b[..k][1..] && a[1..][..k - 1] == a[..k][1..];
          assert GreaterAt(b[1..], a[1..], k - 1);
        }
      }
    }
  }

  /** Recovery ingests the older of two records first. */
  lemma PrecedesExactly(a: Item, b: Item)
    ensures Precedes(a, b) <==> Newer(b, a)
  {
    BytesLessExactly(a.id.messageId, b.id.messageId);
  }

  ghost predicate Sorted(s: seq<Item>) {
    forall i, j :: 0 <= i < j < |s| ==> Precedes(s[i], s[j])
  }

  ghost predicate SameElements(s: seq<Item>, t: seq<Item>) {
    forall x: Item :: x in s <==> x in t
  }

  /** There is one way only to put a set of items in order. */
  lemma {:induction false} SortedIsUnique(s: seq<Item>, t: seq<Item>)
    requires Sorted(s) && Sorted(t) && SameElements(s, t)
    ensures s == t
  {
    if |s| > 0 || |t| > 0 {
      var first := if |s| > 0 then s[0] else t[0];
      assert first in s && first in t;
      SameFirst(s, t);
      forall x: Item ensures x in s[1..] <==> x in t[1..] {
        FirstIsNotLater(s, x);
        FirstIsNotLater(t, x);
      }
      SortedIsUnique(s[1..], t[1..]);
      assert s == [s[0]] + s[1..] && t == [t[0]] + t[1..];
    }
  }

  lemma SameFirst(s: seq<Item>, t: seq<Item>)
    requires Sorted(s) && Sorted(t) && SameElements(s, t) && |s| > 0 && |t| > 0
    ensures s[0] == t[0]
  {
    assert s[0] in s && t[0] in t;
    var i :| 0 <= i < |t| && t[i] == s[0];
    var j :| 0 <= j < |s| && s[j] == t[0];
    PrecedesOrders(s[0], t[0]);
  }

  lemma FirstIsNotLater(s: seq<Item>, x: Item)
    requires Sorted(s) && |s| > 0
    ensures x in s[1..] <==> x in s && x != s[0]
  {
    assert s == [s[0]] + s[1..];
    PrecedesOrders(s[0], s[0]);
  }

  // ----- sorting -----

  ghost predicate DistinctIds(s: seq<Item>) {
    forall i, j :: 0 <= i < j < |s| ==> s[i].id != s[j].id
  }

  /** What a sort promises: nothing stands behind something it precedes. */
  ghost predicate OrderedBy<T(!new)>(less: (T, T) -> bool, s: seq<T>) {
    forall i, j :: 0 <= i < j < |s| ==> !less(s[j], s[i])
  }

  ghost predicate Ordered(s: seq<Item>) {
    OrderedBy(Precedes, s)
  }

  lemma InsertOrders<T(!new)>(less: (T, T) -> bool, s: seq<T>, k: nat, x: T)
    requires OrderedBy(less, s) && k <= |s|
    requires (forall i :: 0 <= i < k ==> !less(x, s[i])) && (forall i :: k <= i < |s| ==> !less(s[i], x))
    ensures var t := s[..k] + [x] + s[k..]; OrderedBy(less, t) && multiset(t) == multiset(s) + multiset{x}
  {
    assert s == s[..k] + s[k..];
  }

  /** The order tells any two different elements apart. */
  ghost predicate TellsApart<T(!new)>(less: (T, T) -> bool, s: seq<T>) {
    forall i, j :: 0 <= i < |s| && 0 <= j < |s| && !less(s[i], s[j]) && !less(s[j], s[i]) ==> s[i] == s[j]
  }

  lemma {:induction false} OneOrder<T(!new)>(less: (T, T) -> bool, s: seq<T>, t: seq<T>)
    requires OrderedBy(less, s) && OrderedBy(less, t) && multiset(s) == multiset(t) && TellsApart(less, s)
    ensures s == t
  {
    if |s| == 0 {
      assert |multiset(t)| == |t|;
    } else {
      FirstOfBoth(less, s, t);
      SameRest(s, t);
      TailStays(less, s);
      TailStays(less, t);
      OneOrder(less, s[1..], t[1..]);
      Rejoin(s, t);
    }
  }

  lemma TailStays<T(!new)>(less: (T, T) -> bool, s: seq<T>)
    requires OrderedBy(less, s) && |s| > 0
    ensures OrderedBy(less, s[1..]) && (TellsApart(less, s) ==> TellsApart(less, s[1..]))
  {
  }

  lemma SameRest<T>(s: seq<T>, t: seq<T>)
    requires |s| > 0 && |t| > 0 && s[0] == t[0] && multiset(s) == multiset(t)
    ensures multiset(s[1..]) == multiset(t[1..])
  {
    assert s == [s[0]] + s[1..] && t == [t[0]] + t[1..];
    assert multiset(s[1..]) == multiset(s) - multiset{s[0]} == multiset(t[1..]);
  }

  lemma Rejoin<T>(s: seq<T>, t: seq<T>)
    requires |s| > 0 && |t| > 0 && s[0] == t[0] && s[1..] == t[1..]
    ensures s == t
  {
    assert s == [s[0]] + s[1..] && t == [t[0]] + t[1..];
  }

  lemma FirstOfBoth<T(!new)>(less: (T, T) -> bool, s: seq<T>, t: seq<T>)
    requires OrderedBy(less, s) && OrderedBy(less, t) && multiset(s) == multiset(t) && |s| > 0 && TellsApart(less, s)
    ensures |t| > 0 && s[0] == t[0]
  {
    assert s[0] in multiset(t) && |t| > 0;
    assert t[0] in multiset(s);
    var i :| 0 <= i < |t| && t[i] == s[0];
    var j :| 0 <= j < |s| && s[j] == t[0];
    if i > 0 && j > 0 {
      assert !less(t[i], t[0]) && !less(s[j], s[0]);
    }
  }

  /** Neither comes first. */
  predicate Tied(a: Item, b: Item) {
    !Precedes(a, b) && !Precedes(b, a)
  }

  lemma TiedExactly(a: Item, b: Item)
    ensures Tied(a, b) <==> a.timestampMs == b.timestampMs && a.id == b.id
  {
    PrecedesOrders(a, b);
    BytesLessOrders(a.id.messageId, b.id.messageId);
  }

  /** With distinct identities the order is total. */
  lemma OrderedIsSorted(s: seq<Item>)
    requires Ordered(s) && DistinctIds(s)
    ensures Sorted(s)
  {
    forall i, j | 0 <= i < j < |s| ensures Precedes(s[i], s[j]) {
      PrecedesOrders(s[i], s[j]);
    }
  }

  /** Puts `x` behind everything it does not precede. */
  method Insert(s: seq<Item>, x: Item) returns (t: seq<Item>)
    requires Ordered(s)
    ensures Ordered(t) && multiset(t) == multiset(s) + multiset{x}
  {
    var k := |s|;
    while k > 0 && Precedes(x, s[k - 1])
      invariant 0 <= k <= |s|
      invariant forall i :: k <= i < |s| ==> Precedes(x, s[i])
    {
      k := k - 1;
    }
    InsertKeepsOrdered(s, k, x);
    t := s[..k] + [x] + s[k..];
  }

  lemma InsertKeepsOrdered(s: seq<Item>, k: nat, x: Item)
    requires Ordered(s) && k <= |s| && (k > 0 ==> !Precedes(x, s[k - 1]))
    requires forall i :: k <= i < |s| ==> Precedes(x, s[i])
    ensures var t := s[..k] + [x] + s[k..]; Ordered(t) && multiset(t) == multiset(s) + multiset{x}
  {
    forall i | 0 <= i < k ensures !Precedes(x, s[i]) {
      if Precedes(x, s[i]) && i < k - 1 {
        NotBefore(x, s[i], s[k - 1]);
      }
    }
    forall i | k <= i < |s| ensures !Precedes(s[i], x) {
      PrecedesOrders(s[i], x);
    }
    InsertOrders(Precedes, s, k, x);
  }

  lemma NotBefore(x: Item, a: Item, b: Item)
    requires Precedes(x, a) && !Precedes(b, a)
    ensures Precedes(x, b)
  {
    PrecedesOrders(a, b);
    TiedExactly(a, b);
    if Precedes(a, b) {
      PrecedesTransitive(x, a, b);
    }
  }

  method Sort(items: seq<Item>) returns (sorted: seq<Item>)
    ensures Ordered(sorted) && multiset(sorted) == multiset(items)
  {
    sorted := [];
    for i := 0 to |items|
      invariant Ordered(sorted) && multiset(sorted) == multiset(items[..i])
    {
      assert items[..i + 1] == items[..i] + [items[i]];
      sorted := Insert(sorted, items[i]);
    }
    assert items[..|items|] == items;
  }

  lemma {:induction false} AtMostOnce(items: seq<Item>, x: Item)
    requires DistinctIds(items)
    ensures multiset(items)[x] <= 1
  {
    if |items| > 0 {
      var n := |items| - 1;
      assert items == items[..n] + [items[n]];
      AtMostOnce(items[..n], x);
      if x == items[n] {
        assert x !in items[..n];
      }
    }
  }

  lemma AtLeastTwice(s: seq<Item>, i: nat, j: nat)
    requires i < j < |s| && s[i] == s[j]
    ensures multiset(s)[s[i]] >= 2
  {
    assert s == s[..j] + s[j..] && s[i] in s[..j] && s[j] in s[j..];
  }

  /** Sorting distinct identities leaves them distinct, and fully in order. */
  lemma SortedArrangement(s: seq<Item>, items: seq<Item>)
    requires Ordered(s) && multiset(s) == multiset(items) && DistinctIds(items)
    ensures Sorted(s) && DistinctIds(s) && SameElements(s, items)
  {
    SameMembers(s, items);
    forall i, j | 0 <= i < j < |s| ensures s[i].id != s[j].id {
      assert s[i] in items && s[j] in items;
      if s[i] == s[j] {
        AtLeastTwice(s, i, j);
        AtMostOnce(items, s[i]);
      }
    }
    OrderedIsSorted(s);
  }

  // ----- when the order is determined -----

  ghost predicate Arrangement(s: seq<Item>, items: seq<Item>) {
    Ordered(s) && multiset(s) == multiset(items)
  }

  lemma {:induction false} SomeArrangement(items: seq<Item>) returns (s: seq<Item>)
    ensures Arrangement(s, items)
  {
    s := [];
    if |items| > 0 {
      var n := |items| - 1;
      var front := SomeArrangement(items[..n]);
      var k := |front|;
      while k > 0 && Precedes(items[n], front[k - 1])
        invariant 0 <= k <= |front|
        invariant forall i :: k <= i < |front| ==> Precedes(items[n], front[i])
      {
        k := k - 1;
      }
      InsertKeepsOrdered(front, k, items[n]);
      assert items == items[..n] + [items[n]];
      s := front[..k] + [items[n]] + front[k..];
    }
  }

  ghost predicate NoTies(items: seq<Item>) {
    forall x, y :: x in items && y in items && Tied(x, y) ==> x == y
  }

  /** Two tied items can be exchanged. */
  lemma Exchange(s: seq<Item>, i: nat, j: nat) returns (t: seq<Item>)
    requires Ordered(s) && i < |s| && j < |s| && Tied(s[i], s[j])
    ensures Ordered(t) && multiset(t) == multiset(s) && t == s[i := s[j]][j := s[i]]
  {
    t := s[i := s[j]][j := s[i]];
    TiedExactly(s[i], s[j]);
    forall a, b | 0 <= a < b < |t| ensures !Precedes(t[b], t[a]) {
      RankDecides(s[b], s[a], t[b], t[a]);
    }
  }

  lemma RankDecides(a: Item, b: Item, c: Item, d: Item)
    requires a.timestampMs == c.timestampMs && a.id == c.id && b.timestampMs == d.timestampMs && b.id == d.id
    ensures Precedes(a, b) <==> Precedes(c, d)
  {
  }

  /**
   The order in which items are ingested is determined by the items alone if and only if no
   two different items share time, source and message id.
   */
  lemma OrderDeterminedExactly(items: seq<Item>)
    ensures NoTies(items) <==>
      forall s, t :: Arrangement(s, items) && Arrangement(t, items) ==> s == t
  {
    if NoTies(items) {
      forall s, t | Arrangement(s, items) && Arrangement(t, items) ensures s == t {
        SameMembers(s, items);
        assert forall i :: 0 <= i < |s| ==> s[i] in items;
        OneOrder(Precedes, s, t);
      }
    } else {
      var x, y :| x in items && y in items && Tied(x, y) && x != y;
      var s := SomeArrangement(items);
      SameMembers(s, items);
      assert x in s && y in s;
      var i :| 0 <= i < |s| && s[i] == x;
      var j :| 0 <= j < |s| && s[j] == y;
      var t := Exchange(s, i, j);
      assert t[i] != s[i];
      assert Arrangement(s, items) && Arrangement(t, items) && s != t;
    }
  }

  lemma SameMembers(s: seq<Item>, t: seq<Item>)
    requires multiset(s) == multiset(t)
    ensures SameElements(s, t)
  {
    forall x: Item ensures x in s <==> x in t {
      assert x in s <==> x in multiset(s);
      assert x in t <==> x in multiset(t);
    }
  }

  // ----- ingesting -----

  /** A forced update without a sink. */
  function Ingest(records: Records, record: StoredRecord): (next: Records) {
    Applied(records, Decide(records, record.data, true, record.changedAt), true)
  }

  function IngestAll(records: Records, items: seq<Item>): (final: Records) {
    if |items| == 0 then records
    else Ingest(IngestAll(records, items[..|items| - 1]), items[|items| - 1].record)
  }

  /**
   What a tie does: two readings of one key under one identity, which only a file under a
   foreign name can bring about, leave the Store to chance.
   */
  lemma TieLeavesChoice(a: Item, b: Item)
    requires Tied(a, b) && a.record.data.key == b.record.data.key
    requires !a.record.data.value.Valueless? && !b.record.data.value.Valueless?
    requires !SameValue(a.record.data.value, b.record.data.value)
    requires !SameValue(b.record.data.value, a.record.data.value)
    ensures Arrangement([a, b], [a, b]) && Arrangement([b, a], [a, b])
    ensures IngestAll(map[], [a, b]) != IngestAll(map[], [b, a])
  {
    assert [a, b][..1] == [a] && [b, a][..1] == [b];
    assert IngestAll(map[], [a]) == Ingest(IngestAll(map[], [a][..0]), a.record);
    assert IngestAll(map[], [b]) == Ingest(IngestAll(map[], [b][..0]), b.record);
  }

  /** `newest` is newer than every other record of its key. */
  ghost predicate Newest(items: seq<Item>, newest: Item) {
    && newest in items
    && forall x <- items :: x.record.data.key == newest.record.data.key && x != newest ==> Newer(newest, x)
  }

  /** The key holds this number or this text. */
  predicate Holds(records: Records, data: Data) {
    data.key in records && HasValue(records[data.key].data.value, data.value)
  }

  lemma {:induction false} LastOfKeyStays(records: Records, items: seq<Item>, i: nat)
    requires i < |items| && !items[i].record.data.value.Valueless?
    requires forall j :: i < j < |items| ==> items[j].record.data.key != items[i].record.data.key
    ensures var final := IngestAll(records, items); var data := items[i].record.data;
      data.key in final && SameValue(data.value, final[data.key].data.value)
  {
    var n := |items| - 1;
    if i < n {
      LastOfKeyStays(records, items[..n], i);
    }
  }

  lemma {:induction false} LastPlace(s: seq<Item>, x: Item) returns (i: nat)
    requires x in s
    ensures i < |s| && s[i] == x && forall j :: i < j < |s| ==> s[j] != x
  {
    i := |s| - 1;
    if s[i] != x {
      assert s == s[..i] + [s[i]];
      i := LastPlace(s[..i], x);
    }
  }

  /** In whatever order a sort leaves the records, each key ends with the number or text of its newest one. */
  lemma NewestWins(records: Records, items: seq<Item>, s: seq<Item>, newest: Item)
    requires Arrangement(s, items) && Newest(items, newest) && !newest.record.data.value.Valueless?
    ensures Holds(IngestAll(records, s), newest.record.data)
  {
    SameMembers(s, items);
    var i := LastPlace(s, newest);
    forall j | i < j < |s| ensures s[j].record.data.key != newest.record.data.key {
      assert s[j] in items;
      PrecedesExactly(s[j], newest);
    }
    LastOfKeyStays(records, s, i);
  }

  /** The frame's time is the record's, in whole milliseconds; `enqueue` makes no others. */
  predicate OnTime(x: Item) {
    x.timestampMs * 1_000_000 <= x.record.changedAt < (x.timestampMs + 1) * 1_000_000
  }

  /** So a change at least a millisecond later than all others of its key is what the key ends with. */
  lemma LatestChangeWins(records: Records, items: seq<Item>, s: seq<Item>, x: Item)
    requires Arrangement(s, items) && x in items && !x.record.data.value.Valueless?
    requires forall y <- items :: OnTime(y)
    requires forall y <- items :: y.record.data.key == x.record.data.key && y != x ==>
      y.record.changedAt + 1_000_000 <= x.record.changedAt
    ensures Holds(IngestAll(records, s), x.record.data)
  {
    assert OnTime(x);
    assert forall y <- items :: y.record.data.key == x.record.data.key && y != x ==> OnTime(y) && Newer(x, y);
    NewestWins(records, items, s, x);
  }

  /** What a key ends with is one of its records, whole, or what it held before. */
  lemma {:induction false} NothingInvented(records: Records, items: seq<Item>, k: Key)
    requires k in IngestAll(records, items)
    ensures var final := IngestAll(records, items);
      || (k in records && final[k] == records[k])
      || exists x <- items :: x.record.data.key == k && final[k] == x.record
  {
    if |items| > 0 {
      var front, last := items[..|items| - 1], items[|items| - 1];
      if last.record.data.key == k && IngestAll(records, items)[k] == last.record {
        assert last in items;
      } else {
        NothingInvented(records, front, k);
        assert forall x <- front :: x in items;
      }
    }
  }

  /**
   What recovery makes of the records it finds: every key that has a newest one holds its
   value, nothing is invented, and keys without a record keep what they held.
   */
  ghost predicate UpToDate(before: Records, items: seq<Item>, records: Records) {
    && (forall x: Item :: Newest(items, x) ==> Holds(records, x.record.data))
    && (forall k: Key :: k in records ==>
          || (k in before && records[k] == before[k])
          || exists x <- items :: x.record.data.key == k && records[k] == x.record)
    && (forall k: Key :: k in before && (forall x <- items :: x.record.data.key != k) ==>
          k in records && records[k] == before[k])
  }

  lemma IngestedIsUpToDate(before: Records, items: seq<Item>, s: seq<Item>)
    requires Arrangement(s, items) && forall x <- items :: !x.record.data.value.Valueless?
    ensures UpToDate(before, items, IngestAll(before, s))
  {
    SameMembers(s, items);
    forall x: Item | Newest(items, x) ensures Holds(IngestAll(before, s), x.record.data) {
      NewestWins(before, items, s, x);
    }
    forall k: Key | k in IngestAll(before, s)
      ensures
        || (k in before && IngestAll(before, s)[k] == before[k])
        || exists x <- items :: x.record.data.key == k && IngestAll(before, s)[k] == x.record
    {
      NothingInvented(before, s, k);
    }
    forall k: Key | k in before && (forall x <- items :: x.record.data.key != k)
      ensures k in IngestAll(before, s) && IngestAll(before, s)[k] == before[k]
    {
      OthersStay(before, s, k);
    }
  }

  /** Keys without a record in the inbox keep what the Store held. */
  lemma {:induction false} OthersStay(records: Records, items: seq<Item>, k: Key)
    requires forall x <- items :: x.record.data.key != k
    ensures var final := IngestAll(records, items);
      (k in final <==> k in records) && (k in final ==> final[k] == records[k])
  {
    if |items| > 0 {
      OthersStay(records, items[..|items| - 1], k);
    }
  }
}
