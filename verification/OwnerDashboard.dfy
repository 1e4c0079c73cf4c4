/**
 The owner's dashboard figures (frontend/src/components/banya/owner-dashboard-section.tsx): the
 bookings of all venues merged by id, and the statistics counted from them.
 */
module OwnerDashboard {

  /** `createdAt` is the parsed time. */
  datatype Booking = Booking(id: string, venueId: string, date: string, createdAt: int, status: string, totalPrice: int)

  /** `isBookingPaidForMetrics`. */
  predicate Paid(b: Booking) {
    b.status == "confirmed" || b.status == "completed"
  }

  // ---------------------------------------------------------------- Map of JavaScript

  /** A `Map`: entries in the order their keys were first set. */
  datatype Entry<V> = Entry(key: string, value: V)

  predicate Has<V>(m: seq<Entry<V>>, key: string) {
    exists i :: 0 <= i < |m| && m[i].key == key
  }

  function Lookup<V>(m: seq<Entry<V>>, key: string, default: V): V {
    if m == [] then default else if m[0].key == key then m[0].value else Lookup(m[1..], key, default)
  }

  function Set<V>(m: seq<Entry<V>>, key: string, value: V): seq<Entry<V>> {
    if m == [] then [Entry(key, value)]
    else if m[0].key == key then [Entry(key, value)] + m[1..]
    else [m[0]] + Set(m[1..], key, value)
  }

  predicate DistinctKeys<V>(m: seq<Entry<V>>) {
    forall i, j :: 0 <= i < j < |m| ==> m[i].key != m[j].key
  }

  function Keys<V>(m: seq<Entry<V>>): seq<string> {
    seq(|m|, i requires 0 <= i < |m| => m[i].key)
  }

  lemma HasTail<V>(m: seq<Entry<V>>, key: string)
    requires m != [] && m[0].key != key
    ensures Has(m, key) <==> Has(m[1..], key)
  {
    if Has(m, key) {
      var i :| 0 <= i < |m| && m[i].key == key;
      assert m[1..][i - 1].key == key;
    }
    if Has(m[1..], key) {
      var i :| 0 <= i < |m[1..]| && m[1..][i].key == key;
      assert m[i + 1].key == key;
    }
  }

  lemma {:induction false} SetLookup<V>(m: seq<Entry<V>>, key: string, value: V, other: string, default: V)
    ensures Lookup(Set(m, key, value), other, default) == if other == key then value else Lookup(m, other, default)
  {
    if m != [] && m[0].key != key {
      SetLookup(m[1..], key, value, other, default);
    }
  }

  lemma KeysCons<V>(e: Entry<V>, m: seq<Entry<V>>)
    ensures Keys([e] + m) == [e.key] + Keys(m)
  {
  }

  /** Setting a key keeps the order of the keys and adds a new one at the end. */
  lemma {:induction false} SetKeys<V>(m: seq<Entry<V>>, key: string, value: V)
    ensures Keys(Set(m, key, value)) == if Has(m, key) then Keys(m) else Keys(m) + [key]
  {
    if m != [] {
      KeysCons(m[0], m[1..]);
      assert m == [m[0]] + m[1..];
      if m[0].key == key {
        assert Has(m, key);
        KeysCons(Entry(key, value), m[1..]);
      } else {
        SetKeys(m[1..], key, value);
        HasTail(m, key);
        KeysCons(m[0], Set(m[1..], key, value));
      }
    } else {
      assert !Has(m, key) && Keys(m) == [];
      KeysCons(Entry(key, value), m);
    }
  }

  lemma SetDistinct<V>(m: seq<Entry<V>>, key: string, value: V)
    requires DistinctKeys(m)
    ensures DistinctKeys(Set(m, key, value))
  {
    SetKeys(m, key, value);
    var ks := Keys(Set(m, key, value));
    assert |ks| == |Set(m, key, value)|;
    forall i, j | 0 <= i < j < |ks|
      ensures Set(m, key, value)[i].key != Set(m, key, value)[j].key
    {
      assert ks[i] == Set(m, key, value)[i].key && ks[j] == Set(m, key, value)[j].key;
      assert i < |m| && ks[i] == m[i].key;
      if j < |m| {
        assert ks[j] == m[j].key;
      }
    }
  }

  lemma {:induction false} LookupAt<V>(m: seq<Entry<V>>, i: nat, default: V)
    requires DistinctKeys(m) && i < |m|
    ensures Lookup(m, m[i].key, default) == m[i].value
  {
    if i > 0 {
      assert m[1..][i - 1] == m[i];
      LookupAt(m[1..], i - 1, default);
    }
  }

  // ---------------------------------------------------------------- merging

  /** The map after setting every booking under its id, in order. */
  function ById(bs: seq<Booking>): seq<Entry<Booking>> {
    if bs == [] then [] else Set(ById(bs[..|bs| - 1]), bs[|bs| - 1].id, bs[|bs| - 1])
  }

  function Flatten(results: seq<seq<Booking>>): seq<Booking> {
    if results == [] then [] else Flatten(results[..|results| - 1]) + results[|results| - 1]
  }

  function Values<V>(m: seq<Entry<V>>): seq<V> {
    if m == [] then [] else Values(m[..|m| - 1]) + [m[|m| - 1].value]
  }

  /** Newest first, and stable. */
  function InsertNewest(b: Booking, sorted: seq<Booking>): seq<Booking> {
    if sorted == [] then [b]
    else if b.createdAt > sorted[|sorted| - 1].createdAt then InsertNewest(b, sorted[..|sorted| - 1]) + [sorted[|sorted| - 1]]
    else sorted + [b]
  }

  function NewestFirst(bs: seq<Booking>): seq<Booking> {
    if bs == [] then [] else InsertNewest(bs[|bs| - 1], NewestFirst(bs[..|bs| - 1]))
  }

  function Merged(results: seq<seq<Booking>>): seq<Booking> {
    NewestFirst(Values(ById(Flatten(results))))
  }

  /** `data` missing in a result counts as an empty list. */
  method MergeOwnerVenueBookings(results: seq<seq<Booking>>) returns (all: seq<Booking>)
    ensures all == Merged(results)
  {
    var m: seq<Entry<Booking>> := [];
    for r := 0 to |results|
      invariant m == ById(Flatten(results[..r]))
    {
      ghost var before := Flatten(results[..r]);
      assert results[..r + 1][..r] == results[..r] && before + results[r][..0] == before;
      for k := 0 to |results[r]|
        invariant m == ById(before + results[r][..k])
      {
        var b := results[r][k];
        assert (before + results[r][..k + 1])[..|before| + k] == before + results[r][..k];
        m := Set(m, b.id, b);
      }
      assert before + results[r][..|results[r]|] == Flatten(results[..r + 1]);
    }
    assert results[..|results|] == results;
    all := NewestFirst(Values(m));
  }

  /** The last booking of the list with this id. */
  function Latest(bs: seq<Booking>, id: string, default: Booking): Booking {
    if bs == [] then default
    else if bs[|bs| - 1].id == id then bs[|bs| - 1]
    else Latest(bs[..|bs| - 1], id, default)
  }

  /** The ids in order of first appearance. */
  function Ids(bs: seq<Booking>): seq<string> {
    if bs == [] then []
    else
      var ids := Ids(bs[..|bs| - 1]);
      if bs[|bs| - 1].id in ids then ids else ids + [bs[|bs| - 1].id]
  }

  /** One entry per id, in order of first appearance, holding the last booking of that id. */
  lemma {:induction false} ByIdIs(bs: seq<Booking>, id: string, default: Booking)
    ensures DistinctKeys(ById(bs)) && Keys(ById(bs)) == Ids(bs)
    ensures Lookup(ById(bs), id, default) == Latest(bs, id, default)
  {
    if bs != [] {
      var front, b := bs[..|bs| - 1], bs[|bs| - 1];
      ByIdIs(front, id, default);
      SetLookup(ById(front), b.id, b, id, default);
      SetKeys(ById(front), b.id, b);
      SetDistinct(ById(front), b.id, b);
      HasIsKey(ById(front), b.id);
    }
  }

  lemma HasIsKey<V>(m: seq<Entry<V>>, key: string)
    ensures Has(m, key) <==> key in Keys(m)
  {
    if Has(m, key) {
      var i :| 0 <= i < |m| && m[i].key == key;
      assert Keys(m)[i] == key;
    }
    if key in Keys(m) {
      var i :| 0 <= i < |Keys(m)| && Keys(m)[i] == key;
      assert m[i].key == key;
    }
  }

  lemma {:induction false} ValuesAt<V>(m: seq<Entry<V>>, i: nat)
    requires i < |m|
    ensures |Values(m)| == |m| && Values(m)[i] == m[i].value
  {
    if i < |m| - 1 {
      ValuesAt(m[..|m| - 1], i);
    } else {
      ValuesLength(m[..|m| - 1]);
    }
  }

  lemma {:induction false} ValuesLength<V>(m: seq<Entry<V>>)
    ensures |Values(m)| == |m|
  {
    if m != [] {
      ValuesLength(m[..|m| - 1]);
    }
  }

  /** Every value of the merge is the last booking of its id; ids appear once, and none is lost. */
  lemma MergeKeepsEachIdOnce(bs: seq<Booking>, i: nat, default: Booking)
    requires i < |Ids(bs)|
    ensures |Values(ById(bs))| == |Ids(bs)| && Values(ById(bs))[i] == Latest(bs, Ids(bs)[i], default)
  {
    hide *;
    ByIdIs(bs, Ids(bs)[i], default);
    KeysAt(ById(bs), i);
    LookupAt(ById(bs), i, default);
    ValuesAt(ById(bs), i);
  }

  lemma KeysAt<V>(m: seq<Entry<V>>, i: nat)
    ensures |Keys(m)| == |m| && (i < |m| ==> Keys(m)[i] == m[i].key)
  {
  }

  lemma {:induction false} IdsTwice(bs: seq<Booking>, more: seq<Booking>)
    requires forall i :: 0 <= i < |more| ==> more[i].id in Ids(bs)
    ensures Ids(bs + more) == Ids(bs)
  {
    if more == [] {
      assert bs + more == bs;
    } else {
      IdsTwice(bs, more[..|more| - 1]);
      assert (bs + more)[..|bs + more| - 1] == bs + more[..|more| - 1];
    }
  }

  lemma {:induction false} IdsComplete(bs: seq<Booking>, i: nat)
    requires i < |bs|
    ensures bs[i].id in Ids(bs)
  {
    if i < |bs| - 1 {
      IdsComplete(bs[..|bs| - 1], i);
    }
  }

  lemma {:induction false} LatestTwice(bs: seq<Booking>, more: seq<Booking>, id: string, default: Booking)
    ensures Latest(bs + more, id, default) == Latest(more, id, Latest(bs, id, default))
  {
    if more == [] {
      assert bs + more == bs;
    } else {
      LatestTwice(bs, more[..|more| - 1], id, default);
      assert (bs + more)[..|bs + more| - 1] == bs + more[..|more| - 1];
    }
  }

  lemma {:induction false} LatestOfPresent(bs: seq<Booking>, id: string, d: Booking, e: Booking)
    requires id in Ids(bs)
    ensures Latest(bs, id, d) == Latest(bs, id, e)
  {
    if bs != [] && bs[|bs| - 1].id != id {
      LatestOfPresent(bs[..|bs| - 1], id, d, e);
    }
  }

  lemma {:induction false} LatestOfAbsent(bs: seq<Booking>, id: string, default: Booking)
    requires id !in Ids(bs)
    ensures Latest(bs, id, default) == default
  {
    if bs != [] {
      LatestOfAbsent(bs[..|bs| - 1], id, default);
    }
  }

  lemma {:induction false} LatestHasId(bs: seq<Booking>, id: string, default: Booking)
    requires id in Ids(bs)
    ensures Latest(bs, id, default).id == id
  {
    if bs != [] && bs[|bs| - 1].id != id {
      LatestHasId(bs[..|bs| - 1], id, default);
    }
  }

  predicate Distinct(ids: seq<string>) {
    forall i, j :: 0 <= i < j < |ids| ==> ids[i] != ids[j]
  }

  lemma {:induction false} IdsDistinct(bs: seq<Booking>)
    ensures Distinct(Ids(bs))
    ensures forall id :: id in Ids(bs) ==> exists i :: 0 <= i < |bs| && bs[i].id == id
  {
    if bs != [] {
      IdsDistinct(bs[..|bs| - 1]);
    }
  }

  const NOBODY := Booking("", "", "", 0, "", 0)

  /** What `more` says last about each of its bookings is what `bs` says last. */
  predicate SayTheSame(bs: seq<Booking>, more: seq<Booking>) {
    forall id :: id in Ids(more) ==> Latest(more, id, NOBODY) == Latest(bs, id, NOBODY)
  }

  lemma ValueAfter(bs: seq<Booking>, more: seq<Booking>, i: nat)
    requires i < |Ids(bs)| && Ids(bs + more) == Ids(bs)
    ensures |Values(ById(bs))| == |Values(ById(bs + more))| == |Ids(bs)|
    ensures Values(ById(bs))[i] == Latest(bs, Ids(bs)[i], NOBODY) && Values(ById(bs))[i].id == Ids(bs)[i]
    ensures Values(ById(bs + more))[i].id == Ids(bs)[i]
    ensures Values(ById(bs + more))[i] ==
            if Ids(bs)[i] in Ids(more) then Latest(more, Ids(bs)[i], NOBODY) else Latest(bs, Ids(bs)[i], NOBODY)
  {
    hide *;
    var id := Ids(bs)[i];
    MergeKeepsEachIdOnce(bs, i, NOBODY);
    MergeKeepsEachIdOnce(bs + more, i, NOBODY);
    LatestHasId(bs, id, NOBODY);
    LatestHasId(bs + more, id, NOBODY);
    LatestTwice(bs, more, id, NOBODY);
    if id in Ids(more) {
      LatestOfPresent(more, id, Latest(bs, id, NOBODY), NOBODY);
    } else {
      LatestOfAbsent(more, id, Latest(bs, id, NOBODY));
    }
  }

  lemma OneById(bs: seq<Booking>)
    ensures |Values(ById(bs))| == |Ids(bs)|
  {
    ByIdIs(bs, "", NOBODY);
    ValuesLength(ById(bs));
    KeysAt(ById(bs), 0);
  }

  /** Receiving known bookings again keeps the values of the map exactly when they say nothing else. */
  lemma ValuesAfter(bs: seq<Booking>, more: seq<Booking>)
    requires forall i :: 0 <= i < |more| ==> more[i].id in Ids(bs)
    ensures Ids(bs + more) == Ids(bs)
    ensures Values(ById(bs + more)) == Values(ById(bs)) <==> SayTheSame(bs, more)
  {
    hide Latest, ById, Values, Ids;
    IdsTwice(bs, more);
    OneById(bs);
    OneById(bs + more);
    forall i | 0 <= i < |Ids(bs)|
      ensures Values(ById(bs + more))[i] == Values(ById(bs))[i] <==>
              (Ids(bs)[i] in Ids(more) ==> Latest(more, Ids(bs)[i], NOBODY) == Latest(bs, Ids(bs)[i], NOBODY))
    {
      ValueAfter(bs, more, i);
    }
    IdsDistinct(more);
  }

  lemma SameBookings(a: seq<Booking>, b: seq<Booking>, ids: seq<string>)
    requires |a| == |b| == |ids| && Distinct(ids) && multiset(a) == multiset(b)
    requires forall i :: 0 <= i < |ids| ==> a[i].id == ids[i] && b[i].id == ids[i]
    ensures a == b
  {
    forall i | 0 <= i < |ids|
      ensures a[i] == b[i]
    {
      assert a[i] in multiset(b);
      var j :| 0 <= j < |b| && b[j] == a[i];
      assert ids[j] == ids[i];
    }
  }

  lemma {:induction false} FlattenConcat(a: seq<seq<Booking>>, b: seq<seq<Booking>>)
    ensures Flatten(a + b) == Flatten(a) + Flatten(b)
  {
    if b == [] {
      assert a + b == a;
    } else {
      FlattenConcat(a, b[..|b| - 1]);
      assert (a + b)[..|a + b| - 1] == a + b[..|b| - 1];
    }
  }

  /** Receiving all the results a second time changes nothing. */
  lemma MergeIdempotent(results: seq<seq<Booking>>)
    ensures Merged(results + results) == Merged(results)
  {
    hide Latest, ById, Values, Ids, NewestFirst;
    var bs := Flatten(results);
    FlattenConcat(results, results);
    forall i | 0 <= i < |bs|
      ensures bs[i].id in Ids(bs)
    {
      IdsComplete(bs, i);
    }
    ValuesAfter(bs, bs);
  }

  // ---------------------------------------------------------------- sorting

  predicate Descending(bs: seq<Booking>) {
    forall i, j :: 0 <= i < j < |bs| ==> bs[i].createdAt >= bs[j].createdAt
  }

  lemma LastApart(bs: seq<Booking>)
    requires bs != []
    ensures multiset(bs) == multiset(bs[..|bs| - 1]) + multiset{bs[|bs| - 1]}
  {
    assert bs == bs[..|bs| - 1] + [bs[|bs| - 1]];
  }

  lemma {:induction false} InsertNewestHolds(b: Booking, sorted: seq<Booking>)
    ensures multiset(InsertNewest(b, sorted)) == multiset(sorted) + multiset{b}
  {
    if sorted != [] && b.createdAt > sorted[|sorted| - 1].createdAt {
      var n := |sorted| - 1;
      InsertNewestHolds(b, sorted[..n]);
      LastApart(sorted);
    }
  }

  predicate AllAtLeast(bs: seq<Booking>, t: int) {
    forall i :: 0 <= i < |bs| ==> bs[i].createdAt >= t
  }

  lemma {:induction false} InsertNewestSorts(b: Booking, sorted: seq<Booking>, t: int)
    requires Descending(sorted) && AllAtLeast(sorted, t) && b.createdAt >= t
    ensures Descending(InsertNewest(b, sorted)) && AllAtLeast(InsertNewest(b, sorted), t)
  {
    if sorted != [] && b.createdAt > sorted[|sorted| - 1].createdAt {
      var n := |sorted| - 1;
      InsertNewestSorts(b, sorted[..n], sorted[n].createdAt);
    }
  }

  lemma LowerBound(bs: seq<Booking>, b: Booking) returns (t: int)
    requires Descending(bs)
    ensures AllAtLeast(bs, t) && b.createdAt >= t
  {
    t := if bs == [] || bs[|bs| - 1].createdAt > b.createdAt then b.createdAt else bs[|bs| - 1].createdAt;
  }

  lemma {:induction false} NewestFirstDescends(bs: seq<Booking>)
    ensures Descending(NewestFirst(bs))
  {
    if bs != [] {
      var n := |bs| - 1;
      NewestFirstDescends(bs[..n]);
      var t := LowerBound(NewestFirst(bs[..n]), bs[n]);
      InsertNewestSorts(bs[n], NewestFirst(bs[..n]), t);
    }
  }

  lemma {:induction false} NewestFirstHolds(bs: seq<Booking>)
    ensures multiset(NewestFirst(bs)) == multiset(bs)
  {
    if bs != [] {
      var n := |bs| - 1;
      hide InsertNewest;
      NewestFirstHolds(bs[..n]);
      InsertNewestHolds(bs[n], NewestFirst(bs[..n]));
      LastApart(bs);
    }
  }

  /** The merged list is sorted newest first and holds exactly the values of the map. */
  lemma MergedIsSorted(results: seq<seq<Booking>>)
    ensures Descending(Merged(results)) && multiset(Merged(results)) == multiset(Values(ById(Flatten(results))))
  {
    hide NewestFirst, Descending;
    NewestFirstDescends(Values(ById(Flatten(results))));
    NewestFirstHolds(Values(ById(Flatten(results))));
  }

  lemma {:induction false} FlattenHas(results: seq<seq<Booking>>, i: nat, k: nat)
    requires i < |results| && k < |results[i]|
    ensures results[i][k].id in Ids(Flatten(results))
  {
    var n := |results| - 1;
    var bs := Flatten(results);
    if i < n {
      FlattenHas(results[..n], i, k);
      IdsGrow(Flatten(results[..n]), results[n], results[i][k].id);
    } else {
      IdsComplete(bs, |Flatten(results[..n])| + k);
    }
  }

  lemma {:induction false} IdsGrow(bs: seq<Booking>, more: seq<Booking>, id: string)
    requires id in Ids(bs)
    ensures id in Ids(bs + more)
  {
    if more == [] {
      assert bs + more == bs;
    } else {
      IdsGrow(bs, more[..|more| - 1], id);
      assert (bs + more)[..|bs + more| - 1] == bs + more[..|more| - 1];
    }
  }

  /**
   Receiving one venue's list a second time, after all the others, changes nothing exactly when
   every booking in it is, as that list has it last, the last the whole says of that booking.
   */
  lemma RepeatedList(results: seq<seq<Booking>>, i: nat)
    requires i < |results|
    ensures Merged(results + [results[i]]) == Merged(results) <==> SayTheSame(Flatten(results), results[i])
  {
    hide Latest, ById, Values, Ids, NewestFirst, Flatten;
    var bs, more := Flatten(results), results[i];
    FlattenOne(results, more);
    forall k | 0 <= k < |more|
      ensures more[k].id in Ids(bs)
    {
      FlattenHas(results, i, k);
    }
    ValuesAfter(bs, more);
    if Merged(results + [more]) == Merged(results) {
      NewestFirstHolds(Values(ById(bs)));
      NewestFirstHolds(Values(ById(bs + more)));
      OneById(bs);
      OneById(bs + more);
      forall k | 0 <= k < |Ids(bs)|
        ensures Values(ById(bs + more))[k].id == Ids(bs)[k] == Values(ById(bs))[k].id
      {
        ValueAfter(bs, more, k);
      }
      IdsDistinct(bs);
      SameBookings(Values(ById(bs + more)), Values(ById(bs)), Ids(bs));
    }
  }

  lemma FlattenOne(results: seq<seq<Booking>>, list: seq<Booking>)
    ensures Flatten(results + [list]) == Flatten(results) + list
  {
    assert (results + [list])[..|results|] == results;
  }

  // ---------------------------------------------------------------- statistics

  predicate CountsOn(b: Booking, today: string) {
    b.date == today && Paid(b)
  }

  function BookingsToday(bs: seq<Booking>, today: string): nat {
    if bs == [] then 0 else BookingsToday(bs[..|bs| - 1], today) + (if CountsOn(bs[|bs| - 1], today) then 1 else 0)
  }

  /** `startsWith`. */
  predicate InMonth(b: Booking, month: string) {
    month <= b.date
  }

  function Revenue(bs: seq<Booking>, month: string): int {
    if bs == [] then 0
    else
      var b := bs[|bs| - 1];
      Revenue(bs[..|bs| - 1], month) + (if InMonth(b, month) && Paid(b) then b.totalPrice else 0)
  }

  function VenueCounts(venues: seq<string>, bs: seq<Booking>, today: string): seq<Entry<int>> {
    if bs != [] then
      var counts, b := VenueCounts(venues, bs[..|bs| - 1], today), bs[|bs| - 1];
      if CountsOn(b, today) then Set(counts, b.venueId, Lookup(counts, b.venueId, 0) + 1) else counts
    else if venues != [] then Set(VenueCounts(venues[..|venues| - 1], [], today), venues[|venues| - 1], 0)
    else []
  }

  method BookingsTodayByVenue(venues: seq<string>, bs: seq<Booking>, today: string) returns (counts: seq<Entry<int>>)
    ensures counts == VenueCounts(venues, bs, today)
  {
    counts := [];
    for i := 0 to |venues|
      invariant counts == VenueCounts(venues[..i], [], today)
    {
      assert venues[..i + 1][..i] == venues[..i];
      counts := Set(counts, venues[i], 0);
    }
    assert venues[..|venues|] == venues;
    for i := 0 to |bs|
      invariant counts == VenueCounts(venues, bs[..i], today)
    {
      assert bs[..i + 1][..i] == bs[..i];
      var b := bs[i];
      if !(b.date == today && Paid(b)) {
        continue;
      }
      counts := Set(counts, b.venueId, Lookup(counts, b.venueId, 0) + 1);
    }
    assert bs[..|bs|] == bs;
  }

  function Total(m: seq<Entry<int>>): int {
    if m == [] then 0 else m[0].value + Total(m[1..])
  }

  lemma {:induction false} SetTotal(m: seq<Entry<int>>, key: string, value: int)
    ensures Total(Set(m, key, value)) == Total(m) - Lookup(m, key, 0) + value
  {
    if m != [] && m[0].key != key {
      SetTotal(m[1..], key, value);
    }
  }

  function TodayOf(bs: seq<Booking>, today: string, venue: string): nat {
    if bs == [] then 0
    else TodayOf(bs[..|bs| - 1], today, venue) +
         (if CountsOn(bs[|bs| - 1], today) && bs[|bs| - 1].venueId == venue then 1 else 0)
  }

  lemma NothingCounted(venue: string)
    ensures DistinctKeys<int>([]) && Total([]) == 0 && Lookup([], venue, 0) == 0
  {
  }

  /** The per-venue counts add up to today's bookings, and each is its own venue's. */
  lemma {:induction false} CountsConserved(venues: seq<string>, bs: seq<Booking>, today: string, venue: string)
    ensures DistinctKeys(VenueCounts(venues, bs, today))
    ensures Total(VenueCounts(venues, bs, today)) == BookingsToday(bs, today)
    ensures Lookup(VenueCounts(venues, bs, today), venue, 0) == TodayOf(bs, today, venue)
    decreases |venues| + |bs|
  {
    hide Set, Lookup, Total, DistinctKeys, CountsOn;
    NothingCounted(venue);
    if bs != [] {
      var front, b := bs[..|bs| - 1], bs[|bs| - 1];
      CountsConserved(venues, front, today, venue);
      CountsConserved(venues, front, today, b.venueId);
      var counts := VenueCounts(venues, front, today);
      SetLookup(counts, b.venueId, Lookup(counts, b.venueId, 0) + 1, venue, 0);
      SetDistinct(counts, b.venueId, Lookup(counts, b.venueId, 0) + 1);
      SetTotal(counts, b.venueId, Lookup(counts, b.venueId, 0) + 1);
    } else if venues != [] {
      var front, v := venues[..|venues| - 1], venues[|venues| - 1];
      CountsConserved(front, [], today, venue);
      CountsConserved(front, [], today, v);
      SetLookup(VenueCounts(front, [], today), v, 0, venue, 0);
      SetDistinct(VenueCounts(front, [], today), v, 0);
      SetTotal(VenueCounts(front, [], today), v, 0);
    }
  }

  lemma FiguresSnoc(bs: seq<Booking>, b: Booking, today: string, month: string)
    ensures BookingsToday(bs + [b], today) == BookingsToday(bs, today) + (if CountsOn(b, today) then 1 else 0)
    ensures Revenue(bs + [b], month) == Revenue(bs, month) + (if InMonth(b, month) && Paid(b) then b.totalPrice else 0)
  {
    assert (bs + [b])[..|bs|] == bs;
  }

  lemma {:induction false} InsertKeepsFigures(b: Booking, sorted: seq<Booking>, today: string, month: string)
    ensures BookingsToday(InsertNewest(b, sorted), today) == BookingsToday(sorted + [b], today)
    ensures Revenue(InsertNewest(b, sorted), month) == Revenue(sorted + [b], month)
  {
    hide BookingsToday, Revenue, CountsOn, InMonth;
    assert [] + [b] == [b];
    if sorted != [] && b.createdAt > sorted[|sorted| - 1].createdAt {
      var n := |sorted| - 1;
      InsertKeepsFigures(b, sorted[..n], today, month);
      FiguresSnoc(sorted[..n], b, today, month);
      FiguresSnoc(InsertNewest(b, sorted[..n]), sorted[n], today, month);
      FiguresSnoc(sorted[..n], sorted[n], today, month);
      FiguresSnoc(sorted, b, today, month);
      assert sorted == sorted[..n] + [sorted[n]];
    }
  }

  /** Sorting does not touch the figures. */
  lemma {:induction false} SortingKeepsFigures(bs: seq<Booking>, today: string, month: string)
    ensures BookingsToday(NewestFirst(bs), today) == BookingsToday(bs, today)
    ensures Revenue(NewestFirst(bs), month) == Revenue(bs, month)
  {
    if bs != [] {
      var n := |bs| - 1;
      SortingKeepsFigures(bs[..n], today, month);
      InsertKeepsFigures(bs[n], NewestFirst(bs[..n]), today, month);
      FiguresSnoc(NewestFirst(bs[..n]), bs[n], today, month);
    }
  }

  /** What the last bookings of the given ids earn in the month. */
  function RevenueOfIds(bs: seq<Booking>, ids: seq<string>, month: string, default: Booking): int {
    if ids == [] then 0
    else
      var b := Latest(bs, ids[|ids| - 1], default);
      RevenueOfIds(bs, ids[..|ids| - 1], month, default) + (if InMonth(b, month) && Paid(b) then b.totalPrice else 0)
  }

  lemma {:induction false} RevenueById(bs: seq<Booking>, k: nat, month: string, default: Booking)
    requires k <= |Ids(bs)| == |Values(ById(bs))|
    ensures Revenue(Values(ById(bs))[..k], month) == RevenueOfIds(bs, Ids(bs)[..k], month, default)
  {
    hide Latest, ById, Values, Ids;
    if k > 0 {
      RevenueById(bs, k - 1, month, default);
      MergeKeepsEachIdOnce(bs, k - 1, default);
      assert Values(ById(bs))[..k][..k - 1] == Values(ById(bs))[..k - 1];
      assert Ids(bs)[..k][..k - 1] == Ids(bs)[..k - 1];
    }
  }

  /** The month's revenue counts every booking id once, at its last reported state. */
  lemma RevenueCountsEachIdOnce(results: seq<seq<Booking>>, month: string, today: string, default: Booking)
    ensures Revenue(Merged(results), month) == RevenueOfIds(Flatten(results), Ids(Flatten(results)), month, default)
  {
    hide Latest, ById, Values, Ids, Revenue, RevenueOfIds;
    var bs := Flatten(results);
    SortingKeepsFigures(Values(ById(bs)), today, month);
    ByIdIs(bs, "", default);
    ValuesLength(ById(bs));
    RevenueById(bs, |Ids(bs)|, month, default);
    assert Values(ById(bs))[..|Ids(bs)|] == Values(ById(bs)) && Ids(bs)[..|Ids(bs)|] == Ids(bs);
  }

  /** What one more booking adds to each figure: confirmed and completed ones count, and no others. */
  lemma OneMoreBooking(bs: seq<Booking>, b: Booking, today: string, month: string, venue: string)
    ensures var paid := b.status == "confirmed" || b.status == "completed";
            && BookingsToday(bs + [b], today) == BookingsToday(bs, today) + (if paid && b.date == today then 1 else 0)
            && TodayOf(bs + [b], today, venue) == TodayOf(bs, today, venue) +
                 (if paid && b.date == today && b.venueId == venue then 1 else 0)
            && Revenue(bs + [b], month) == Revenue(bs, month) +
                 (if paid && |month| <= |b.date| && b.date[..|month|] == month then b.totalPrice else 0)
    ensures BookingsToday([], today) == TodayOf([], today, venue) == 0 && Revenue([], month) == 0
  {
    assert (bs + [b])[..|bs|] == bs;
  }

  lemma {:induction false} SetHas<V>(m: seq<Entry<V>>, key: string, value: V, other: string)
    ensures Has(Set(m, key, value), other) <==> other == key || Has(m, other)
  {
    SetKeys(m, key, value);
    HasIsKey(Set(m, key, value), other);
    HasIsKey(m, other);
    HasIsKey(m, key);
  }

  /** Every venue has its count, even without a booking. */
  lemma {:induction false} EveryVenueIsCounted(venues: seq<string>, bs: seq<Booking>, today: string, venue: string)
    requires venue in venues
    ensures Has(VenueCounts(venues, bs, today), venue)
    decreases |venues| + |bs|
  {
    hide Has, Set, Lookup, CountsOn;
    if bs != [] {
      var front, b := bs[..|bs| - 1], bs[|bs| - 1];
      EveryVenueIsCounted(venues, front, today, venue);
      var counts := VenueCounts(venues, front, today);
      SetHas(counts, b.venueId, Lookup(counts, b.venueId, 0) + 1, venue);
    } else {
      var front, v := venues[..|venues| - 1], venues[|venues| - 1];
      SetHas(VenueCounts(front, [], today), v, 0, venue);
      if venue != v {
        EveryVenueIsCounted(front, [], today, venue);
      }
    }
  }

  function CreatedThen(bs: seq<Booking>, t: int): seq<Booking> {
    if bs == [] then []
    else CreatedThen(bs[..|bs| - 1], t) + (if bs[|bs| - 1].createdAt == t then [bs[|bs| - 1]] else [])
  }

  lemma CreatedSnoc(bs: seq<Booking>, b: Booking, t: int)
    ensures CreatedThen(bs + [b], t) == CreatedThen(bs, t) + (if b.createdAt == t then [b] else [])
  {
    assert (bs + [b])[..|bs|] == bs;
  }

  lemma {:induction false} InsertIsStable(b: Booking, sorted: seq<Booking>, t: int)
    requires Descending(sorted)
    ensures CreatedThen(InsertNewest(b, sorted), t) == CreatedThen(sorted + [b], t)
  {
    hide CreatedThen;
    assert [] + [b] == [b];
    if sorted != [] && b.createdAt > sorted[|sorted| - 1].createdAt {
      var n := |sorted| - 1;
      var last := sorted[n];
      InsertIsStable(b, sorted[..n], t);
      CreatedSnoc(sorted[..n], b, t);
      CreatedSnoc(InsertNewest(b, sorted[..n]), last, t);
      CreatedSnoc(sorted[..n], last, t);
      CreatedSnoc(sorted, b, t);
      assert sorted == sorted[..n] + [last];
    }
  }

  /** Bookings created at the same time keep their order. */
  lemma {:induction false} SortIsStable(bs: seq<Booking>, t: int)
    ensures CreatedThen(NewestFirst(bs), t) == CreatedThen(bs, t)
  {
    hide CreatedThen, InsertNewest;
    if bs != [] {
      var n := |bs| - 1;
      SortIsStable(bs[..n], t);
      NewestFirstDescends(bs[..n]);
      InsertIsStable(bs[n], NewestFirst(bs[..n]), t);
      CreatedSnoc(NewestFirst(bs[..n]), bs[n], t);
      CreatedSnoc(bs[..n], bs[n], t);
      assert bs == bs[..n] + [bs[n]];
    }
  }
}
