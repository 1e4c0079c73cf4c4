/**
 The sitemap shards (frontend/src/app/sitemap.ts) and the slug collectors that feed them
 (frontend/src/lib/seo-index-urls.ts).
 */
module Sitemap {
  import opened Wrappers

  const PER_SHARD: nat := 45_000
  const PAGE_SIZE: nat := 100
  const MAX_PAGES: nat := 200
  const STATIC_SHARD: nat := 0
  const VENUES: nat := 0
  const MASTERS: nat := 1

  // ---------------------------------------------------------------- collecting slugs

  /** A page of the listing, absent when the request failed; a slug may be empty. */
  type Page = Option<seq<string>>

  /** The order in which a JavaScript `Set` lists what was added to it, skipping empty slugs. */
  function Distinct(slugs: seq<string>): seq<string> {
    if slugs == [] then []
    else
      var front, s := Distinct(slugs[..|slugs| - 1]), slugs[|slugs| - 1];
      if s == "" || s in front then front else front + [s]
  }

  function PageAt(pages: seq<Page>, i: nat): Page {
    if i < |pages| then pages[i] else None
  }

  /** How many pages are taken, the first `k` of them being full: up to the first short one, and at most the cap. */
  function Taken(pages: seq<Page>, k: nat): nat
    requires k <= MAX_PAGES
    decreases MAX_PAGES - k
  {
    if k == MAX_PAGES then k
    else match PageAt(pages, k)
      case None => k
      case Some(p) => if p == [] then k else if |p| < PAGE_SIZE then k + 1 else Taken(pages, k + 1)
  }

  function Concat(pages: seq<Page>, n: nat): seq<string> {
    if n == 0 then [] else Concat(pages, n - 1) + (match PageAt(pages, n - 1) case None => [] case Some(p) => p)
  }

  function Collected(pages: seq<Page>): seq<string> {
    Distinct(Concat(pages, Taken(pages, 0)))
  }

  /** The inner loop: one page's slugs are added to the set. */
  method AddPage(slugs: seq<string>, page: seq<string>, ghost before: seq<string>) returns (more: seq<string>)
    requires slugs == Distinct(before)
    ensures more == Distinct(before + page)
  {
    hide Distinct;
    more := slugs;
    assert before + page[..0] == before;
    for i := 0 to |page|
      invariant more == Distinct(before + page[..i])
    {
      var s := page[i];
      PrefixSnoc(before, page, i);
      DistinctSnoc(before + page[..i], s);
      if s != "" && s !in more {
        more := more + [s];
      }
    }
    assert before + page[..|page|] == before + page;
  }

  lemma PrefixSnoc(before: seq<string>, page: seq<string>, i: nat)
    requires i < |page|
    ensures before + page[..i + 1] == before + page[..i] + [page[i]]
  {
  }

  lemma DistinctSnoc(slugs: seq<string>, s: string)
    ensures Distinct(slugs + [s]) == if s == "" || s in Distinct(slugs) then Distinct(slugs) else Distinct(slugs) + [s]
  {
    assert (slugs + [s])[..|slugs|] == slugs;
  }

  /** Both collectors: an unbounded loop left by its breaks, at most two hundred requests. */
  method CollectSlugs(pages: seq<Page>) returns (slugs: seq<string>, requests: nat)
    ensures slugs == Collected(pages) && requests <= MAX_PAGES
  {
    hide Distinct;
    EmptyIsDistinct();
    slugs, requests := [], 0;
    var page := 1;
    while true
      invariant 1 <= page <= MAX_PAGES && requests == page - 1
      invariant slugs == Distinct(Concat(pages, page - 1)) && Taken(pages, 0) == Taken(pages, page - 1)
      decreases MAX_PAGES - page
    {
      requests := requests + 1;
      var data := PageAt(pages, page - 1);
      if data.None? || data.value == [] {
        break;
      }
      slugs := AddPage(slugs, data.value, Concat(pages, page - 1));
      if |data.value| < PAGE_SIZE {
        break;
      }
      page := page + 1;
      if page > MAX_PAGES {
        break;
      }
    }
  }

  lemma EmptyIsDistinct()
    ensures Distinct([]) == []
  {
  }

  predicate NoRepeats(xs: seq<string>) {
    forall i, j :: 0 <= i < j < |xs| ==> xs[i] != xs[j]
  }

  /** Nothing twice, nothing empty, nothing invented and nothing lost. */
  lemma {:induction false} DistinctIs(slugs: seq<string>)
    ensures NoRepeats(Distinct(slugs)) && "" !in Distinct(slugs)
    ensures forall s :: s in Distinct(slugs) <==> s in slugs && s != ""
  {
    if slugs != [] {
      DistinctIs(slugs[..|slugs| - 1]);
      assert slugs == slugs[..|slugs| - 1] + [slugs[|slugs| - 1]];
    }
  }

  // ---------------------------------------------------------------- shard ids

  function Pow2(k: nat): nat {
    if k == 0 then 1 else 2 * Pow2(k - 1)
  }

  /** `a | b`, bit by bit, on numbers that stay below 2^31. */
  function BitOr(a: nat, b: nat): nat
    decreases a + b
  {
    if a == 0 && b == 0 then 0 else 2 * BitOr(a / 2, b / 2) + (if a % 2 == 1 || b % 2 == 1 then 1 else 0)
  }

  function BitAnd(a: nat, b: nat): nat
    decreases a + b
  {
    if a == 0 && b == 0 then 0 else 2 * BitAnd(a / 2, b / 2) + (if a % 2 == 1 && b % 2 == 1 then 1 else 0)
  }

  const SHIFT: nat := 0x4000_0000

  /** `(kind << 30) | page`. */
  function EncodeShardId(kind: nat, page: nat): nat {
    BitOr(kind * SHIFT, page)
  }

  /** `(id >>> 30) & 1`. */
  function DecodeKind(id: nat): nat {
    BitAnd(id / SHIFT, 1)
  }

  /** `id & 0x3fffffff`. */
  function DecodePage(id: nat): nat {
    BitAnd(id, SHIFT - 1)
  }

  lemma {:induction false} BitOrDisjoint(high: nat, low: nat, k: nat)
    requires low < Pow2(k)
    ensures BitOr(high * Pow2(k), low) == high * Pow2(k) + low
  {
    if k == 0 {
      BitOrZero(high);
    } else {
      var half := high * Pow2(k - 1);
      assert high * Pow2(k) == 2 * half;
      BitOrDisjoint(high, low / 2, k - 1);
    }
  }

  lemma {:induction false} BitOrZero(a: nat)
    ensures BitOr(a, 0) == a
  {
    if a > 0 {
      BitOrZero(a / 2);
    }
  }

  lemma {:induction false} BitAndZero(a: nat)
    ensures BitAnd(a, 0) == 0
  {
    if a > 0 {
      BitAndZero(a / 2);
    }
  }

  /** Masking with k ones keeps the low k bits. */
  lemma {:induction false} BitAndMask(high: nat, low: nat, k: nat)
    requires low < Pow2(k)
    ensures BitAnd(high * Pow2(k) + low, Pow2(k) - 1) == low
  {
    if k == 0 {
      BitAndZero(high);
    } else {
      var half := high * Pow2(k - 1);
      assert high * Pow2(k) == 2 * half;
      BitAndMask(high, low / 2, k - 1);
      assert (2 * half + low) / 2 == half + low / 2 && (Pow2(k) - 1) / 2 == Pow2(k - 1) - 1;
    }
  }

  lemma {:induction false} BitAndAtMost(a: nat, b: nat)
    ensures BitAnd(a, b) <= b
    decreases a + b
  {
    if a > 0 || b > 0 {
      BitAndAtMost(a / 2, b / 2);
    }
  }

  lemma {:induction false} BitOrAtLeast(a: nat, b: nat)
    ensures BitOr(a, b) >= a && BitOr(a, b) >= b
    decreases a + b
  {
    if a > 0 || b > 0 {
      BitOrAtLeast(a / 2, b / 2);
    }
  }

  lemma ShiftIsPow2()
    ensures Pow2(30) == SHIFT
  {
    assert Pow2(10) == 1024;
    assert Pow2(20) == 1024 * 1024 by {
      assert Pow2(15) == 32 * Pow2(10);
    }
    assert Pow2(25) == 32 * Pow2(20);
  }

  lemma EncodeIsSum(kind: nat, page: nat)
    requires page < SHIFT
    ensures EncodeShardId(kind, page) == kind * SHIFT + page
  {
    hide Pow2, BitOr;
    ShiftIsPow2();
    BitOrDisjoint(kind, page, 30);
  }

  /** Decoding inverts encoding exactly for the pages below 2^30, for either kind. */
  lemma DecodeInvertsEncode(kind: nat, page: nat)
    requires kind == VENUES || kind == MASTERS
    ensures DecodeKind(EncodeShardId(kind, page)) == kind && DecodePage(EncodeShardId(kind, page)) == page
            <==> page < SHIFT
  {
    var id := EncodeShardId(kind, page);
    BitAndAtMost(id, SHIFT - 1);
    if page < SHIFT {
      hide Pow2, BitOr, BitAnd, EncodeShardId;
      EncodeIsSum(kind, page);
      ShiftIsPow2();
      BitAndMask(kind, page, 30);
      OneBit(kind);
    }
  }

  lemma OneBit(kind: nat)
    requires kind == VENUES || kind == MASTERS
    ensures BitAnd(kind, 1) == kind
  {
    assert BitAnd(0, 0) == 0;
  }

  /** Only venue page zero shares the static shard's id. */
  lemma OnlyCollision(kind: nat, page: nat)
    requires kind == VENUES || kind == MASTERS
    ensures EncodeShardId(kind, page) == STATIC_SHARD <==> kind == VENUES && page == 0
  {
    BitOrAtLeast(kind * SHIFT, page);
    if kind == VENUES && page == 0 {
      assert BitOr(0, 0) == 0;
    }
  }

  // ---------------------------------------------------------------- shards

  function Shards(n: nat): nat {
    if n == 0 then 1 else (n + PER_SHARD - 1) / PER_SHARD
  }

  function KindIds(kind: nat, shards: nat): seq<nat> {
    if shards == 0 then [] else KindIds(kind, shards - 1) + [EncodeShardId(kind, shards - 1)]
  }

  function ShardIds(venues: nat, masters: nat): seq<nat> {
    [STATIC_SHARD] + KindIds(VENUES, Shards(venues)) + KindIds(MASTERS, Shards(masters))
  }

  /** The ids of all shards: the static one, then the venues', then the masters'. */
  method GenerateSitemaps(venues: seq<string>, masters: seq<string>) returns (ids: seq<nat>)
    ensures ids == ShardIds(|venues|, |masters|)
  {
    ids := [STATIC_SHARD];
    for i := 0 to Shards(|venues|)
      invariant ids == [STATIC_SHARD] + KindIds(VENUES, i)
    {
      ids := ids + [EncodeShardId(VENUES, i)];
    }
    ghost var before := ids;
    for i := 0 to Shards(|masters|)
      invariant ids == before + KindIds(MASTERS, i)
    {
      ids := ids + [EncodeShardId(MASTERS, i)];
    }
  }

  /** `slice`, which clips at the end of the list. */
  function Slice(xs: seq<string>, from: nat, to: nat): seq<string>
    requires from <= to
  {
    if from >= |xs| then [] else if to >= |xs| then xs[from..] else xs[from..to]
  }

  datatype Shard = Static | Venues(slugs: seq<string>) | Masters(slugs: seq<string>)

  /** What one shard lists. */
  function Serve(id: nat, venues: seq<string>, masters: seq<string>): Shard {
    var page := DecodePage(id);
    if id == STATIC_SHARD then Static
    else if DecodeKind(id) == VENUES then Venues(Slice(venues, page * PER_SHARD, (page + 1) * PER_SHARD))
    else Masters(Slice(masters, page * PER_SHARD, (page + 1) * PER_SHARD))
  }

  function VenueSlugs(ids: seq<nat>, venues: seq<string>, masters: seq<string>): seq<string> {
    if ids == [] then []
    else
      VenueSlugs(ids[..|ids| - 1], venues, masters) +
      VenuesOf(Serve(ids[|ids| - 1], venues, masters))
  }

  function MasterSlugs(ids: seq<nat>, venues: seq<string>, masters: seq<string>): seq<string> {
    if ids == [] then []
    else
      MasterSlugs(ids[..|ids| - 1], venues, masters) +
      MastersOf(Serve(ids[|ids| - 1], venues, masters))
  }

  lemma ServeEncoded(kind: nat, i: nat, venues: seq<string>, masters: seq<string>)
    requires (kind == 0 || kind == 1) && i < SHIFT
    ensures Serve(EncodeShardId(kind, i), venues, masters) ==
            if kind == 1 then Masters(Slice(masters, i * PER_SHARD, (i + 1) * PER_SHARD))
            else if i == 0 then Static
            else Venues(Slice(venues, i * PER_SHARD, (i + 1) * PER_SHARD))
  {
    hide EncodeShardId, DecodeKind, DecodePage, Slice;
    DecodeInvertsEncode(kind, i);
    OnlyCollision(kind, i);
  }

  lemma SliceExtends(xs: seq<string>, i: nat)
    ensures Slice(xs, 0, i * PER_SHARD) + Slice(xs, i * PER_SHARD, (i + 1) * PER_SHARD) == Slice(xs, 0, (i + 1) * PER_SHARD)
  {
  }

  lemma KindIdsStep(kind: nat, k: nat)
    requires k > 0
    ensures KindIds(kind, k) == KindIds(kind, k - 1) + [EncodeShardId(kind, k - 1)]
    ensures KindIds(kind, 0) == []
  {
    hide EncodeShardId;
  }

  lemma NoIds(venues: seq<string>, masters: seq<string>)
    ensures MasterSlugs([], venues, masters) == [] && VenueSlugs([], venues, masters) == []
    ensures Slice(masters, 0, 0) == []
  {
  }

  lemma {:induction false} MasterShards(k: nat, venues: seq<string>, masters: seq<string>)
    requires k <= SHIFT
    ensures MasterSlugs(KindIds(MASTERS, k), venues, masters) == Slice(masters, 0, k * PER_SHARD)
    ensures VenueSlugs(KindIds(MASTERS, k), venues, masters) == []
  {
    hide Serve, EncodeShardId, Slice, MasterSlugs, VenueSlugs, KindIds;
    NoIds(venues, masters);
    KindIdsStep(MASTERS, if k == 0 then 1 else k);
    if k > 0 {
      MasterShards(k - 1, venues, masters);
      SlugsSnoc(KindIds(MASTERS, k - 1), EncodeShardId(MASTERS, k - 1), venues, masters);
      ServeEncoded(MASTERS, k - 1, venues, masters);
      SliceExtends(masters, k - 1);
    }
  }

  lemma {:induction false} VenueShards(k: nat, venues: seq<string>, masters: seq<string>)
    requires 1 <= k <= SHIFT
    ensures Slice(venues, 0, PER_SHARD) + VenueSlugs(KindIds(VENUES, k), venues, masters) == Slice(venues, 0, k * PER_SHARD)
    ensures MasterSlugs(KindIds(VENUES, k), venues, masters) == []
  {
    hide Serve, EncodeShardId, Slice, MasterSlugs, VenueSlugs, KindIds;
    NoIds(venues, masters);
    KindIdsStep(VENUES, k);
    SlugsSnoc(KindIds(VENUES, k - 1), EncodeShardId(VENUES, k - 1), venues, masters);
    ServeEncoded(VENUES, k - 1, venues, masters);
    if k == 1 {
      NoneAdded(Slice(venues, 0, PER_SHARD));
    } else {
      VenueShards(k - 1, venues, masters);
      SliceExtends(venues, k - 1);
      Assoc(Slice(venues, 0, PER_SHARD), VenueSlugs(KindIds(VENUES, k - 1), venues, masters),
            Slice(venues, (k - 1) * PER_SHARD, k * PER_SHARD));
    }
  }

  function VenuesOf(shard: Shard): seq<string> {
    match shard case Venues(slugs) => slugs case _ => []
  }

  function MastersOf(shard: Shard): seq<string> {
    match shard case Masters(slugs) => slugs case _ => []
  }

  lemma SlugsSnoc(ids: seq<nat>, id: nat, venues: seq<string>, masters: seq<string>)
    ensures MasterSlugs(ids + [id], venues, masters) == MasterSlugs(ids, venues, masters) + MastersOf(Serve(id, venues, masters))
    ensures VenueSlugs(ids + [id], venues, masters) == VenueSlugs(ids, venues, masters) + VenuesOf(Serve(id, venues, masters))
  {
    hide Serve;
    assert (ids + [id])[..|ids|] == ids;
  }

  lemma Assoc<T>(a: seq<T>, b: seq<T>, c: seq<T>)
    ensures (a + b) + c == a + (b + c)
  {
  }

  lemma LastApart<T>(b: seq<T>)
    requires b != []
    ensures b[..|b| - 1] + [b[|b| - 1]] == b
  {
  }

  lemma NoneAdded<T>(a: seq<T>)
    ensures a + [] == a && [] + a == a
  {
  }

  lemma {:induction false} ConcatIds(a: seq<nat>, b: seq<nat>, venues: seq<string>, masters: seq<string>)
    ensures MasterSlugs(a + b, venues, masters) == MasterSlugs(a, venues, masters) + MasterSlugs(b, venues, masters)
    ensures VenueSlugs(a + b, venues, masters) == VenueSlugs(a, venues, masters) + VenueSlugs(b, venues, masters)
  {
    if b == [] {
      hide Serve;
      assert a + b == a;
    } else {
      hide *;
      var n := |b| - 1;
      var front, last := b[..n], b[n];
      ConcatIds(a, front, venues, masters);
      SlugsSnoc(a + front, last, venues, masters);
      SlugsSnoc(front, last, venues, masters);
      LastApart(b);
      Assoc(a, front, [last]);
      Assoc(MasterSlugs(a, venues, masters), MasterSlugs(front, venues, masters), MastersOf(Serve(last, venues, masters)));
      Assoc(VenueSlugs(a, venues, masters), VenueSlugs(front, venues, masters), VenuesOf(Serve(last, venues, masters)));
    }
  }

  lemma ShardIdsIs(venues: nat, masters: nat)
    ensures ShardIds(venues, masters) == [STATIC_SHARD] + KindIds(VENUES, Shards(venues)) + KindIds(MASTERS, Shards(masters))
  {
    hide KindIds, Shards;
  }

  lemma StaticAddsNothing(v: seq<nat>, venues: seq<string>, masters: seq<string>)
    ensures MasterSlugs([STATIC_SHARD] + v, venues, masters) == MasterSlugs(v, venues, masters)
    ensures VenueSlugs([STATIC_SHARD] + v, venues, masters) == VenueSlugs(v, venues, masters)
  {
    hide VenueSlugs, MasterSlugs, Serve;
    StaticServes(venues, masters);
    ConcatIds([STATIC_SHARD], v, venues, masters);
  }

  lemma SplitIds(venues: seq<string>, masters: seq<string>)
    ensures var ids := ShardIds(|venues|, |masters|);
            var v, m := KindIds(VENUES, Shards(|venues|)), KindIds(MASTERS, Shards(|masters|));
            && MasterSlugs(ids, venues, masters) == MasterSlugs(v, venues, masters) + MasterSlugs(m, venues, masters)
            && VenueSlugs(ids, venues, masters) == VenueSlugs(v, venues, masters) + VenueSlugs(m, venues, masters)
  {
    hide *;
    ShardIdsIs(|venues|, |masters|);
    var v, m := KindIds(VENUES, Shards(|venues|)), KindIds(MASTERS, Shards(|masters|));
    StaticAddsNothing(v, venues, masters);
    ConcatIds([STATIC_SHARD] + v, m, venues, masters);
  }

  lemma AllIds(venues: seq<string>, masters: seq<string>)
    requires Shards(|venues|) <= SHIFT && Shards(|masters|) <= SHIFT
    ensures var ids := ShardIds(|venues|, |masters|);
            && MasterSlugs(ids, venues, masters) == Slice(masters, 0, Shards(|masters|) * PER_SHARD)
            && Slice(venues, 0, PER_SHARD) + VenueSlugs(ids, venues, masters) == Slice(venues, 0, Shards(|venues|) * PER_SHARD)
  {
    AtLeastOneShard(|venues|);
    hide *;
    SplitIds(venues, masters);
    VenueShards(Shards(|venues|), venues, masters);
    MasterShards(Shards(|masters|), venues, masters);
    NoneAdded(MasterSlugs(KindIds(MASTERS, Shards(|masters|)), venues, masters));
    NoneAdded(VenueSlugs(KindIds(VENUES, Shards(|venues|)), venues, masters));
  }

  lemma AtLeastOneShard(n: nat)
    ensures Shards(n) >= 1
  {
  }

  lemma StaticServes(venues: seq<string>, masters: seq<string>)
    ensures MasterSlugs([0], venues, masters) == [] && VenueSlugs([0], venues, masters) == []
  {
    assert Serve(0, venues, masters) == Static;
    assert [0][..0] == [];
  }

  lemma WholeSlice(xs: seq<string>)
    ensures Slice(xs, 0, Shards(|xs|) * PER_SHARD) == xs
  {
  }

  /** Every master is listed exactly once, in order, for any number of masters the id layout can number. */
  lemma MastersAllListed(venues: seq<string>, masters: seq<string>)
    requires Shards(|venues|) <= SHIFT && Shards(|masters|) <= SHIFT
    ensures MasterSlugs(ShardIds(|venues|, |masters|), venues, masters) == masters
  {
    hide *;
    AllIds(venues, masters);
    WholeSlice(masters);
  }

  /**
   The venues listed are those after the first 45,000: page zero of the venues has the static
   shard's id, so the whole list is served exactly when there are no venues at all.
   */
  lemma FirstVenuesMissing(venues: seq<string>, masters: seq<string>)
    requires Shards(|venues|) <= SHIFT && Shards(|masters|) <= SHIFT
    ensures var listed := VenueSlugs(ShardIds(|venues|, |masters|), venues, masters);
            && Slice(venues, 0, PER_SHARD) + listed == venues
            && (listed == venues <==> venues == [])
  {
    hide VenueSlugs, ShardIds, Shards;
    AllIds(venues, masters);
    WholeSlice(venues);
  }

  lemma {:induction false} ConcatAtMost(pages: seq<Page>, n: nat)
    requires forall i: nat :: i < n && PageAt(pages, i).Some? ==> |PageAt(pages, i).value| <= PAGE_SIZE
    ensures |Concat(pages, n)| <= n * PAGE_SIZE
  {
    if n > 0 {
      ConcatAtMost(pages, n - 1);
    }
  }

  lemma {:induction false} DistinctAtMost(slugs: seq<string>)
    ensures |Distinct(slugs)| <= |slugs|
  {
    if slugs != [] {
      DistinctAtMost(slugs[..|slugs| - 1]);
    }
  }

  lemma {:induction false} TakenAtMost(pages: seq<Page>, k: nat)
    requires k <= MAX_PAGES
    ensures k <= Taken(pages, k) <= MAX_PAGES
    decreases MAX_PAGES - k
  {
    if k < MAX_PAGES {
      TakenAtMost(pages, k + 1);
    }
  }

  /**
   When no page of the listing is longer than the page size asked for, the collectors stop at twenty
   thousand slugs, which is one shard of each kind; the only venue shard is then page zero, so the
   sitemaps list no venue at all.
   */
  lemma NoVenueIsEverListed(pages: seq<Page>, masters: seq<string>)
    requires forall i: nat :: PageAt(pages, i).Some? ==> |PageAt(pages, i).value| <= PAGE_SIZE
    requires Shards(|masters|) <= SHIFT
    ensures |Collected(pages)| <= MAX_PAGES * PAGE_SIZE && Shards(|Collected(pages)|) == 1
    ensures VenueSlugs(ShardIds(|Collected(pages)|, |masters|), Collected(pages), masters) == []
  {
    hide VenueSlugs, ShardIds, Distinct, Concat, Taken, PageAt;
    TakenAtMost(pages, 0);
    ConcatAtMost(pages, Taken(pages, 0));
    DistinctAtMost(Concat(pages, Taken(pages, 0)));
    FirstVenuesMissing(Collected(pages), masters);
    var listed := VenueSlugs(ShardIds(|Collected(pages)|, |masters|), Collected(pages), masters);
    assert Slice(Collected(pages), 0, PER_SHARD) == Collected(pages);
    assert |Collected(pages) + listed| == |Collected(pages)|;
  }

  /** What the masters' shards list of a collected list has no slug twice. */
  lemma CollectedMastersOnce(venues: seq<string>, pages: seq<Page>)
    requires Shards(|venues|) <= SHIFT && Shards(|Collected(pages)|) <= SHIFT
    ensures NoRepeats(MasterSlugs(ShardIds(|venues|, |Collected(pages)|), venues, Collected(pages)))
    ensures forall s :: s in MasterSlugs(ShardIds(|venues|, |Collected(pages)|), venues, Collected(pages)) <==>
              s != "" && s in Concat(pages, Taken(pages, 0))
  {
    hide MasterSlugs, ShardIds, Shards, Distinct, Concat, Taken;
    MastersAllListed(venues, Collected(pages));
    DistinctIs(Concat(pages, Taken(pages, 0)));
  }

  // ---------------------------------------------------------------- in plain numbers

  lemma {:induction false} TakenFrom(pages: seq<Page>, k: nat, i: nat)
    requires k <= MAX_PAGES
    ensures var n := Taken(pages, k);
            && k <= n <= MAX_PAGES
            && (k <= i < n ==>
                  PageAt(pages, i).Some? && PageAt(pages, i).value != [] && (i < n - 1 ==> |PageAt(pages, i).value| >= PAGE_SIZE))
            && (k < n < MAX_PAGES ==>
                  (PageAt(pages, n - 1).Some? && |PageAt(pages, n - 1).value| < PAGE_SIZE) ||
                  PageAt(pages, n).None? || PageAt(pages, n).value == [])
            && (n == k < MAX_PAGES ==> PageAt(pages, n).None? || PageAt(pages, n).value == [])
    decreases MAX_PAGES - k
  {
    if k < MAX_PAGES && PageAt(pages, k).Some? && |PageAt(pages, k).value| >= PAGE_SIZE {
      TakenFrom(pages, k + 1, i);
      TakenFrom(pages, k + 1, k + 1);
    }
  }

  /**
   The pages read: at most two hundred, none of them missing or empty, all but the last of a hundred slugs
   or more; and the reading stops only at the two hundredth page, after a shorter one, or at one that is
   missing or empty.
   */
  lemma PagesRead(pages: seq<Page>, i: nat)
    ensures var n := Taken(pages, 0);
            && n <= 200
            && (i < n ==>
                  PageAt(pages, i).Some? && PageAt(pages, i).value != [] && (i < n - 1 ==> |PageAt(pages, i).value| >= 100))
            && (n == 200 || (n > 0 && PageAt(pages, n - 1).Some? && |PageAt(pages, n - 1).value| < 100) ||
                PageAt(pages, n).None? || PageAt(pages, n).value == [])
  {
    TakenFrom(pages, 0, i);
    if Taken(pages, 0) > 0 {
      TakenFrom(pages, 0, Taken(pages, 0) - 1);
    }
  }

  lemma {:induction false} ConcatHas(pages: seq<Page>, n: nat, i: nat, s: string)
    requires i < n && PageAt(pages, i).Some? && s in PageAt(pages, i).value
    ensures s in Concat(pages, n)
  {
    if i < n - 1 {
      ConcatHas(pages, n - 1, i, s);
    }
  }

  lemma {:induction false} ConcatFrom(pages: seq<Page>, n: nat, s: string)
    requires s in Concat(pages, n)
    ensures exists i: nat :: i < n && PageAt(pages, i).Some? && s in PageAt(pages, i).value
  {
    if s in Concat(pages, n - 1) {
      ConcatFrom(pages, n - 1, s);
    } else {
      assert s in PageAt(pages, n - 1).value;
    }
  }

  /** What is collected: the slugs of the pages read that are not empty. */
  lemma CollectedIs(pages: seq<Page>, s: string)
    ensures s in Collected(pages) <==>
            s != "" && exists i: nat :: i < Taken(pages, 0) && PageAt(pages, i).Some? && s in PageAt(pages, i).value
  {
    hide Distinct, Concat, Taken, PageAt;
    DistinctIs(Concat(pages, Taken(pages, 0)));
    if s in Concat(pages, Taken(pages, 0)) {
      ConcatFrom(pages, Taken(pages, 0), s);
    }
    if i: nat :| i < Taken(pages, 0) && PageAt(pages, i).Some? && s in PageAt(pages, i).value {
      ConcatHas(pages, Taken(pages, 0), i, s);
    }
  }

  /** Every shard stays below the fifty thousand addresses a sitemap may have, and page zero of the venues is the static shard. */
  lemma ShardsFit(id: nat, venues: seq<string>, masters: seq<string>)
    ensures |VenuesOf(Serve(id, venues, masters))| <= 45_000 && |MastersOf(Serve(id, venues, masters))| <= 45_000
    ensures Serve(0, venues, masters) == Static
  {
    hide DecodePage, DecodeKind;
  }

  /** The missing venues, in numbers: the first 45,000, or all of them. */
  lemma FortyFiveThousandMissing(venues: seq<string>, masters: seq<string>)
    requires Shards(|venues|) <= SHIFT && Shards(|masters|) <= SHIFT
    ensures VenueSlugs(ShardIds(|venues|, |masters|), venues, masters) == if |venues| <= 45_000 then [] else venues[45_000..]
  {
    hide VenueSlugs, ShardIds, Shards;
    FirstVenuesMissing(venues, masters);
    var listed := VenueSlugs(ShardIds(|venues|, |masters|), venues, masters);
    var first := Slice(venues, 0, PER_SHARD);
    assert (first + listed)[|first|..] == listed;
  }

  function Count(ids: seq<nat>, id: nat): nat {
    if ids == [] then 0 else Count(ids[..|ids| - 1], id) + (if ids[|ids| - 1] == id then 1 else 0)
  }

  lemma {:induction false} CountConcat(a: seq<nat>, b: seq<nat>, id: nat)
    ensures Count(a + b, id) == Count(a, id) + Count(b, id)
  {
    if b == [] {
      assert a + b == a;
    } else {
      CountConcat(a, b[..|b| - 1], id);
      assert (a + b)[..|a + b| - 1] == a + b[..|b| - 1];
    }
  }

  lemma {:induction false} CountStatic(kind: nat, k: nat)
    requires kind == VENUES || kind == MASTERS
    ensures Count(KindIds(kind, k), 0) == if kind == VENUES && k > 0 then 1 else 0
  {
    hide EncodeShardId;
    if k > 0 {
      CountStatic(kind, k - 1);
      OnlyCollision(kind, k - 1);
      assert KindIds(kind, k)[..|KindIds(kind, k)| - 1] == KindIds(kind, k - 1);
    }
  }

  /** The id of the static shard is listed twice: for itself, and for the first page of the venues. */
  lemma StaticListedTwice(venues: nat, masters: nat)
    ensures Count(ShardIds(venues, masters), 0) == 2 && ShardIds(venues, masters)[0] == 0
  {
    hide KindIds, Shards;
    AtLeastOneShard(venues);
    CountStatic(VENUES, Shards(venues));
    CountStatic(MASTERS, Shards(masters));
    CountConcat([STATIC_SHARD] + KindIds(VENUES, Shards(venues)), KindIds(MASTERS, Shards(masters)), 0);
    CountConcat([STATIC_SHARD], KindIds(VENUES, Shards(venues)), 0);
    assert [STATIC_SHARD][..0] == [];
  }
}
