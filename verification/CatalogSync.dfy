/**
 The catalogue's search state and the address bar (frontend/src/components/banya/catalog-section.tsx
 and masters-catalog-section.tsx, which is the same without a hub city).

 A layout effect copies the address into the fields whenever the address changes; another effect asks
 the router for a new address whenever address and fields of its render disagree.  Both belong to the
 render in which an address arrives, so that render compares the new address with the old fields.
 The question is when the two settle.
 */
module CatalogSync {
  import opened Text
  import opened CityLists
  import opened CitiesHttp
  import opened CityComparison
  import opened Wrappers

  // ---------------------------------------------------------------- the address and the fields

  predicate Noise(key: string) {
    key == "_rsc" || key == "_next"
  }

  /** The parameters the synchronisation looks at: the framework's own keys are dropped. */
  function Stable(p: Params): Params {
    if p == [] then [] else (if Noise(p[0].key) then [] else [p[0]]) + Stable(p[1..])
  }

  lemma StableStep(p: Params, i: nat)
    requires i < |p|
    ensures Stable(p[i..]) == if Noise(p[i].key) then Stable(p[i + 1..]) else [p[i]] + Stable(p[i + 1..])
  {
    assert p[i..][1..] == p[i + 1..];
  }

  method CatalogStableSearchKey(p: Params) returns (out: Params)
    ensures out == Stable(p)
  {
    hide Noise, Stable;
    out := [];
    assert p[0..] == p && out + Stable(p) == Stable(p);
    for i := 0 to |p|
      invariant out + Stable(p[i..]) == Stable(p)
    {
      StableStep(p, i);
      assert out + ([p[i]] + Stable(p[i + 1..])) == out + [p[i]] + Stable(p[i + 1..]);
      if !Noise(p[i].key) {
        out := out + [p[i]];
      }
    }
    NothingStable(p[|p|..]);
  }

  lemma NothingStable(p: Params)
    requires p == []
    ensures Stable(p) == []
  {
  }

  /** Dropping the framework's own keys changes nothing that is read under any other key. */
  lemma {:induction false} NoiseIsNotRead(p: Params, key: string)
    requires key != "_rsc" && key != "_next"
    ensures Get(Stable(p), key) == Get(p, key) && GetAll(Stable(p), key) == GetAll(p, key)
  {
    if p != [] {
      NoiseIsNotRead(p[1..], key);
      if Noise(p[0].key) {
        assert p[0].key != key && Stable(p) == Stable(p[1..]);
      } else {
        assert Stable(p)[0] == p[0] && Stable(p)[1..] == Stable(p[1..]);
      }
    }
  }

  /** And those keys, and no others, are dropped. */
  lemma {:induction false} NoiseIsDropped(p: Params, pair: Pair)
    ensures pair in Stable(p) <==> pair in p && pair.key != "_rsc" && pair.key != "_next"
  {
    if p != [] {
      NoiseIsDropped(p[1..], pair);
      assert p == [p[0]] + p[1..];
    }
  }

  /** `hub` is the city a landing page puts in the filter when the address names none. */
  datatype Page = Page(lower: string -> string, hub: Option<string>)

  /** `debouncedQuery` and `selectedCities`. */
  datatype Fields = Fields(query: string, cities: seq<string>)

  /**
   The stable part of the address, the fields, and the address the router is still on its way to: it
   takes a while to get there, and a newer request replaces an older one.
   */
  datatype State = State(url: Params, fields: Fields, pending: Option<Params>)

  function HubOr(page: Page, cities: seq<string>): seq<string> {
    if cities != [] then cities else if page.hub.Some? then [page.hub.value] else []
  }

  /** What the address says. */
  function Read(page: Page, url: Params): Fields {
    Fields(GetOr(url, "q"), Parsed(page.lower, url))
  }

  /** What the layout effect puts in the fields. */
  function Loaded(page: Page, url: Params): Fields {
    Fields(GetOr(url, "q"), HubOr(page, Parsed(page.lower, url)))
  }

  predicate Same(page: Page, f: Fields, g: Fields) {
    Trim(f.query, JsSpace) == Trim(g.query, JsSpace) && SameCityLists(page.lower, f.cities, g.cities)
  }

  predicate Agree(page: Page, url: Params, f: Fields) {
    Same(page, Read(page, url), f)
  }

  function WrittenCities(page: Page, cities: seq<string>): Params {
    if |cities| == 1 then [Pair("city", cities[0])]
    else match Packed(page.lower, cities) case Some(v) => [Pair("cities", v)] case None => []
  }

  /** The address the fields ask for. */
  function Asked(page: Page, f: Fields): Params {
    (if Trim(f.query, JsSpace) != "" then [Pair("q", Trim(f.query, JsSpace))] else []) + WrittenCities(page, f.cities)
  }

  /** The effect that keeps the address in step: it asks the router for another one if the fields disagree. */
  function Compared(page: Page, s: State): State {
    if Agree(page, s.url, s.fields) then s else s.(pending := Some(Asked(page, s.fields)))
  }

  /** The `router.replace` calls of one comparison. */
  function Calls(page: Page, url: Params, f: Fields): nat {
    if Agree(page, url, f) then 0 else 1
  }

  /**
   The pending address arrives.  If it is a new one, two renders follow: the first still shows the
   fields as they were, and its effects compare those with the new address, while the layout effect
   loads the fields the second render shows and compares.
   */
  function Arrived(page: Page, s: State): State {
    match s.pending
    case None => s
    case Some(url) =>
      if url == s.url then s.(pending := None)
      else Compared(page, Compared(page, State(url, s.fields, None)).(fields := Loaded(page, url)))
  }

  function ArrivalCalls(page: Page, s: State): nat {
    match s.pending
    case None => 0
    case Some(url) => if url == s.url then 0 else Calls(page, url, s.fields) + Calls(page, url, Loaded(page, url))
  }

  /** The page as it opens: its first two renders show the fields the address has, and compare them. */
  function Opened(page: Page, url: Params): State {
    Compared(page, State(url, Loaded(page, url), None))
  }

  /** With no further input: what is pending arrives, and so on. */
  function Arrivals(page: Page, s: State, n: nat): State {
    if n == 0 then s else Arrived(page, Arrivals(page, s, n - 1))
  }

  function TotalCalls(page: Page, s: State, n: nat): nat {
    if n == 0 then 0 else TotalCalls(page, s, n - 1) + ArrivalCalls(page, Arrivals(page, s, n - 1))
  }

  /** Nothing more will happen by itself. */
  predicate Done(s: State) {
    s.pending.None?
  }

  ghost predicate Settles(page: Page, s: State) {
    exists n: nat :: Done(Arrivals(page, s, n))
  }

  /** The hub cities are written without surrounding spaces. */
  predicate HubTrimmed(page: Page) {
    page.hub.Some? ==> page.hub.value != "" && Trimmed(page.hub.value, JsSpace)
  }

  /** Lower-casing neither makes nor removes a separator. */
  ghost predicate KeepsSeparators(lower: string -> string) {
    forall s :: (SEP in lower(s) <==> SEP in s) && (OLD_SEP in lower(s) <==> OLD_SEP in s)
  }

  /** One city, or several with no separator in their names. */
  predicate Packable(cities: seq<string>) {
    |cities| > 1 ==> Plain(cities)
  }

  predicate Tidy(page: Page, f: Fields) {
    Normal(JsFold(page.lower), f.cities) && Packable(f.cities)
  }

  // ---------------------------------------------------------------- what is written is read back

  lemma KeysDiffer()
    ensures "q" != "city" && "q" != "cities" && "city" != "cities"
  {
    assert |"q"| != |"city"| && |"q"| != |"cities"| && |"city"| != |"cities"|;
  }

  lemma AskedReads(page: Page, f: Fields)
    ensures Read(page, Asked(page, f)) == Fields(Trim(f.query, JsSpace), Parsed(page.lower, WrittenCities(page, f.cities)))
  {
    KeysDiffer();
    var rest := WrittenCities(page, f.cities);
    var url := Asked(page, f);
    if Trim(f.query, JsSpace) == "" {
      assert url == rest;
      assert rest == [] || rest[1..] == [];
      assert Get(rest, "q") == None;
    } else {
      assert url[1..] == rest;
      assert Get(url, "cities") == Get(rest, "cities");
      assert GetAll(url, "city") == [] + GetAll(rest, "city");
    }
  }

  lemma NoneWritten(page: Page)
    ensures Parsed(page.lower, []) == []
  {
    TrimmedIsFixed("", JsSpace);
  }

  /** A packed list is what unpacking its value gives. */
  lemma PackedReads(page: Page, cities: seq<string>)
    requires Normal(JsFold(page.lower), cities) && |cities| > 1
    ensures Packed(page.lower, cities) == Some(JoinWith(cities, SEP))
    ensures Parsed(page.lower, WrittenCities(page, cities)) == Unpacked(page.lower, JoinWith(cities, SEP))
  {
    var s := JoinWith(cities, SEP);
    FirstsOfNormal(JsFold(page.lower), cities);
    JoinedTrimmed(JsSpace, cities, SEP);
    TrimmedIsFixed(s, JsSpace);
    assert Get([Pair("cities", s)], "cities") == Some(s);
  }

  /** Fields with tidy cities come back from the address they ask for exactly, but for the trimmed query. */
  lemma WrittenRoundTrip(page: Page, f: Fields)
    requires Tidy(page, f)
    ensures Read(page, Asked(page, f)) == Fields(Trim(f.query, JsSpace), f.cities)
  {
    AskedReads(page, f);
    FirstsOfNormal(JsFold(page.lower), f.cities);
    if |f.cities| == 1 {
      SingleRoundTrip(page.lower, f.cities[0]);
      assert f.cities == [f.cities[0]];
    } else if |f.cities| > 1 {
      PackedReads(page, f.cities);
      UnpackPlain(page.lower, f.cities);
    } else {
      NoneWritten(page);
    }
  }

  lemma CitiesSay(page: Page, cities: seq<string>)
    ensures var rest := WrittenCities(page, cities);
            && Get(rest, "q") == None
            && (|cities| == 1 ==> GetAll(rest, "city") == cities && Get(rest, "cities") == None)
            && (Normal(JsFold(page.lower), cities) && |cities| != 1 ==>
                  Get(rest, "cities") == if |cities| >= 2 then Some(JoinWith(cities, '|')) else None)
  {
    hide Firsts, Normal;
    KeysDiffer();
    var rest := WrittenCities(page, cities);
    if Normal(JsFold(page.lower), cities) {
      PackedIs(page.lower, cities);
    }
    if rest != [] {
      assert rest[1..] == [];
    }
    if |cities| == 1 {
      assert cities == [cities[0]];
    }
  }

  /** What the written address says in so many words. */
  lemma AskedSays(page: Page, f: Fields)
    ensures var url := Asked(page, f);
            && GetOr(url, "q") == Trim(f.query, JsSpace)
            && (|f.cities| == 1 ==> GetAll(url, "city") == f.cities && Get(url, "cities") == None)
            && (Normal(JsFold(page.lower), f.cities) && |f.cities| != 1 ==>
                  Get(url, "cities") == if |f.cities| >= 2 then Some(JoinWith(f.cities, '|')) else None)
  {
    hide WrittenCities, Normal;
    KeysDiffer();
    CitiesSay(page, f.cities);
    var rest, url := WrittenCities(page, f.cities), Asked(page, f);
    if Trim(f.query, JsSpace) == "" {
      assert url == rest;
    } else {
      assert url[1..] == rest;
      assert GetAll(url, "city") == GetAll(rest, "city");
    }
  }

  /**
   When the address is rewritten, and to what: nothing happens if and only if the trimmed query is the
   address's and the lower-cased cities are the address's as a multiset; otherwise an address is asked
   for that has the trimmed query, and the cities if they can be packed.
   */
  lemma ComparedIs(page: Page, s: State)
    ensures var t := Compared(page, s);
            if && Trim(GetOr(s.url, "q"), JsSpace) == Trim(s.fields.query, JsSpace)
               && multiset(Lowered(page.lower, Parsed(page.lower, s.url))) == multiset(Lowered(page.lower, s.fields.cities))
            then t == s
            else
              && t.pending.Some? && t == s.(pending := t.pending)
              && GetOr(t.pending.value, "q") == Trim(s.fields.query, JsSpace)
              && (|s.fields.cities| == 1 ==> GetAll(t.pending.value, "city") == s.fields.cities)
              && (Tidy(page, s.fields) ==> Parsed(page.lower, t.pending.value) == s.fields.cities)
  {
    hide Parsed, SameCityLists, Asked, Tidy;
    SameCityListsIsMultisetEquality(page.lower, Parsed(page.lower, s.url), s.fields.cities);
    AskedSays(page, s.fields);
    if Tidy(page, s.fields) {
      WrittenRoundTrip(page, s.fields);
    }
  }

  /** What an arrival of a new address leaves in the fields: what that address says, or the hub's city. */
  lemma ArrivalLoads(page: Page, s: State)
    requires s.pending.Some? && s.pending.value != s.url
    ensures var t := Arrived(page, s);
            && t.url == s.pending.value && t.fields.query == GetOr(t.url, "q")
            && (Parsed(page.lower, t.url) != [] ==> t.fields.cities == Parsed(page.lower, t.url))
            && (Parsed(page.lower, t.url) == [] ==> t.fields.cities == if page.hub.Some? then [page.hub.value] else [])
  {
    hide Agree, Asked;
  }

  // ---------------------------------------------------------------- one arrival

  lemma SameSymmetric(page: Page, f: Fields, g: Fields)
    ensures Same(page, f, g) == Same(page, g, f)
  {
  }

  lemma SameTrimmed(page: Page, f: Fields, g: Fields)
    ensures Same(page, Fields(Trim(f.query, JsSpace), f.cities), g) == Same(page, f, g)
  {
    TrimTrims(f.query, JsSpace);
  }

  lemma LoadedAgrees(page: Page, url: Params)
    ensures Agree(page, url, Loaded(page, url)) <==> page.hub.None? || Read(page, url).cities != []
  {
  }

  /** Where the next arrival leads, from any state. */
  lemma ArrivedIs(page: Page, s: State)
    requires s.pending.Some? && s.pending.value != s.url
    ensures var url := s.pending.value;
            Arrived(page, s) == State(url, Loaded(page, url),
              if page.hub.Some? && Read(page, url).cities == [] then Some(Asked(page, Loaded(page, url)))
              else if Agree(page, url, s.fields) then None
              else Some(Asked(page, s.fields)))
  {
    hide Agree, Asked, Read, Loaded;
    LoadedAgrees(page, s.pending.value);
  }

  /** The hub's city, asked for because the address names none, is read back and agrees. */
  lemma HubAnswer(page: Page, url: Params)
    requires HubTrimmed(page) && page.hub.Some? && Read(page, url).cities == []
    ensures var f := Loaded(page, url);
            Asked(page, f) != url && Agree(page, Asked(page, f), f) && Read(page, Asked(page, f)).cities == [page.hub.value]
  {
    var f := Loaded(page, url);
    WrittenRoundTrip(page, f);
    SameTrimmed(page, f, f);
  }

  lemma AskedAgrees(page: Page, f: Fields)
    requires Tidy(page, f)
    ensures Agree(page, Asked(page, f), f)
  {
    WrittenRoundTrip(page, f);
    SameTrimmed(page, f, f);
  }

  lemma LoweredOfFree(lower: string -> string, names: seq<string>, sep: char)
    requires Free(names, sep) && forall s :: sep in lower(s) <==> sep in s
    ensures forall name :: name in multiset(Lowered(lower, names)) ==> sep !in name
  {
    forall name | name in multiset(Lowered(lower, names))
      ensures sep !in name
    {
      var i :| 0 <= i < |names| && Lowered(lower, names)[i] == name;
      assert sep !in names[i];
    }
  }

  lemma SeparatorShows(lower: string -> string, parsed: seq<string>, cities: seq<string>, sep: char)
    requires Free(parsed, sep) && !Free(cities, sep) && forall s :: sep in lower(s) <==> sep in s
    ensures !SameCityLists(lower, parsed, cities)
  {
    SameCityListsIsMultisetEquality(lower, parsed, cities);
    LoweredOfFree(lower, parsed, sep);
    var i :| 0 <= i < |cities| && sep in cities[i];
    assert Lowered(lower, cities)[i] in multiset(Lowered(lower, cities));
  }

  /**
   When the address the fields asked for arrives, the render that still shows those fields makes no
   further call exactly when there is at most one city or no name contains a separator.
   */
  lemma ArrivalIsSilent(page: Page, f: Fields)
    requires KeepsSeparators(page.lower) && Normal(JsFold(page.lower), f.cities)
    ensures Agree(page, Asked(page, f), f) <==> Packable(f.cities)
  {
    if Packable(f.cities) {
      AskedAgrees(page, f);
    } else {
      var s := JoinWith(f.cities, SEP);
      AskedReads(page, f);
      PackedReads(page, f.cities);
      UnpackedIsFree(page.lower, s);
      JoinedHas(f.cities, SEP, OLD_SEP);
      SeparatorShows(page.lower, Unpacked(page.lower, s), f.cities, if OLD_SEP in s then OLD_SEP else SEP);
    }
  }

  // ---------------------------------------------------------------- runs of arrivals

  lemma {:induction false} ArrivalsShift(page: Page, s: State, n: nat)
    ensures Arrivals(page, s, n + 1) == Arrivals(page, Arrived(page, s), n)
    ensures TotalCalls(page, s, n + 1) == ArrivalCalls(page, s) + TotalCalls(page, Arrived(page, s), n)
  {
    hide Arrived, ArrivalCalls;
    if n == 0 {
      assert Arrivals(page, s, 0) == s && TotalCalls(page, s, 0) == 0;
      assert Arrivals(page, s, 1) == Arrived(page, Arrivals(page, s, 0));
      assert TotalCalls(page, s, 1) == TotalCalls(page, s, 0) + ArrivalCalls(page, Arrivals(page, s, 0));
    } else {
      ArrivalsShift(page, s, n - 1);
    }
  }

  lemma {:induction false} DoneStays(page: Page, s: State, n: nat)
    requires Done(s)
    ensures Arrivals(page, s, n) == s && TotalCalls(page, s, n) == 0
  {
    if n > 0 {
      DoneStays(page, s, n - 1);
    }
  }

  lemma {:induction false} ArrivalsAdd(page: Page, s: State, n: nat, m: nat)
    ensures Arrivals(page, s, n + m) == Arrivals(page, Arrivals(page, s, n), m)
  {
    hide Arrived;
    if m > 0 {
      ArrivalsAdd(page, s, n, m - 1);
    }
  }

  lemma DoneLater(page: Page, s: State, n: nat, m: nat)
    requires n <= m && Done(Arrivals(page, s, n))
    ensures Arrivals(page, s, m) == Arrivals(page, s, n)
  {
    hide Arrivals, Done;
    ArrivalsAdd(page, s, n, m - n);
    DoneStays(page, Arrivals(page, s, n), m - n);
  }

  // ---------------------------------------------------------------- after an edit

  /** The fields were just edited and the comparison that followed asked for their address. */
  predicate JustAsked(page: Page, s: State) {
    !Agree(page, s.url, s.fields) && s.pending == Some(Asked(page, s.fields))
  }

  lemma EditArrives(page: Page, s: State)
    requires JustAsked(page, s) && Asked(page, s.fields) != s.url
    ensures var url := Asked(page, s.fields);
            Arrived(page, s) == State(url, Loaded(page, url),
              if page.hub.Some? && Read(page, url).cities == [] then Some(Asked(page, Loaded(page, url)))
              else if Agree(page, url, s.fields) then None
              else Some(url))
    ensures ArrivalCalls(page, s) == Calls(page, Asked(page, s.fields), s.fields) +
              (if page.hub.Some? && Read(page, Asked(page, s.fields)).cities == [] then 1 else 0)
  {
    hide Agree, Asked, Read, Loaded;
    ArrivedIs(page, s);
    LoadedAgrees(page, Asked(page, s.fields));
  }

  lemma SecondArrival(page: Page, s: State)
    requires HubTrimmed(page) && JustAsked(page, s) && Asked(page, s.fields) != s.url
    ensures var t := Arrived(page, s);
            Done(Arrived(page, t)) && ArrivalCalls(page, t) == 0
    ensures var t := Arrived(page, s);
            Arrived(page, t) == if page.hub.Some? && Read(page, Asked(page, s.fields)).cities == []
                                then State(Asked(page, t.fields), Loaded(page, Asked(page, t.fields)), None)
                                else t.(pending := None)
  {
    var url := Asked(page, s.fields);
    EditArrives(page, s);
    var t := Arrived(page, s);
    if page.hub.Some? && Read(page, url).cities == [] {
      HubAnswer(page, url);
      hide Agree, Asked, Read, Loaded, Arrived;
      ArrivedIs(page, t);
      LoadedAgrees(page, Asked(page, t.fields));
    }
  }

  lemma TwoArrivals(page: Page, s: State, n: nat)
    requires Done(Arrived(page, Arrived(page, s))) && ArrivalCalls(page, Arrived(page, s)) == 0 && n >= 2
    ensures Arrivals(page, s, n) == Arrived(page, Arrived(page, s)) && TotalCalls(page, s, n) == ArrivalCalls(page, s)
  {
    hide Arrived, ArrivalCalls, Done;
    var t := Arrived(page, s);
    ArrivalsShift(page, s, n - 1);
    ArrivalsShift(page, t, n - 2);
    DoneStays(page, Arrived(page, t), n - 2);
  }

  /**
   Whatever the names, an edit that disagrees with the address is over after two arrivals.  Besides the
   edit's own call there is one if the fields disagree with the address they asked for, and one for
   the hub if that address names no city.
   */
  lemma EditIsAnswered(page: Page, s: State, n: nat)
    requires HubTrimmed(page) && JustAsked(page, s) && n >= 2
    ensures Done(Arrivals(page, s, 2)) && Arrivals(page, s, n) == Arrivals(page, s, 2)
    ensures var url := Asked(page, s.fields);
            TotalCalls(page, s, n) ==
            if url == s.url then 0
            else Calls(page, url, s.fields) + (if page.hub.Some? && Read(page, url).cities == [] then 1 else 0)
  {
    if Asked(page, s.fields) == s.url {
      assert Done(Arrived(page, s)) && ArrivalCalls(page, Arrived(page, s)) == 0;
    } else {
      SecondArrival(page, s);
      EditArrives(page, s);
    }
    TwoArrivals(page, s, 2);
    TwoArrivals(page, s, n);
  }

  /**
   Without a hub city the edit's own call is the only one exactly when its cities can be packed, or the
   address they ask for is already there.
   */
  lemma OneRound(page: Page, s: State, n: nat)
    requires page.hub.None? && KeepsSeparators(page.lower) && Normal(JsFold(page.lower), s.fields.cities)
    requires JustAsked(page, s) && n >= 2
    ensures Done(Arrivals(page, s, n)) && 1 + TotalCalls(page, s, n) <= 2
    ensures 1 + TotalCalls(page, s, n) == 1 <==> Packable(s.fields.cities) || Asked(page, s.fields) == s.url
  {
    hide *;
    HubTrimmedWithout(page);
    EditIsAnswered(page, s, n);
    ArrivalIsSilent(page, s.fields);
    CallsIs(page, Asked(page, s.fields), s.fields);
  }

  lemma HubTrimmedWithout(page: Page)
    requires page.hub.None?
    ensures HubTrimmed(page)
  {
  }

  lemma CallsIs(page: Page, url: Params, f: Fields)
    ensures Calls(page, url, f) == if Agree(page, url, f) then 0 else 1
  {
  }

  /** With a hub city there are at most two calls, but for lists that cannot be packed and are read back as nothing. */
  lemma TwoReplaceCalls(page: Page, s: State, n: nat)
    requires page.hub.Some? && HubTrimmed(page) && KeepsSeparators(page.lower) && Normal(JsFold(page.lower), s.fields.cities)
    requires JustAsked(page, s) && n >= 2
    ensures Done(Arrivals(page, s, n)) && 1 + TotalCalls(page, s, n) <= 3
    ensures 1 + TotalCalls(page, s, n) <= 2 <==>
            Packable(s.fields.cities) || Read(page, Asked(page, s.fields)).cities != [] || Asked(page, s.fields) == s.url
  {
    hide *;
    EditIsAnswered(page, s, n);
    ArrivalIsSilent(page, s.fields);
    CallsIs(page, Asked(page, s.fields), s.fields);
  }

  lemma PackableDiffers(page: Page, s: State)
    requires JustAsked(page, s) && Tidy(page, s.fields)
    ensures Asked(page, s.fields) != s.url
  {
    AskedAgrees(page, s.fields);
  }

  /**
   The user's tidy choice survives: at the end address and fields agree and hold exactly the selected
   cities and the trimmed query, unless the list was emptied on a hub page, whose own city then returns.
   */
  lemma ChoiceSurvives(page: Page, s: State)
    requires HubTrimmed(page) && JustAsked(page, s) && Tidy(page, s.fields)
    ensures var t := Arrivals(page, s, 2);
            && Done(t) && Agree(page, t.url, t.fields)
            && t.fields == Fields(Trim(s.fields.query, JsSpace), HubOr(page, s.fields.cities))
            && t.url == Asked(page, t.fields)
  {
    var f := s.fields;
    var url := Asked(page, f);
    PackableDiffers(page, s);
    EditIsAnswered(page, s, 2);
    SecondArrival(page, s);
    EditArrives(page, s);
    TwoArrivals(page, s, 2);
    WrittenRoundTrip(page, f);
    TrimTrims(f.query, JsSpace);
    AskedAgrees(page, f);
    var t := Arrivals(page, s, 2);
    if page.hub.Some? && f.cities == [] {
      HubAnswer(page, url);
      WrittenRoundTrip(page, Loaded(page, url));
      LoadedAgrees(page, t.url);
    } else {
      LoadedAgrees(page, url);
    }
  }

  /** Two arrivals are always enough after an edit, and one is exactly when the edit's own call was the only one. */
  lemma TwoRounds(page: Page, s: State)
    requires HubTrimmed(page) && JustAsked(page, s)
    ensures Done(Arrivals(page, s, 2))
    ensures Done(Arrivals(page, s, 1)) <==> TotalCalls(page, s, 2) == 0
  {
    var url := Asked(page, s.fields);
    EditIsAnswered(page, s, 2);
    assert Arrivals(page, s, 1) == Arrived(page, Arrivals(page, s, 0)) && Arrivals(page, s, 0) == s;
    if url != s.url {
      EditArrives(page, s);
    }
  }

  // ---------------------------------------------------------------- the component

  function Without(lower: string -> string, names: seq<string>, name: string): seq<string> {
    if names == [] then []
    else (if lower(names[0]) == lower(name) then [] else [names[0]]) + Without(lower, names[1..], name)
  }

  lemma {:induction false} WithoutNormal(f: Fold, names: seq<string>, name: string)
    requires Normal(f, names)
    ensures Normal(f, Without(f.lower, names, name))
    ensures forall c :: c in Without(f.lower, names, name) <==> c in names && f.lower(c) != f.lower(name)
  {
    if names != [] {
      assert Normal(f, names[1..]);
      WithoutNormal(f, names[1..], name);
      var rest := Without(f.lower, names[1..], name);
      assert names == [names[0]] + names[1..];
      forall i | 0 <= i < |rest|
        ensures f.lower(names[0]) != f.lower(rest[i])
      {
        assert rest[i] in rest && rest[i] in names[1..];
      }
    }
  }

  lemma AtMostTwo(page: Page, s: State)
    requires HubTrimmed(page) && (Done(s) || !Agree(page, s.url, s.fields))
    ensures Done(Arrivals(page, Compared(page, s), 2))
  {
    if Agree(page, s.url, s.fields) {
      DoneStays(page, s, 2);
    } else {
      EditIsAnswered(page, Compared(page, s), 2);
    }
  }

  lemma StillComing(page: Page, s: State, n: nat)
    requires Done(Arrivals(page, s, 2))
    ensures n >= 2 ==> Done(Arrivals(page, s, n))
  {
    if n >= 2 {
      DoneLater(page, s, 2, n);
    }
  }

  lemma OverSooner(page: Page, s: State, n: nat)
    requires n <= 2 && Done(Arrivals(page, s, n))
    ensures Arrivals(page, s, 2) == Arrivals(page, s, n) && TotalCalls(page, s, 2) == TotalCalls(page, s, n)
  {
    hide Arrived;
    DoneLater(page, s, n, 2);
    if n < 2 {
      DoneLater(page, s, n, n + 1);
      assert TotalCalls(page, s, n + 1) == TotalCalls(page, s, n) + ArrivalCalls(page, Arrivals(page, s, n));
    }
  }

  class Catalog {
    const page: Page
    var url: Params
    var query: string
    var cities: seq<string>
    var draft: string
    var pending: Option<Params>
    var replaceCalls: nat

    function View(): State
      reads this
    {
      State(url, Fields(query, cities), pending)
    }

    constructor (page: Page, url: Params)
      ensures this.page == page && draft == ""
      ensures View() == State(url, Loaded(page, url), None) && replaceCalls == 0
    {
      this.page, this.url, this.query := page, url, GetOr(url, "q");
      this.cities, this.draft := HubOr(page, Parsed(page.lower, url)), "";
      this.pending, this.replaceCalls := None, 0;
    }

    /** The effects of the first two renders, which both show the fields the page opened with. */
    method Open()
      requires View() == State(url, Loaded(page, url), None)
      modifies this
      ensures View() == Opened(page, old(url))
      ensures replaceCalls == old(replaceCalls) + 2 * Calls(page, url, Loaded(page, url))
    {
      SyncUrl();
      LoadFromUrl();
      SyncUrl();
    }

    /** What the layout effect sets, as the next render shows it. */
    method LoadFromUrl()
      modifies `query, `cities, `draft
      ensures View() == old(View()).(fields := Loaded(page, url)) && draft == ""
    {
      var parsed := ParseCities(page.lower, url);
      query := GetOr(url, "q");
      cities := if |parsed| > 0 then parsed else if page.hub.Some? then [page.hub.value] else [];
      draft := "";
    }

    /** The effect that keeps the address in step with the fields of its render. */
    method SyncUrl()
      modifies `pending, `replaceCalls
      ensures View() == Compared(page, old(View()))
      ensures replaceCalls == old(replaceCalls) + Calls(page, url, Fields(query, cities))
    {
      hide SameCityLists, Parsed, Trim;
      var urlQuery := Trim(GetOr(url, "q"), JsSpace);
      var urlCities := ParseCities(page.lower, url);
      if urlQuery == Trim(query, JsSpace) && SameCityLists(page.lower, urlCities, cities) {
        return;
      }
      var next: Params := [];
      if Trim(query, JsSpace) != "" {
        next := next + [Pair("q", Trim(query, JsSpace))];
      }
      if |cities| == 1 {
        next := next + [Pair("city", cities[0])];
      } else if |cities| > 1 {
        var packed := PackCitiesForQuery(page.lower, cities);
        if packed.Some? {
          next := next + [Pair("cities", packed.value)];
        }
      }
      assert next == Asked(page, View().fields);
      pending, replaceCalls := Some(next), replaceCalls + 1;
    }

    /**
     The router reaches the pending address.  The effects of the render it causes still see the fields
     as they were; those the layout effect sets are seen by the render after it.
     */
    method ReceiveAddress()
      modifies this
      ensures View() == Arrived(page, old(View()))
      ensures replaceCalls == old(replaceCalls) + ArrivalCalls(page, old(View()))
    {
      hide Agree, Asked, Loaded;
      if pending.None? {
        return;
      }
      var address := pending.value;
      pending := None;
      if address == url {
        return;
      }
      url := address;
      SyncUrl();
      LoadFromUrl();
      SyncUrl();
    }

    /**
     After an edit of the fields, with nothing pending or nothing that the edit does not replace: the
     effects run and addresses arrive until nothing is pending, with no input in between.
     */
    method Settle()
      requires HubTrimmed(page) && (pending.None? || !Agree(page, url, Fields(query, cities)))
      modifies this
      ensures View() == Arrivals(page, Compared(page, old(View())), 2) && pending.None?
      ensures replaceCalls == old(replaceCalls) + Calls(page, old(url), old(View().fields))
                              + TotalCalls(page, Compared(page, old(View())), 2)
    {
      hide Arrived, ArrivalCalls, Asked;
      SyncUrl();
      ghost var start, base, n := View(), replaceCalls, 0;
      AtMostTwo(page, old(View()));
      assert Arrivals(page, start, 0) == start && TotalCalls(page, start, 0) == 0;
      while pending.Some?
        invariant 0 <= n <= 2 && View() == Arrivals(page, start, n)
        invariant replaceCalls == base + TotalCalls(page, start, n)
        decreases 2 - n
      {
        ReceiveAddress();
        n := n + 1;
        StillComing(page, start, n);
      }
      OverSooner(page, start, n);
    }

    /** Enter in the city field. */
    method CommitCityDraft()
      modifies `cities, `draft
      ensures Normal(JsFold(page.lower), old(cities)) ==> Normal(JsFold(page.lower), cities)
      ensures Trim(old(draft), JsSpace) == "" ==> cities == old(cities) && draft == old(draft)
      ensures Trim(old(draft), JsSpace) != "" ==>
                draft == "" && (cities == old(cities) || cities == old(cities) + [Trim(old(draft), JsSpace)])
                && exists c :: c in cities && page.lower(c) == page.lower(Trim(old(draft), JsSpace))
    {
      var t := Trim(draft, JsSpace);
      if t == "" {
        return;
      }
      TrimTrims(draft, JsSpace);
      if !(exists c :: c in cities && page.lower(c) == page.lower(t)) {
        assert forall i :: 0 <= i < |cities| ==> cities[i] in cities;
        cities := cities + [t];
        assert t in cities;
      }
      draft := "";
    }

    /** The cross on a city's chip. */
    method RemoveCity(name: string)
      modifies `cities
      ensures cities == Without(page.lower, old(cities), name)
      ensures Normal(JsFold(page.lower), old(cities)) ==> Normal(JsFold(page.lower), cities)
    {
      if Normal(JsFold(page.lower), cities) {
        WithoutNormal(JsFold(page.lower), cities, name);
      }
      cities := Without(page.lower, cities, name);
    }

    method ClearAllFilters()
      modifies `cities, `query, `draft
      ensures query == "" && draft == "" && cities == HubOr(page, [])
      ensures HubTrimmed(page) ==> Normal(JsFold(page.lower), cities)
    {
      query, draft := "", "";
      cities := if page.hub.Some? then [page.hub.value] else [];
    }
  }
}
