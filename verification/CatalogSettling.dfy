/**
 Whether the catalogue and the address bar settle, when addresses arrive by links and the browser's
 Back as well as by the page's own requests, over any run of the page.
 */
module CatalogSettling {
  import opened Text
  import opened CityLists
  import opened CitiesHttp
  import opened CityComparison
  import opened CatalogSync
  import opened Wrappers

  // ---------------------------------------------------------------- after any address at all

  /** The fields are the address's own, and another address is on its way. */
  predicate Following(page: Page, s: State) {
    s.pending.Some? && s.fields == Loaded(page, s.url)
  }

  lemma LoadedNormal(page: Page, url: Params)
    requires HubTrimmed(page)
    ensures Normal(JsFold(page.lower), Loaded(page, url).cities)
    ensures page.hub.Some? ==> Loaded(page, url).cities != []
  {
    ParsedIsNormal(page.lower, url);
  }

  /** How clean the cities of an address are: after one writing no old separator is left, after two no separator. */
  predicate Clean(page: Page, url: Params, level: nat) {
    var cities := Loaded(page, url).cities;
    |cities| > 1 ==> (level >= 1 ==> Free(cities, OLD_SEP)) && (level >= 2 ==> Free(cities, SEP))
  }

  lemma UnpackedFree(lower: string -> string, s: string, c: char)
    requires c !in s
    ensures Free(Unpacked(lower, s), c)
  {
    var sep := if OLD_SEP in s then OLD_SEP else SEP;
    SplitFree(s, sep, c);
    FirstsFree(JsFold(lower), SplitOn(s, sep), c);
  }

  function Higher(level: nat): nat {
    if level >= 2 then 2 else level + 1
  }

  lemma FewWritten(page: Page, cities: seq<string>)
    requires |cities| <= 1
    ensures |Parsed(page.lower, WrittenCities(page, cities))| <= 1
  {
    KeysDiffer();
    if cities == [] {
      NoneWritten(page);
      assert Firsts(JsFold(page.lower), []) == [];
    } else {
      var p := [Pair("city", cities[0])];
      TrimmedIsFixed("", JsSpace);
      assert p[1..] == [] && Get(p, "cities") == None && GetAll(p, "city") == [cities[0]];
      assert [cities[0]][..0] == [] && Firsts(JsFold(page.lower), []) == [];
    }
  }

  lemma WritingCleans(page: Page, url: Params, level: nat)
    requires HubTrimmed(page) && Clean(page, url, level)
    ensures Clean(page, Asked(page, Loaded(page, url)), Higher(level))
  {
    var f := Loaded(page, url);
    AskedReads(page, f);
    LoadedNormal(page, url);
    if |f.cities| <= 1 {
      FewWritten(page, f.cities);
    } else {
      var s := JoinWith(f.cities, SEP);
      PackedReads(page, f.cities);
      UnpackedIsFree(page.lower, s);
      JoinedHas(f.cities, SEP, OLD_SEP);
      if OLD_SEP !in s {
        UnpackedFree(page.lower, s, OLD_SEP);
      }
    }
  }

  lemma FollowingStep(page: Page, s: State)
    requires HubTrimmed(page) && Following(page, s) && !Done(Arrived(page, s))
    ensures var t := Arrived(page, s);
            && Following(page, t) && t.url == s.pending.value
            && (t.pending == Some(Asked(page, Loaded(page, s.url))) || t.pending == Some(Asked(page, Loaded(page, t.url))))
  {
    hide Agree, Asked, Read, Loaded;
    ArrivedIs(page, s);
  }

  predicate Cleaned(page: Page, s: State, here: nat, there: nat) {
    Following(page, s) && Clean(page, s.url, here) && Clean(page, s.pending.value, there)
  }

  lemma CleaningStep(page: Page, s: State, here: nat, there: nat)
    requires HubTrimmed(page) && Cleaned(page, s, here, there) && here <= there <= 2 && !Done(Arrived(page, s))
    ensures Cleaned(page, Arrived(page, s), there, Higher(here))
  {
    FollowingStep(page, s);
    WritingCleans(page, s.url, here);
    WritingCleans(page, s.pending.value, there);
  }

  /** Both addresses are clean, neither leads to the hub, and they disagree. */
  predicate Clash(page: Page, s: State) {
    && Cleaned(page, s, 2, 2)
    && !Agree(page, s.pending.value, s.fields)
    && (page.hub.Some? ==> Read(page, s.pending.value).cities != [])
  }

  lemma CleanIsTidy(page: Page, url: Params)
    requires HubTrimmed(page) && Clean(page, url, 2)
    ensures Tidy(page, Loaded(page, url))
  {
    LoadedNormal(page, url);
  }

  /** An address written for tidy fields and fields it disagrees with disagree the other way round too. */
  lemma Disagreement(page: Page, f: Fields, url: Params)
    requires Tidy(page, f) && !Agree(page, url, f) && (page.hub.Some? ==> Read(page, url).cities != [])
    ensures !Agree(page, Asked(page, f), Loaded(page, url))
  {
    WrittenRoundTrip(page, f);
    SameTrimmed(page, f, Loaded(page, url));
    SameSymmetric(page, f, Loaded(page, url));
    assert Loaded(page, url) == Read(page, url);
  }

  lemma ClashArrives(page: Page, s: State)
    requires HubTrimmed(page) && Clash(page, s)
    ensures var url := s.pending.value;
            Arrived(page, s) == State(url, Loaded(page, url), Some(Asked(page, Loaded(page, s.url))))
  {
    hide Agree, Asked, Read, Loaded, Clean;
    LoadedAgrees(page, s.pending.value);
    ArrivedIs(page, s);
  }

  lemma ClashStep(page: Page, s: State)
    requires HubTrimmed(page) && Clash(page, s)
    ensures Clash(page, Arrived(page, s))
  {
    var f, url := Loaded(page, s.url), s.pending.value;
    ClashArrives(page, s);
    WritingCleans(page, s.url, 2);
    CleanIsTidy(page, s.url);
    Disagreement(page, f, url);
    WrittenRoundTrip(page, f);
    LoadedNormal(page, s.url);
  }

  lemma {:induction false} ClashForever(page: Page, s: State, n: nat)
    requires HubTrimmed(page) && Clash(page, s)
    ensures Clash(page, Arrivals(page, s, n)) && !Done(Arrivals(page, s, n))
  {
    hide Arrived;
    if n > 0 {
      ClashForever(page, s, n - 1);
      ClashStep(page, Arrivals(page, s, n - 1));
    }
  }

  /** From its third state on, the page goes back and forth between the same two addresses. */
  lemma ClashAlternates(page: Page, s: State)
    requires HubTrimmed(page) && Clash(page, s)
    ensures Arrivals(page, s, 4) == Arrivals(page, s, 2)
  {
    var u, p := Loaded(page, s.url), Loaded(page, s.pending.value);
    ClashForever(page, s, 1);
    ClashForever(page, s, 2);
    ClashForever(page, s, 3);
    ClashArrives(page, s);
    ClashArrives(page, Arrivals(page, s, 1));
    ClashArrives(page, Arrivals(page, s, 2));
    ClashArrives(page, Arrivals(page, s, 3));
    FourArrivals(page, s);
    RewrittenIs(page, s.url);
    RewrittenIs(page, s.pending.value);
  }

  lemma FourArrivals(page: Page, s: State)
    ensures Arrivals(page, s, 1) == Arrived(page, s)
    ensures Arrivals(page, s, 2) == Arrived(page, Arrivals(page, s, 1))
    ensures Arrivals(page, s, 3) == Arrived(page, Arrivals(page, s, 2))
    ensures Arrivals(page, s, 4) == Arrived(page, Arrivals(page, s, 3))
  {
    hide Arrived;
    assert Arrivals(page, s, 0) == s;
  }

  /** Loading a written clean address and asking again asks for the same address. */
  lemma RewrittenIs(page: Page, url: Params)
    requires HubTrimmed(page) && Clean(page, url, 2)
    ensures var v := Asked(page, Loaded(page, url));
            Asked(page, Loaded(page, v)) == v
  {
    var f := Loaded(page, url);
    CleanIsTidy(page, url);
    WrittenRoundTrip(page, f);
    LoadedNormal(page, url);
    TrimTrims(f.query, JsSpace);
  }

  lemma HubSettles(page: Page, s: State)
    requires HubTrimmed(page) && page.hub.Some?
    requires s.pending.Some? && s.pending.value != s.url && Read(page, s.pending.value).cities == []
    ensures Done(Arrivals(page, s, 2))
  {
    var url := s.pending.value;
    ArrivedIs(page, s);
    HubAnswer(page, url);
    var t := Arrived(page, s);
    ArrivedIs(page, t);
    FourArrivals(page, s);
  }

  /**
   An address is on its way that the page need not have asked for: a link, the browser's Back, or an
   edit since taken back.  When the fields are tidy and so is the address, everything settles if and only
   if it is the address already there, or agrees with the fields before the load, or the hub's city
   settles the matter.
   */
  lemma SettlesIffAgrees(page: Page, s: State)
    requires HubTrimmed(page) && s.pending.Some?
    requires Tidy(page, s.fields) && Clean(page, s.pending.value, 2)
    ensures Settles(page, s) <==>
            || s.pending.value == s.url
            || Agree(page, s.pending.value, s.fields)
            || (page.hub.Some? && (Read(page, s.pending.value).cities == [] || s.fields.cities == []))
  {
    var url := s.pending.value;
    FourArrivals(page, s);
    if url == s.url {
      assert Done(Arrivals(page, s, 1));
      return;
    }
    ArrivedIs(page, s);
    if page.hub.Some? && Read(page, url).cities == [] {
      HubSettles(page, s);
    } else if Agree(page, url, s.fields) {
      assert Done(Arrivals(page, s, 1));
    } else {
      WrittenRoundTrip(page, s.fields);
      var t := Arrived(page, s);
      if page.hub.Some? && s.fields.cities == [] {
        assert Asked(page, s.fields) != url;
        HubSettles(page, t);
        ArrivalsShift(page, s, 2);
        assert Done(Arrivals(page, s, 3));
      } else {
        Disagreement(page, s.fields, url);
        assert Clash(page, t);
        NeverDone(page, s);
      }
    }
  }

  lemma NeverDone(page: Page, s: State)
    requires HubTrimmed(page) && Clash(page, Arrived(page, s))
    ensures !Settles(page, s)
  {
    hide Clash, Arrived;
    forall n: nat
      ensures !Done(Arrivals(page, s, n))
    {
      ClashForever(page, Arrived(page, s), n);
      ArrivalsShift(page, s, n);
      if Done(Arrivals(page, s, n)) {
        DoneLater(page, s, n, n + 1);
      }
    }
  }

  lemma CleanEnds(page: Page, s: State)
    requires HubTrimmed(page) && Cleaned(page, s, 2, 2)
    ensures Done(Arrivals(page, s, 2)) || Clash(page, s)
  {
    FourArrivals(page, s);
    if s.pending.value != s.url {
      if page.hub.Some? && Read(page, s.pending.value).cities == [] {
        HubSettles(page, s);
      } else {
        ArrivedIs(page, s);
      }
    }
  }

  lemma FirstArrival(page: Page, s: State)
    requires !Done(Arrived(page, s))
    ensures Cleaned(page, Arrived(page, s), 0, 0)
  {
    hide Agree, Asked, Read, Loaded;
    ArrivedIs(page, s);
  }

  /** Four more arrivals write every name without its separators, unless all is over before. */
  lemma FiveArrivals(page: Page, s: State)
    requires HubTrimmed(page) && !Done(Arrivals(page, s, 5))
    ensures Cleaned(page, Arrivals(page, s, 5), 2, 2)
  {
    hide Arrived, Cleaned, Done;
    forall n: nat | n < 5
      ensures !Done(Arrivals(page, s, n))
    {
      if Done(Arrivals(page, s, n)) {
        DoneLater(page, s, n, 5);
      }
    }
    FourArrivals(page, s);
    assert Arrivals(page, s, 5) == Arrived(page, Arrivals(page, s, 4));
    FirstArrival(page, s);
    CleaningStep(page, Arrivals(page, s, 1), 0, 0);
    CleaningStep(page, Arrivals(page, s, 2), 0, 1);
    CleaningStep(page, Arrivals(page, s, 3), 1, 1);
    CleaningStep(page, Arrivals(page, s, 4), 1, 2);
  }

  /** Whatever the names and whatever address is on its way: if seven arrivals do not settle the page, nothing ever does. */
  lemma SevenArrivalsDecide(page: Page, s: State)
    requires HubTrimmed(page)
    ensures Settles(page, s) <==> Done(Arrivals(page, s, 7))
  {
    hide Arrivals, Done, Cleaned, Clash;
    var t := Arrivals(page, s, 5);
    if Done(t) {
      DoneLater(page, s, 5, 7);
    } else {
      FiveArrivals(page, s);
      CleanEnds(page, t);
      ArrivalsAdd(page, s, 5, 2);
      if !Done(Arrivals(page, t, 2)) {
        forall n: nat
          ensures !Done(Arrivals(page, s, n))
        {
          if n <= 5 {
            if Done(Arrivals(page, s, n)) {
              DoneLater(page, s, n, 5);
            }
          } else {
            ClashForever(page, t, n - 5);
            ArrivalsAdd(page, s, 5, n - 5);
          }
        }
      }
    }
  }

  /** A page that never settles goes back and forth between the same two addresses, from the seventh arrival on. */
  lemma UnsettledAlternates(page: Page, s: State)
    requires HubTrimmed(page) && !Settles(page, s)
    ensures Arrivals(page, s, 9) == Arrivals(page, s, 7)
  {
    hide Arrivals, Done, Cleaned, Clash;
    FiveArrivals(page, s);
    CleanEnds(page, Arrivals(page, s, 5));
    ArrivalsAdd(page, s, 5, 2);
    ArrivalsAdd(page, s, 5, 4);
    ClashAlternates(page, Arrivals(page, s, 5));
  }

  // ---------------------------------------------------------------- runs of the page

  datatype Event = Edit(fields: Fields) | Navigate(url: Params) | Arrive

  function Next(page: Page, s: State, e: Event): State {
    match e
    case Edit(fields) => Compared(page, s.(fields := fields))
    case Navigate(url) => s.(pending := Some(url))
    case Arrive => Arrived(page, s)
  }

  function After(page: Page, url: Params, evs: seq<Event>): State {
    if evs == [] then Opened(page, url) else Next(page, After(page, url, evs[..|evs| - 1]), evs[|evs| - 1])
  }

  /**
   In every run an edit leaves the address alone, and asks for another one if and only if the trimmed
   query or the lower-cased cities are not the address's.
   */
  lemma EditAsks(page: Page, url: Params, evs: seq<Event>, f: Fields)
    ensures var s, t := After(page, url, evs), After(page, url, evs + [Edit(f)]);
            && t.url == s.url && t.fields == f
            && (if && Trim(GetOr(s.url, "q"), JsSpace) == Trim(f.query, JsSpace)
                   && multiset(Lowered(page.lower, Parsed(page.lower, s.url))) == multiset(Lowered(page.lower, f.cities))
                then t.pending == s.pending
                else t.pending.Some? && GetOr(t.pending.value, "q") == Trim(f.query, JsSpace) &&
                     (Tidy(page, f) ==> Parsed(page.lower, t.pending.value) == f.cities))
  {
    hide Compared, After, Tidy, Parsed, Trim;
    AfterEdit(page, url, evs, Edit(f));
    ComparedIs(page, After(page, url, evs).(fields := f));
  }

  /** Only the page's own fields change, and the address only because the page asked. */
  predicate NoNavigation(evs: seq<Event>) {
    forall i :: 0 <= i < |evs| ==> !evs[i].Navigate?
  }

  /** A disagreement has been dealt with: the address asked for is on its way, or already there. */
  predicate Dealt(page: Page, s: State) {
    || Agree(page, s.url, s.fields)
    || s.pending == Some(Asked(page, s.fields))
    || (Done(s) && s.url == Asked(page, s.fields))
  }

  /**
   The last word on the fields was lost: a link was followed while they disagreed with the address, to
   an address they do not ask for, and since then nothing was edited and no new address arrived.
   */
  predicate Lost(page: Page, url: Params, evs: seq<Event>) {
    if evs == [] then false
    else
      var s := After(page, url, evs[..|evs| - 1]);
      match evs[|evs| - 1]
      case Edit(_) => false
      case Navigate(to) => !Agree(page, s.url, s.fields) && to != Asked(page, s.fields)
      case Arrive => (Done(s) || s.pending.value == s.url) && Lost(page, url, evs[..|evs| - 1])
  }

  lemma ComparedDealt(page: Page, s: State)
    ensures Dealt(page, Compared(page, s))
  {
    hide Agree, Asked;
  }

  lemma ArrivedDealt(page: Page, s: State)
    requires Dealt(page, s) || (s.pending.Some? && s.pending.value != s.url)
    ensures Dealt(page, Arrived(page, s))
  {
    hide Agree, Asked, Loaded;
    if s.pending.Some? && s.pending.value != s.url {
      ComparedDealt(page, Compared(page, State(s.pending.value, s.fields, None)).(fields := Loaded(page, s.pending.value)));
    }
  }

  lemma {:induction false} LostOrDealt(page: Page, url: Params, evs: seq<Event>)
    ensures Lost(page, url, evs) ==> !Agree(page, After(page, url, evs).url, After(page, url, evs).fields)
    ensures !Lost(page, url, evs) ==> Dealt(page, After(page, url, evs))
  {
    hide Agree, Asked, Loaded, Compared;
    if evs == [] {
      ComparedDealt(page, State(url, Loaded(page, url), None));
    } else {
      var front := evs[..|evs| - 1];
      var s := After(page, url, front);
      LostOrDealt(page, url, front);
      match evs[|evs| - 1]
      case Edit(fields) => ComparedDealt(page, s.(fields := fields));
      case Navigate(to) =>
      case Arrive =>
        if !Lost(page, url, evs) {
          ArrivedDealt(page, s);
        }
    }
  }

  /**
   In every run, links included: a page that is done agrees with its address if and only if the last
   word on its fields was not lost, and its cities can be packed or do not ask for the address they have.
   */
  lemma DonePageAgrees(page: Page, url: Params, evs: seq<Event>)
    requires KeepsSeparators(page.lower) && Done(After(page, url, evs))
    requires Normal(JsFold(page.lower), After(page, url, evs).fields.cities)
    ensures var s := After(page, url, evs);
            Agree(page, s.url, s.fields) <==>
            !Lost(page, url, evs) && (Packable(s.fields.cities) || s.url != Asked(page, s.fields))
  {
    hide Agree, Asked, After, Lost, Packable;
    LostOrDealt(page, url, evs);
    ArrivalIsSilent(page, After(page, url, evs).fields);
  }

  lemma {:induction false} NothingLost(page: Page, url: Params, evs: seq<Event>)
    requires NoNavigation(evs)
    ensures !Lost(page, url, evs)
  {
    if evs != [] {
      NothingLost(page, url, evs[..|evs| - 1]);
    }
  }

  /** Without navigation a page that is done and whose fields are tidy agrees with its address. */
  lemma DoneAndTidyAgrees(page: Page, url: Params, evs: seq<Event>)
    requires NoNavigation(evs)
    requires Done(After(page, url, evs)) && Tidy(page, After(page, url, evs).fields)
    ensures Agree(page, After(page, url, evs).url, After(page, url, evs).fields)
  {
    NothingLost(page, url, evs);
    LostOrDealt(page, url, evs);
    AskedAgrees(page, After(page, url, evs).fields);
  }

  function SameName(name: string): string {
    name
  }

  const PLAIN_PAGE := Page(SameName, None)

  lemma AfterEdit(page: Page, url: Params, evs: seq<Event>, e: Event)
    ensures After(page, url, evs + [e]) == Next(page, After(page, url, evs), e)
  {
    assert (evs + [e])[..|evs|] == evs;
  }

  /** Two cities, and two addresses that name one of them each. */
  predicate TwoCities(page: Page, a: string, b: string) {
    page.hub.None? && a != "" && b != "" && Trimmed(a, JsSpace) && Trimmed(b, JsSpace) && page.lower(a) != page.lower(b)
  }

  function CityUrl(name: string): Params {
    [Pair("city", name)]
  }

  lemma OtherCity(page: Page, a: string, b: string)
    requires page.lower(a) != page.lower(b)
    ensures SameCityLists(page.lower, [a], [a]) && !SameCityLists(page.lower, [a], [b])
  {
    SameCityListsIsMultisetEquality(page.lower, [a], [b]);
    assert Lowered(page.lower, [a]) == [page.lower(a)] && Lowered(page.lower, [b]) == [page.lower(b)];
    assert page.lower(a) in multiset([page.lower(a)]) && page.lower(a) !in multiset([page.lower(b)]);
  }

  lemma OneCity(page: Page, a: string, b: string)
    requires TwoCities(page, a, b)
    ensures Read(page, CityUrl(a)) == Loaded(page, CityUrl(a)) == Fields("", [a])
    ensures Asked(page, Fields("", [a])) == CityUrl(a)
    ensures CityUrl(a) != CityUrl(b) && !Agree(page, CityUrl(a), Fields("", [b])) && Agree(page, CityUrl(a), Fields("", [a]))
  {
    hide SameCityLists, Parsed;
    KeysDiffer();
    TrimmedIsFixed("", JsSpace);
    SingleRoundTrip(page.lower, a);
    OtherCity(page, a, b);
    assert CityUrl(a)[1..] == [] && Get(CityUrl(a), "q") == None;
    assert CityUrl(a)[0].value == a && CityUrl(b)[0].value == b;
  }

  /** Following a link from one city to another makes the page go back and forth between the two for ever. */
  lemma LinkCycles(page: Page, a: string, b: string)
    requires TwoCities(page, a, b)
    ensures var s := After(page, CityUrl(b), [Navigate(CityUrl(a)), Arrive]);
            && s == State(CityUrl(a), Fields("", [a]), Some(CityUrl(b)))
            && Arrivals(page, s, 1) == State(CityUrl(b), Fields("", [b]), Some(CityUrl(a)))
            && Arrivals(page, s, 2) == s
            && !Settles(page, s)
  {
    OneCity(page, a, b);
    OneCity(page, b, a);
    var u, v := CityUrl(a), CityUrl(b);
    AfterEdit(page, v, [], Navigate(u));
    AfterEdit(page, v, [Navigate(u)], Arrive);
    assert [] + [Navigate(u)] == [Navigate(u)] && [Navigate(u)] + [Arrive] == [Navigate(u), Arrive];
    Swap(page, a, b);
  }

  lemma Swap(page: Page, a: string, b: string)
    requires TwoCities(page, a, b)
    ensures var s := State(CityUrl(a), Fields("", [a]), Some(CityUrl(b)));
            && Arrivals(page, s, 1) == State(CityUrl(b), Fields("", [b]), Some(CityUrl(a)))
            && Arrivals(page, s, 2) == s && !Settles(page, s)
  {
    OneCity(page, a, b);
    OneCity(page, b, a);
    var s := State(CityUrl(a), Fields("", [a]), Some(CityUrl(b)));
    var t := State(CityUrl(b), Fields("", [b]), Some(CityUrl(a)));
    hide Agree, Asked, Read, Loaded;
    ArrivedIs(page, s);
    ArrivedIs(page, t);
    FourArrivals(page, s);
    forall n: nat
      ensures !Done(Arrivals(page, s, n))
    {
      SwapForever(page, s, t, n);
    }
  }

  lemma {:induction false} SwapForever(page: Page, s: State, t: State, n: nat)
    requires Arrived(page, s) == t && Arrived(page, t) == s
    ensures Arrivals(page, s, n) == if n % 2 == 0 then s else t
  {
    hide Arrived;
    if n > 0 {
      SwapForever(page, s, t, n - 1);
    }
  }

  lemma NoHub(page: Page, a: string, b: string)
    requires TwoCities(page, a, b)
    ensures page.hub.None? && TwoCities(page, b, a)
  {
  }

  lemma OpenedCity(page: Page, a: string, b: string)
    requires TwoCities(page, a, b)
    ensures After(page, CityUrl(a), []) == State(CityUrl(a), Fields("", [a]), None)
  {
    hide Agree, Asked, Read, Loaded, TwoCities, CityUrl;
    OneCity(page, a, b);
  }

  /** So does a change of city that is taken back before the address has followed it. */
  lemma TakingBackCycles(page: Page, a: string, b: string)
    requires TwoCities(page, a, b)
    ensures var s := After(page, CityUrl(a), [Edit(Fields("", [b])), Edit(Fields("", [a])), Arrive]);
            NoNavigation([Edit(Fields("", [b])), Edit(Fields("", [a])), Arrive]) && !Settles(page, s)
  {
    hide Agree, Asked, Read, Loaded, TwoCities, CityUrl, Arrived, After;
    NoHub(page, a, b);
    OneCity(page, a, b);
    OneCity(page, b, a);
    var u := CityUrl(a);
    OpenedCity(page, a, b);
    var there, back := Edit(Fields("", [b])), Edit(Fields("", [a]));
    AfterEdit(page, u, [], there);
    AfterEdit(page, u, [there], back);
    AfterEdit(page, u, [there, back], Arrive);
    assert [] + [there] == [there] && [there] + [back] == [there, back] && [there, back] + [Arrive] == [there, back, Arrive];
    ArrivedIs(page, State(u, Fields("", [a]), Some(CityUrl(b))));
    Swap(page, b, a);
  }

  /** And a link to the address that is already there, followed while an edit is on its way, loses the edit's address. */
  lemma LinkStrands(page: Page, a: string, b: string)
    requires TwoCities(page, a, b)
    ensures var s := After(page, CityUrl(a), [Edit(Fields("", [b])), Navigate(CityUrl(a)), Arrive]);
            s == State(CityUrl(a), Fields("", [b]), None) && !Agree(page, s.url, s.fields)
  {
    hide Agree, Asked, Read, Loaded, TwoCities, CityUrl;
    NoHub(page, a, b);
    OneCity(page, a, b);
    OneCity(page, b, a);
    var u := CityUrl(a);
    var change, link := Edit(Fields("", [b])), Navigate(u);
    AfterEdit(page, u, [], change);
    AfterEdit(page, u, [change], link);
    AfterEdit(page, u, [change, link], Arrive);
    assert [] + [change] == [change] && [change] + [link] == [change, link];
    assert [change, link] + [Arrive] == [change, link, Arrive];
  }

  // ---------------------------------------------------------------- stranded by a separator

  lemma Spelled()
    ensures JoinWith(["c", "a|b"], SEP) == "c|a|b"
    ensures Trim("c|a|b", JsSpace) == "c|a|b" && Trim("", JsSpace) == ""
    ensures OLD_SEP !in "c|a|b" && SEP in "a|b"
  {
    assert ["c", "a|b"][1..] == ["a|b"] && "c" + [SEP] + "a|b" == "c|a|b";
    TrimmedIsFixed("c|a|b", JsSpace);
    TrimmedIsFixed("", JsSpace);
    assert "a|b"[1] == SEP;
  }

  const PACKED := [Pair("cities", "c|a|b")]
  const STRANDED := State(PACKED, Fields("", ["c", "a|b"]), None)

  lemma PackedSays()
    ensures Parsed(SameName, PACKED) == Unpacked(SameName, "c|a|b")
  {
    hide Unpacked;
    Spelled();
    KeysDiffer();
    assert Get(PACKED, "cities") == Some("c|a|b");
  }

  lemma StrandedNormal()
    ensures Normal(JsFold(SameName), ["c", "a|b"])
  {
    assert |"a|b"| != |"c"|;
  }

  lemma StrandedAsks()
    ensures Asked(PLAIN_PAGE, STRANDED.fields) == PACKED
  {
    hide Firsts, JoinWith, Normal;
    Spelled();
    StrandedNormal();
    FirstsOfNormal(JsFold(SameName), ["c", "a|b"]);
  }

  lemma StrandedDisagrees()
    ensures !Agree(PLAIN_PAGE, PACKED, STRANDED.fields)
  {
    hide Unpacked, SameCityLists, Parsed, JoinWith;
    Spelled();
    PackedSays();
    UnpackedIsFree(SameName, "c|a|b");
    assert STRANDED.fields.cities[1] == "a|b";
    SeparatorShows(SameName, Parsed(SameName, PACKED), STRANDED.fields.cities, SEP);
  }

  /**
   Names with a separator in them can leave the page done and in disagreement.  From the page of three
   cities, two are removed and one whose name holds a separator is added before the address follows:
   the address the fields ask for is then the one that is there.
   */
  lemma SeparatorsStrand()
    ensures var evs := [Edit(Fields("", ["c", "b"])), Edit(Fields("", ["c"])), Edit(STRANDED.fields), Arrive];
            NoNavigation(evs) && After(PLAIN_PAGE, PACKED, evs) == STRANDED
    ensures Done(STRANDED) && !Agree(PLAIN_PAGE, STRANDED.url, STRANDED.fields)
  {
    var page := PLAIN_PAGE;
    var e1, e2, e3 := Edit(Fields("", ["c", "b"])), Edit(Fields("", ["c"])), Edit(STRANDED.fields);
    StrandedDisagrees();
    StrandedAsks();
    hide Agree, Asked, Loaded, After;
    OpenedAt(page, PACKED);
    AfterEdit(page, PACKED, [], e1);
    AfterEdit(page, PACKED, [e1], e2);
    AfterEdit(page, PACKED, [e1, e2], e3);
    AfterEdit(page, PACKED, [e1, e2, e3], Arrive);
    assert [] + [e1] == [e1] && [e1] + [e2] == [e1, e2] && [e1, e2] + [e3] == [e1, e2, e3];
    assert [e1, e2, e3] + [Arrive] == [e1, e2, e3, Arrive];
  }

  lemma OpenedAt(page: Page, url: Params)
    ensures After(page, url, []).url == url
  {
    hide Agree, Asked, Loaded;
  }
}
