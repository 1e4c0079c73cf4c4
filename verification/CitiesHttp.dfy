/** City lists in the page's query string (frontend/src/lib/cities-http.ts). */
module CitiesHttp {
  import opened Text
  import opened CityLists
  import opened Wrappers

  /** `URLSearchParams`: an ordered list of pairs; percent-encoding is taken to be faithful. */
  datatype Pair = Pair(key: string, value: string)
  type Params = seq<Pair>

  function Get(p: Params, key: string): Option<string> {
    if p == [] then None else if p[0].key == key then Some(p[0].value) else Get(p[1..], key)
  }

  function GetAll(p: Params, key: string): seq<string> {
    if p == [] then [] else (if p[0].key == key then [p[0].value] else []) + GetAll(p[1..], key)
  }

  function GetOr(p: Params, key: string): string {
    match Get(p, key) case None => "" case Some(v) => v
  }

  const SEP := '|'
  /** The separator of old links. */
  const OLD_SEP := '\U{001E}'

  function JsFold(lower: string -> string): Fold {
    Fold(JsSpace, lower)
  }

  /** Two or more cities travel packed in one parameter; fewer do not. */
  function Packed(lower: string -> string, cities: seq<string>): Option<string> {
    var list := Firsts(JsFold(lower), cities);
    if |list| <= 1 then None else Some(JoinWith(list, SEP))
  }

  function Unpacked(lower: string -> string, packed: string): seq<string> {
    Firsts(JsFold(lower), SplitOn(packed, if OLD_SEP in packed then OLD_SEP else SEP))
  }

  function Parsed(lower: string -> string, p: Params): seq<string> {
    var packed := Trim(GetOr(p, "cities"), JsSpace);
    if packed != "" then Unpacked(lower, packed) else Firsts(JsFold(lower), GetAll(p, "city"))
  }

  method PackCitiesForQuery(lower: string -> string, cities: seq<string>) returns (r: Option<string>)
    ensures r == Packed(lower, cities)
  {
    var list := Dedupe(JsFold(lower), cities);
    if |list| <= 1 {
      return None;
    }
    return Some(JoinWith(list, SEP));
  }

  method ParseCities(lower: string -> string, p: Params) returns (cities: seq<string>)
    ensures cities == Parsed(lower, p)
  {
    var packed := Trim(GetOr(p, "cities"), JsSpace);
    if packed != "" {
      var parts := if OLD_SEP in packed then SplitOn(packed, OLD_SEP) else SplitOn(packed, SEP);
      cities := Dedupe(JsFold(lower), parts);
    } else {
      cities := Dedupe(JsFold(lower), GetAll(p, "city"));
    }
  }

  predicate Plain(names: seq<string>) {
    Free(names, SEP) && Free(names, OLD_SEP)
  }

  lemma ParsedIsNormal(lower: string -> string, p: Params)
    ensures Normal(JsFold(lower), Parsed(lower, p))
  {
    var f := JsFold(lower);
    var packed := Trim(GetOr(p, "cities"), JsSpace);
    FirstsNormal(f, SplitOn(packed, if OLD_SEP in packed then OLD_SEP else SEP));
    FirstsNormal(f, GetAll(p, "city"));
  }

  /** A packed list of plain names is read back exactly; the old separator never gets in the way. */
  lemma UnpackPlain(lower: string -> string, names: seq<string>)
    requires Normal(JsFold(lower), names) && |names| >= 2 && Plain(names)
    ensures var s := JoinWith(names, SEP);
            s != "" && Trim(s, JsSpace) == s && Unpacked(lower, s) == names
  {
    var s := JoinWith(names, SEP);
    JoinedTrimmed(JsSpace, names, SEP);
    TrimmedIsFixed(s, JsSpace);
    JoinedHas(names, SEP, OLD_SEP);
    SplitJoined(names, SEP);
    FirstsOfNormal(JsFold(lower), names);
  }

  /** What a packed value unpacks to never contains the separator it was split on. */
  lemma UnpackedIsFree(lower: string -> string, s: string)
    ensures Free(Unpacked(lower, s), if OLD_SEP in s then OLD_SEP else SEP)
  {
    var sep := if OLD_SEP in s then OLD_SEP else SEP;
    SplitPieces(s, sep);
    FirstsFree(JsFold(lower), SplitOn(s, sep), sep);
  }

  /**
   For any list that needs packing, writing it as `cities` and parsing the address again gives the
   normalised list exactly when none of its names contains either separator.
   */
  lemma PackRoundTrip(lower: string -> string, cities: seq<string>)
    requires Packed(lower, cities).Some?
    ensures Parsed(lower, [Pair("cities", Packed(lower, cities).value)]) == Firsts(JsFold(lower), cities)
            <==> Plain(Firsts(JsFold(lower), cities))
  {
    var names := Firsts(JsFold(lower), cities);
    var s := JoinWith(names, SEP);
    FirstsNormal(JsFold(lower), cities);
    JoinedTrimmed(JsSpace, names, SEP);
    TrimmedIsFixed(s, JsSpace);
    assert Parsed(lower, [Pair("cities", s)]) == Unpacked(lower, s);
    if Plain(names) {
      UnpackPlain(lower, names);
    } else {
      UnpackedIsFree(lower, s);
      JoinedHas(names, SEP, OLD_SEP);
    }
  }

  /** A single city travels in `city`, separators and all. */
  lemma SingleRoundTrip(lower: string -> string, name: string)
    requires name != "" && Trimmed(name, JsSpace)
    ensures Parsed(lower, [Pair("city", name)]) == [name]
  {
    var p := [Pair("city", name)];
    assert |"city"| != |"cities"|;
    assert p[1..] == [] && Get(p, "cities") == None;
    TrimmedIsFixed("", JsSpace);
    assert GetAll(p, "city") == [name];
    FirstsOfNormal(JsFold(lower), [name]);
  }

  /** The first value of the key is the one that counts. */
  lemma {:induction false} GetIsFirst(p: Params, key: string, i: nat)
    requires i < |p| && p[i].key == key && forall j :: 0 <= j < i ==> p[j].key != key
    ensures Get(p, key) == Some(p[i].value)
  {
    if i > 0 {
      assert p[1..][i - 1] == p[i];
      GetIsFirst(p[1..], key, i - 1);
    }
  }

  /** Two or more cities are joined by a bar, fewer are not packed. */
  lemma PackedIs(lower: string -> string, cities: seq<string>)
    requires Normal(JsFold(lower), cities)
    ensures Packed(lower, cities) == if |cities| >= 2 then Some(JoinWith(cities, '|')) else None
  {
    FirstsOfNormal(JsFold(lower), cities);
  }

  lemma PackedParses(lower: string -> string, names: seq<string>, sep: char)
    requires sep == '|' || sep == '\U{001E}'
    requires Normal(JsFold(lower), names) && |names| >= 2 && Free(names, '|') && Free(names, '\U{001E}')
    ensures Unpacked(lower, JoinWith(names, sep)) == names
    ensures Trim(JoinWith(names, sep), JsSpace) == JoinWith(names, sep) != ""
  {
    JoinedTrimmed(JsSpace, names, sep);
    TrimmedIsFixed(JoinWith(names, sep), JsSpace);
    JoinedHas(names, sep, '\U{001E}');
    SplitJoined(names, sep);
    FirstsOfNormal(JsFold(lower), names);
  }

  /** New links part the cities by a bar and old ones by U+001E; both are read, and `city` only when `cities` is blank. */
  lemma BothLinksAreRead(lower: string -> string, names: seq<string>, rest: Params)
    requires Normal(JsFold(lower), names) && |names| >= 2 && Free(names, '|') && Free(names, '\U{001E}')
    ensures Parsed(lower, [Pair("cities", JoinWith(names, '|'))] + rest) == names
    ensures Parsed(lower, [Pair("cities", JoinWith(names, '\U{001E}'))] + rest) == names
  {
    PackedParses(lower, names, '|');
    PackedParses(lower, names, '\U{001E}');
    GetIsFirst([Pair("cities", JoinWith(names, '|'))] + rest, "cities", 0);
    GetIsFirst([Pair("cities", JoinWith(names, '\U{001E}'))] + rest, "cities", 0);
  }

  function CityPairs(names: seq<string>): Params {
    if names == [] then [] else [Pair("city", names[0])] + CityPairs(names[1..])
  }

  lemma {:induction false} CityPairsRead(names: seq<string>)
    ensures GetAll(CityPairs(names), "city") == names && Get(CityPairs(names), "cities") == None
  {
    if names != [] {
      CityPairsRead(names[1..]);
      assert |"city"| != |"cities"|;
      assert CityPairs(names)[1..] == CityPairs(names[1..]);
      assert [names[0]] + names[1..] == names;
    }
  }

  /** Repeated `city` parameters are read in order. */
  lemma RepeatedCityIsRead(lower: string -> string, names: seq<string>)
    requires Normal(JsFold(lower), names)
    ensures Parsed(lower, CityPairs(names)) == names
  {
    CityPairsRead(names);
    TrimmedIsFixed("", JsSpace);
    FirstsOfNormal(JsFold(lower), names);
  }
}
