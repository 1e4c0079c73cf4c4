/** The city field of the internal protocol: `Join` and `Split` of pkg/cities/join.go. */
module Cities {
  import opened Text
  import opened CityLists

  const SEP := '\U{001E}'

  function GoFold(lower: string -> string): Fold {
    Fold(GoSpace, lower)
  }

  function Joined(lower: string -> string, parts: seq<string>): string {
    JoinWith(Firsts(GoFold(lower), parts), SEP)
  }

  function SplitField(lower: string -> string, s: string): seq<string> {
    var t := Trim(s, GoSpace);
    if t == "" then []
    else if SEP !in t then [t]
    else Firsts(GoFold(lower), SplitOn(t, SEP))
  }

  method Join(lower: string -> string, parts: seq<string>) returns (s: string)
    ensures s == Joined(lower, parts)
  {
    var b := Dedupe(GoFold(lower), parts);
    if |b| == 0 {
      return "";
    }
    return JoinWith(b, SEP);
  }

  method Split(lower: string -> string, s: string) returns (out: seq<string>)
    ensures out == SplitField(lower, s)
  {
    var t := Trim(s, GoSpace);
    if t == "" {
      return [];
    }
    if SEP !in t {
      return [t];
    }
    out := Dedupe(GoFold(lower), SplitOn(t, SEP));
  }

  /** Whatever the field, splitting it gives a normalised list of names without separators. */
  lemma SplitIsNormal(lower: string -> string, s: string)
    ensures Normal(GoFold(lower), SplitField(lower, s)) && Free(SplitField(lower, s), SEP)
  {
    var f, t := GoFold(lower), Trim(s, GoSpace);
    TrimTrims(s, GoSpace);
    SplitPieces(t, SEP);
    FirstsNormal(f, SplitOn(t, SEP));
    FirstsFree(f, SplitOn(t, SEP), SEP);
  }

  /** The shortcut for a field without a separator agrees with the general loop. */
  lemma ShortcutAgrees(lower: string -> string, s: string)
    requires Trim(s, GoSpace) != "" && SEP !in Trim(s, GoSpace)
    ensures Firsts(GoFold(lower), SplitOn(Trim(s, GoSpace), SEP)) == SplitField(lower, s)
  {
    var f, t := GoFold(lower), Trim(s, GoSpace);
    TrimTrims(s, GoSpace);
    SplitPieces(t, SEP);
    FirstsOfNormal(f, [t]);
  }

  lemma SplitOfNormal(lower: string -> string, names: seq<string>)
    requires Normal(GoFold(lower), names) && Free(names, SEP)
    ensures SplitField(lower, JoinWith(names, SEP)) == names
  {
    if names != [] {
      var f, s := GoFold(lower), JoinWith(names, SEP);
      JoinedTrimmed(GoSpace, names, SEP);
      TrimmedIsFixed(s, GoSpace);
      JoinedHas(names, SEP, SEP);
      SplitJoined(names, SEP);
      FirstsOfNormal(f, names);
    }
  }

  /**
   Splitting what was joined gives exactly the normalised list, if and only if no name that is
   kept contains the separator.
   */
  lemma SplitAfterJoin(lower: string -> string, parts: seq<string>)
    ensures SplitField(lower, Joined(lower, parts)) == Firsts(GoFold(lower), parts)
            <==> Free(Firsts(GoFold(lower), parts), SEP)
  {
    var kept := Firsts(GoFold(lower), parts);
    FirstsNormal(GoFold(lower), parts);
    if Free(kept, SEP) {
      SplitOfNormal(lower, kept);
    }
    SplitIsNormal(lower, Joined(lower, parts));
  }

  lemma JoinedIsTrimmed(lower: string -> string, parts: seq<string>)
    ensures var s := Joined(lower, parts);
            Trim(s, GoSpace) == s && (Firsts(GoFold(lower), parts) != [] ==> s != "")
  {
    var kept := Firsts(GoFold(lower), parts);
    FirstsNormal(GoFold(lower), parts);
    if kept != [] {
      JoinedTrimmed(GoSpace, kept, SEP);
    }
    TrimmedIsFixed(Joined(lower, parts), GoSpace);
  }

  /** Splitting a field into its pieces and joining the list it stands for. */
  lemma SplitJoin(lower: string -> string, s: string)
    requires s != "" && Trim(s, GoSpace) == s
    ensures Joined(lower, SplitField(lower, s)) == s <==> Normal(GoFold(lower), SplitOn(s, SEP))
  {
    var f, list := GoFold(lower), SplitField(lower, s);
    SplitIsNormal(lower, s);
    FirstsOfNormal(f, list);
    SplitPieces(s, SEP);
    JoinPieces(s, SEP);
    if Normal(f, SplitOn(s, SEP)) {
      FirstsOfNormal(f, SplitOn(s, SEP));
    }
    if Joined(lower, list) == s {
      SplitJoined(list, SEP);
    }
  }

  /** The pieces of all the names, each cut at every separator in it. */
  function Pieces(names: seq<string>): seq<string> {
    if names == [] then [] else SplitOn(names[0], SEP) + Pieces(names[1..])
  }

  lemma {:induction false} JoinedPieces(names: seq<string>)
    requires names != []
    ensures SplitOn(JoinWith(names, SEP), SEP) == Pieces(names)
  {
    if |names| == 1 {
      assert Pieces(names[1..]) == [];
    } else {
      JoinedPieces(names[1..]);
      SplitConcat(names[0], JoinWith(names[1..], SEP), SEP);
    }
  }

  /**
   A second round trip changes nothing exactly when the kept names, cut at every separator in them, are
   a normalised list already; separator-free names always are.
   */
  lemma JoinSplitJoin(lower: string -> string, parts: seq<string>)
    ensures Joined(lower, SplitField(lower, Joined(lower, parts))) == Joined(lower, parts) <==>
            Normal(GoFold(lower), Pieces(Firsts(GoFold(lower), parts)))
    ensures Free(parts, SEP) ==> Joined(lower, SplitField(lower, Joined(lower, parts))) == Joined(lower, parts)
  {
    var f := GoFold(lower);
    var kept := Firsts(f, parts);
    FirstsNormal(f, parts);
    JoinedIsTrimmed(lower, parts);
    if kept != [] {
      SplitJoin(lower, Joined(lower, parts));
      JoinedPieces(kept);
    }
    if Free(parts, SEP) {
      FirstsFree(f, parts, SEP);
      SplitAfterJoin(lower, parts);
      FirstsOfNormal(f, kept);
    }
  }

  /** And starting from any field at all, the list it splits into survives the round trip. */
  lemma SplitJoinSplit(lower: string -> string, s: string)
    ensures SplitField(lower, Joined(lower, SplitField(lower, s))) == SplitField(lower, s)
  {
    SplitIsNormal(lower, s);
    FirstsOfNormal(GoFold(lower), SplitField(lower, s));
    SplitOfNormal(lower, SplitField(lower, s));
  }

  /** Cities are parted by the character U+001E: a normalised list without it is written and read as it is. */
  lemma FieldOfNames(lower: string -> string, names: seq<string>)
    requires Normal(GoFold(lower), names) && Free(names, '\U{001E}')
    ensures Joined(lower, names) == JoinWith(names, '\U{001E}')
    ensures SplitField(lower, JoinWith(names, '\U{001E}')) == names
  {
    FirstsOfNormal(GoFold(lower), names);
    SplitOfNormal(lower, names);
  }

  /** No piece of a field is lost, whatever the field. */
  lemma SplitLosesNothing(lower: string -> string, s: string, i: nat)
    requires i < |SplitOn(Trim(s, GoSpace), '\U{001E}')| && Trim(SplitOn(Trim(s, GoSpace), '\U{001E}')[i], GoSpace) != ""
    ensures exists k :: 0 <= k < |SplitField(lower, s)| &&
              lower(SplitField(lower, s)[k]) == lower(Trim(SplitOn(Trim(s, GoSpace), '\U{001E}')[i], GoSpace))
  {
    var f, t := GoFold(lower), Trim(s, GoSpace);
    var pieces := SplitOn(t, '\U{001E}');
    TrimTrims(s, GoSpace);
    SplitPieces(t, '\U{001E}');
    if t == "" {
      TrimmedIsFixed("", GoSpace);
    } else if SEP !in t {
      assert SplitField(lower, s)[0] == t;
    } else {
      NoCityIsLost(f, pieces, i);
      var k :| 0 <= k < |Firsts(f, pieces[..i + 1])| && lower(Firsts(f, pieces[..i + 1])[k]) == lower(Trim(pieces[i], GoSpace));
      assert SplitField(lower, s)[k] == Firsts(f, pieces[..i + 1])[k];
    }
  }
}
