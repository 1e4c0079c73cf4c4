/** The string helpers of Go and JavaScript that several parts of the program rely on. */
module Text {

  /** The characters Go's `strings.TrimSpace` removes. */
  predicate GoSpace(c: char) {
    '\t' <= c <= '\r' || c == ' ' || c == '\U{0085}' || c == '\U{00A0}' || c == '\U{1680}' ||
    '\U{2000}' <= c <= '\U{200A}' || c == '\U{2028}' || c == '\U{2029}' || c == '\U{202F}' ||
    c == '\U{205F}' || c == '\U{3000}'
  }

  /** The characters JavaScript's `String.prototype.trim` removes. */
  predicate JsSpace(c: char) {
    '\t' <= c <= '\r' || c == ' ' || c == '\U{00A0}' || c == '\U{1680}' ||
    '\U{2000}' <= c <= '\U{200A}' || c == '\U{2028}' || c == '\U{2029}' || c == '\U{202F}' ||
    c == '\U{205F}' || c == '\U{3000}' || c == '\U{FEFF}'
  }

  predicate IsDigit(c: char) {
    '0' <= c <= '9'
  }

  function TrimLeft(s: string, space: char -> bool): string {
    if s != [] && space(s[0]) then TrimLeft(s[1..], space) else s
  }

  function TrimRight(s: string, space: char -> bool): string {
    if s != [] && space(s[|s| - 1]) then TrimRight(s[..|s| - 1], space) else s
  }

  function Trim(s: string, space: char -> bool): string {
    TrimRight(TrimLeft(s, space), space)
  }

  /** Neither end is a space. */
  predicate Trimmed(s: string, space: char -> bool) {
    s == [] || (!space(s[0]) && !space(s[|s| - 1]))
  }

  lemma TrimmedIsFixed(s: string, space: char -> bool)
    requires Trimmed(s, space)
    ensures Trim(s, space) == s
  {
  }

  lemma {:induction false} TrimLeftStarts(s: string, space: char -> bool)
    ensures var t := TrimLeft(s, space);
            (t == [] || !space(t[0])) && |t| <= |s| && t == s[|s| - |t|..]
  {
    if s != [] && space(s[0]) {
      TrimLeftStarts(s[1..], space);
    }
  }

  lemma {:induction false} TrimRightEnds(s: string, space: char -> bool)
    ensures var t := TrimRight(s, space);
            (t == [] || !space(t[|t| - 1])) && t <= s
  {
    if s != [] && space(s[|s| - 1]) {
      TrimRightEnds(s[..|s| - 1], space);
    }
  }

  /** Trimming leaves a trimmed piece of the original, so trimming twice is trimming once. */
  lemma TrimTrims(s: string, space: char -> bool)
    ensures Trimmed(Trim(s, space), space)
    ensures Trim(Trim(s, space), space) == Trim(s, space)
    ensures forall c :: c in Trim(s, space) ==> c in s
  {
    TrimLeftStarts(s, space);
    var t := TrimLeft(s, space);
    TrimRightEnds(t, space);
    TrimmedIsFixed(Trim(s, space), space);
  }

  predicate AllSpace(s: string, space: char -> bool) {
    forall i :: 0 <= i < |s| ==> space(s[i])
  }

  lemma {:induction false} TrimLeftDrops(s: string, space: char -> bool)
    ensures var t := TrimLeft(s, space);
            |t| <= |s| && t == s[|s| - |t|..] && AllSpace(s[..|s| - |t|], space)
  {
    if s != [] && space(s[0]) {
      TrimLeftDrops(s[1..], space);
      var t := TrimLeft(s, space);
      assert s[..|s| - |t|] == [s[0]] + s[1..][..|s| - 1 - |t|];
    }
  }

  lemma {:induction false} TrimRightDrops(s: string, space: char -> bool)
    ensures var t := TrimRight(s, space);
            t <= s && AllSpace(s[|t|..], space)
  {
    if s != [] && space(s[|s| - 1]) {
      TrimRightDrops(s[..|s| - 1], space);
    }
  }

  /** Trimming takes spaces off both ends, and nothing else. */
  lemma TrimDropsSpaces(s: string, space: char -> bool) returns (before: string, after: string)
    ensures s == before + Trim(s, space) + after
    ensures AllSpace(before, space) && AllSpace(after, space)
  {
    TrimLeftDrops(s, space);
    var t := TrimLeft(s, space);
    TrimRightDrops(t, space);
    before, after := s[..|s| - |t|], t[|Trim(s, space)|..];
  }

  /** The two languages trim the same characters but for two. */
  lemma SpacesDiffer(c: char)
    ensures GoSpace(c) != JsSpace(c) <==> c == '\U{0085}' || c == '\U{FEFF}'
    ensures c in " \t\n\r" ==> GoSpace(c) && JsSpace(c)
    ensures IsDigit(c) || 'a' <= c <= 'z' || 'A' <= c <= 'Z' || c in "-_.|:\U{001E}" ==> !GoSpace(c) && !JsSpace(c)
  {
  }

  // ---------------------------------------------------------------- joining and splitting

  predicate Free(names: seq<string>, sep: char) {
    forall i :: 0 <= i < |names| ==> sep !in names[i]
  }

  function JoinWith(names: seq<string>, sep: char): string {
    if names == [] then ""
    else if |names| == 1 then names[0]
    else names[0] + [sep] + JoinWith(names[1..], sep)
  }

  /** Like `strings.Split` and `String.prototype.split`: one piece more than there are separators. */
  function SplitOn(s: string, sep: char): (pieces: seq<string>)
    ensures pieces != []
  {
    if s == "" then [""]
    else if s[0] == sep then [""] + SplitOn(s[1..], sep)
    else
      var rest := SplitOn(s[1..], sep);
      [[s[0]] + rest[0]] + rest[1..]
  }

  lemma {:induction false} SplitPieces(s: string, sep: char)
    ensures Free(SplitOn(s, sep), sep)
    ensures sep !in s ==> SplitOn(s, sep) == [s]
  {
    if s != "" {
      SplitPieces(s[1..], sep);
      assert [s[0]] + s[1..] == s;
    }
  }

  lemma {:induction false} SplitFree(s: string, sep: char, c: char)
    requires c !in s
    ensures Free(SplitOn(s, sep), c)
  {
    if s != "" {
      SplitFree(s[1..], sep, c);
    }
  }

  lemma {:induction false} SplitHead(name: string, rest: string, sep: char)
    requires sep !in name
    ensures SplitOn(name + [sep] + rest, sep) == [name] + SplitOn(rest, sep)
  {
    var s := name + [sep] + rest;
    if name == "" {
      assert s[1..] == rest;
    } else {
      SplitHead(name[1..], rest, sep);
      assert s[1..] == name[1..] + [sep] + rest;
      assert SplitOn(s[1..], sep)[0] == name[1..] && [s[0]] + name[1..] == name;
    }
  }

  /** How one more character in front changes the pieces. */
  function Before(c: char, pieces: seq<string>, sep: char): seq<string>
    requires pieces != []
  {
    if c == sep then [""] + pieces else [[c] + pieces[0]] + pieces[1..]
  }

  lemma BeforeConcat(c: char, pieces: seq<string>, more: seq<string>, sep: char)
    requires pieces != []
    ensures Before(c, pieces + more, sep) == Before(c, pieces, sep) + more
  {
    assert (pieces + more)[0] == pieces[0] && (pieces + more)[1..] == pieces[1..] + more;
  }

  lemma SplitStep(s: string, sep: char)
    requires s != ""
    ensures SplitOn(s, sep) == Before(s[0], SplitOn(s[1..], sep), sep)
  {
  }

  /** Splitting at every separator, the one in between included. */
  lemma {:induction false} SplitConcat(a: string, b: string, sep: char)
    ensures SplitOn(a + [sep] + b, sep) == SplitOn(a, sep) + SplitOn(b, sep)
  {
    var s := a + [sep] + b;
    hide SplitOn;
    SplitStep(s, sep);
    if a == "" {
      SplitPieces("", sep);
      assert s[0] == sep && s[1..] == b;
    } else {
      hide Before;
      SplitConcat(a[1..], b, sep);
      SplitStep(a, sep);
      assert s[0] == a[0] && s[1..] == a[1..] + [sep] + b;
      BeforeConcat(a[0], SplitOn(a[1..], sep), SplitOn(b, sep), sep);
    }
  }

  lemma {:induction false} SplitJoined(names: seq<string>, sep: char)
    requires names != [] && Free(names, sep)
    ensures SplitOn(JoinWith(names, sep), sep) == names
  {
    if |names| == 1 {
      SplitPieces(names[0], sep);
    } else {
      SplitJoined(names[1..], sep);
      SplitHead(names[0], JoinWith(names[1..], sep), sep);
    }
  }

  lemma {:induction false} JoinPieces(s: string, sep: char)
    ensures JoinWith(SplitOn(s, sep), sep) == s
  {
    if s != "" {
      JoinPieces(s[1..], sep);
      var rest := SplitOn(s[1..], sep);
      assert s == [s[0]] + s[1..];
      if s[0] == sep {
        assert ([""] + rest)[1..] == rest;
      } else {
        assert ([[s[0]] + rest[0]] + rest[1..])[1..] == rest[1..];
        if |rest| > 1 {
          assert JoinWith(rest, sep) == rest[0] + [sep] + JoinWith(rest[1..], sep);
          assert [s[0]] + (rest[0] + [sep] + JoinWith(rest[1..], sep)) == [s[0]] + rest[0] + [sep] + JoinWith(rest[1..], sep);
        }
      }
    }
  }

  /** Joining trimmed names gives a trimmed string that has every character of every name. */
  lemma {:induction false} JoinedTrimmed(space: char -> bool, names: seq<string>, sep: char)
    requires names != [] && forall i :: 0 <= i < |names| ==> names[i] != "" && Trimmed(names[i], space)
    ensures var s := JoinWith(names, sep);
            s != "" && Trimmed(s, space) && s[0] == names[0][0] && s[|s| - 1] == names[|names| - 1][|names[|names| - 1]| - 1]
  {
    if |names| > 1 {
      JoinedTrimmed(space, names[1..], sep);
    }
  }

  lemma {:induction false} JoinedHas(names: seq<string>, sep: char, c: char)
    ensures c in JoinWith(names, sep) <==> (|names| > 1 && c == sep) || exists i :: 0 <= i < |names| && c in names[i]
  {
    if |names| > 1 {
      JoinedHas(names[1..], sep, c);
      assert forall i :: 1 <= i < |names| ==> names[i] == names[1..][i - 1];
    }
  }
}
