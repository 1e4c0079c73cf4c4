/** The phone field (frontend/src/components/banya/phone-input.tsx). */
module PhoneInput {
  import opened Text

  predicate AllDigits(s: string) {
    forall i :: 0 <= i < |s| ==> IsDigit(s[i])
  }

  /** `replace(/\D/g, "")`. */
  function Digits(s: string): string {
    if s == "" then "" else (if IsDigit(s[0]) then [s[0]] else "") + Digits(s[1..])
  }

  function Min(a: int, b: int): int {
    if a < b then a else b
  }

  /** `String.prototype.slice` for ascending bounds. */
  function Slice(s: string, a: nat, b: nat): string
    requires a <= b
  {
    s[Min(a, |s|)..Min(b, |s|)]
  }

  /** The subscriber's part: the country digit is dropped. */
  function Subscriber(d: string): string {
    if d != "" && (d[0] == '7' || d[0] == '8') then d[1..] else d
  }

  function Group(num: string, from: nat, to: nat, prefix: string, suffix: string): string
    requires from <= to
  {
    if |num| > from then prefix + Slice(num, from, to) + (if |num| >= to then suffix else "") else ""
  }

  function Assembled(num: string): string {
    "+7" + Group(num, 0, 3, " (", ")") + Group(num, 3, 6, " ", "") + Group(num, 6, 8, "-", "") + Group(num, 8, 10, "-", "")
  }

  function Formatted(digits: string): string {
    var d := Slice(Digits(digits), 0, 11);
    if d == "" then "" else Assembled(Subscriber(d))
  }

  function Concat(parts: seq<string>): string {
    if parts == [] then "" else Concat(parts[..|parts| - 1]) + parts[|parts| - 1]
  }

  lemma ConcatPush(parts: seq<string>, part: string)
    ensures Concat(parts + [part]) == Concat(parts) + part
  {
    assert (parts + [part])[..|parts|] == parts;
  }

  /** `if (num.length > from) parts.push(prefix + slice)`. */
  method PushGroup(parts: seq<string>, num: string, from: nat, to: nat, prefix: string) returns (more: seq<string>)
    requires from <= to
    ensures Concat(more) == Concat(parts) + Group(num, from, to, prefix, "")
  {
    if |num| <= from {
      return parts;
    }
    var part := prefix + Slice(num, from, to);
    ConcatPush(parts, part);
    assert part + "" == part;
    return parts + [part];
  }

  /** The country code and the area code, whose bracket is closed once it is complete. */
  method OpenParts(num: string) returns (parts: seq<string>)
    ensures Concat(parts) == "+7" + Group(num, 0, 3, " (", ")")
  {
    parts := ["+7"];
    if |num| > 0 {
      parts := parts + [" (" + Slice(num, 0, 3)];
    }
    if |num| >= 3 {
      parts := parts[1 := parts[1] + ")"];
    }
    assert |num| > 0 ==> parts[1] == Group(num, 0, 3, " (", ")");
    FirstParts(parts, num);
  }

  method FormatPhone(digits: string) returns (r: string)
    ensures r == Formatted(digits)
  {
    var d := Slice(Digits(digits), 0, 11);
    if |d| == 0 {
      return "";
    }
    var num := Subscriber(d);
    var parts := OpenParts(num);
    parts := PushGroup(parts, num, 3, 6, " ");
    parts := PushGroup(parts, num, 6, 8, "-");
    parts := PushGroup(parts, num, 8, 10, "-");
    return Concat(parts);
  }

  lemma FirstParts(parts: seq<string>, num: string)
    requires parts == if |num| == 0 then ["+7"] else ["+7", Group(num, 0, 3, " (", ")")]
    ensures Concat(parts) == "+7" + Group(num, 0, 3, " (", ")")
  {
    assert Concat([]) == "" && Concat(["+7"]) == "+7";
    if |num| > 0 {
      ConcatPush(["+7"], parts[1]);
      assert ["+7"] + [parts[1]] == parts;
    }
  }

  /** A leading 8 becomes 7, and any other number gets a leading 7. */
  function Normalised(digits: string): string {
    var n := if digits != "" && digits[0] == '8' then "7" + digits[1..] else digits;
    if n != "" && n[0] != '7' then "7" + n else n
  }

  /** What the field shows after the user leaves `raw` in it: the change handler. */
  function Shown(raw: string): string {
    Formatted(Normalised(Digits(raw)))
  }

  function RawPhone(formatted: string): string {
    if |Digits(formatted)| < 11 then formatted else "+" + Digits(formatted)
  }

  function DisplayFromStored(stored: string): string {
    var trimmed := Trim(stored, JsSpace);
    if trimmed == "" || Digits(trimmed) == "" then "" else Formatted(Normalised(Digits(trimmed)))
  }

  // ---------------------------------------------------------------- digits

  lemma {:induction false} DigitsConcat(a: string, b: string)
    ensures Digits(a + b) == Digits(a) + Digits(b)
  {
    if a == "" {
      assert a + b == b;
    } else {
      hide IsDigit;
      DigitsConcat(a[1..], b);
      var first := if IsDigit(a[0]) then [a[0]] else "";
      assert (a + b)[0] == a[0] && (a + b)[1..] == a[1..] + b;
      assert Digits(a + b) == first + (Digits(a[1..]) + Digits(b));
      assert first + (Digits(a[1..]) + Digits(b)) == first + Digits(a[1..]) + Digits(b);
    }
  }

  lemma {:induction false} DigitsAreDigits(s: string)
    ensures AllDigits(Digits(s)) && |Digits(s)| <= |s|
  {
    if s != "" {
      DigitsAreDigits(s[1..]);
    }
  }

  lemma {:induction false} DigitsFixed(s: string)
    requires AllDigits(s)
    ensures Digits(s) == s
  {
    if s != "" {
      DigitsFixed(s[1..]);
    }
  }

  lemma Separators()
    ensures Digits(" (") == Digits(")") == Digits(" ") == Digits("-") == Digits("+") == Digits("") == "" && Digits("+7") == "7"
  {
    assert " ("[1..] == "(" && "("[1..] == "" && ")"[1..] == "" && " "[1..] == "";
    assert "-"[1..] == "" && "+"[1..] == "" && "+7"[1..] == "7" && "7"[1..] == "";
    assert Digits("(") == "" && Digits("7") == "7";
  }

  lemma GroupDigits(num: string, from: nat, to: nat, prefix: string, suffix: string)
    requires from <= to && AllDigits(num) && Digits(prefix) == Digits(suffix) == ""
    ensures Digits(Group(num, from, to, prefix, suffix)) == Slice(num, from, to)
  {
    var middle := Slice(num, from, to);
    DigitsFixed(middle);
    DigitsConcat(prefix, middle);
    DigitsConcat(prefix + middle, suffix);
    assert prefix + middle + "" == prefix + middle;
  }

  lemma GroupLength(num: string, from: nat, to: nat, prefix: string, suffix: string)
    requires from <= to
    ensures |Group(num, from, to, prefix, suffix)| <= |prefix| + (to - from) + |suffix|
  {
  }

  lemma SlicesCover(num: string)
    ensures Slice(num, 0, 3) + Slice(num, 3, 6) + Slice(num, 6, 8) + Slice(num, 8, 10) == Slice(num, 0, 10)
  {
    assert Slice(num, 0, 3) + Slice(num, 3, 6) == Slice(num, 0, 6);
    assert Slice(num, 0, 6) + Slice(num, 6, 8) == Slice(num, 0, 8);
  }

  lemma DigitsConcat5(a: string, b: string, c: string, d: string, e: string)
    ensures Digits(a + b + c + d + e) == Digits(a) + Digits(b) + Digits(c) + Digits(d) + Digits(e)
  {
    DigitsConcat(a, b);
    DigitsConcat(a + b, c);
    DigitsConcat(a + b + c, d);
    DigitsConcat(a + b + c + d, e);
  }

  lemma Regroup(a: string, b: string, c: string, d: string, e: string)
    ensures a + b + c + d + e == a + (b + c + d + e)
  {
  }

  lemma AssembledDigits(num: string)
    requires AllDigits(num)
    ensures Digits(Assembled(num)) == "7" + Slice(num, 0, 10)
  {
    Separators();
    GroupDigits(num, 0, 3, " (", ")");
    GroupDigits(num, 3, 6, " ", "");
    GroupDigits(num, 6, 8, "-", "");
    GroupDigits(num, 8, 10, "-", "");
    DigitsConcat5("+7", Group(num, 0, 3, " (", ")"), Group(num, 3, 6, " ", ""),
                  Group(num, 6, 8, "-", ""), Group(num, 8, 10, "-", ""));
    SlicesCover(num);
    Regroup("7", Slice(num, 0, 3), Slice(num, 3, 6), Slice(num, 6, 8), Slice(num, 8, 10));
  }

  lemma AssembledLength(num: string)
    ensures 2 <= |Assembled(num)| <= 18
  {
    GroupLength(num, 0, 3, " (", ")");
    GroupLength(num, 3, 6, " ", "");
    GroupLength(num, 6, 8, "-", "");
    GroupLength(num, 8, 10, "-", "");
  }

  lemma AssembledTrimmed(num: string)
    requires AllDigits(num)
    ensures Trimmed(Assembled(num), JsSpace)
  {
    var a, b := Group(num, 0, 3, " (", ")"), Group(num, 3, 6, " ", "");
    var c, e := Group(num, 6, 8, "-", ""), Group(num, 8, 10, "-", "");
    var s := Assembled(num);
    assert s[0] == '+';
    GroupEnd(num, 0, 3, " (", ")");
    GroupEnd(num, 3, 6, " ", "");
    GroupEnd(num, 6, 8, "-", "");
    GroupEnd(num, 8, 10, "-", "");
    var last := s[|s| - 1];
    assert last == if e != "" then e[|e| - 1] else if c != "" then c[|c| - 1] else if b != "" then b[|b| - 1]
                   else if a != "" then a[|a| - 1] else '7';
  }

  lemma GroupEnd(num: string, from: nat, to: nat, prefix: string, suffix: string)
    requires from < to && AllDigits(num) && (suffix == "" || suffix == ")")
    ensures var g := Group(num, from, to, prefix, suffix);
            g == "" || IsDigit(g[|g| - 1]) || g[|g| - 1] == ')'
  {
  }

  /** Whatever is formatted, the result fits the field and holds 7 and the subscriber's first ten digits, or nothing. */
  lemma FormattedDigits(s: string)
    ensures Formatted(s) == "" <==> Digits(s) == ""
    ensures Digits(s) != "" ==>
              var d := Slice(Digits(s), 0, 11);
              Digits(Formatted(s)) == "7" + Slice(if d[0] == '7' || d[0] == '8' then d[1..] else d, 0, 10)
    ensures |Formatted(s)| <= 18 && Trimmed(Formatted(s), JsSpace)
  {
    if Digits(s) != "" {
      DigitsAreDigits(s);
      var num := Subscriber(Slice(Digits(s), 0, 11));
      AssembledDigits(num);
      AssembledLength(num);
      AssembledTrimmed(num);
    }
  }

  /** A number that begins with 7 keeps its digits, up to the eleventh. */
  lemma FormattedSeven(d: string)
    requires AllDigits(d) && d != "" && d[0] == '7'
    ensures Digits(Formatted(d)) == Slice(d, 0, 11) && |Formatted(d)| <= 18
    ensures Formatted(d) != "" && Trimmed(Formatted(d), JsSpace)
  {
    DigitsFixed(d);
    FormattedDigits(d);
    var num := Slice(d, 0, 11)[1..];
    assert "7" + Slice(num, 0, 10) == Slice(d, 0, 11);
  }

  // ---------------------------------------------------------------- what the field promises

  lemma NormalisedStarts(digits: string)
    requires AllDigits(digits)
    ensures AllDigits(Normalised(digits)) && (digits != "" ==> Normalised(digits) != "" && Normalised(digits)[0] == '7')
  {
  }

  /** The field keeps the digits typed, as an eleven-digit number starting with 7, in at most 18 characters. */
  lemma ShownDigits(raw: string)
    ensures Digits(raw) == "" ==> Shown(raw) == ""
    ensures Digits(raw) != "" ==>
              Digits(Shown(raw)) == Slice(Normalised(Digits(raw)), 0, 11) && Digits(Shown(raw)) != ""
              && Trimmed(Shown(raw), JsSpace) && Shown(raw) != ""
    ensures |Shown(raw)| <= 18
  {
    DigitsAreDigits(raw);
    NormalisedStarts(Digits(raw));
    if Digits(raw) != "" {
      FormattedSeven(Normalised(Digits(raw)));
    } else {
      assert Digits("") == "";
    }
  }

  lemma FormattedIgnoresRest(d: string)
    requires AllDigits(d) && d != "" && d[0] == '7'
    ensures Formatted(Normalised(Slice(d, 0, 11))) == Formatted(d)
  {
    var e := Slice(d, 0, 11);
    assert e[0] == d[0] && Normalised(e) == e;
    DigitsFixed(d);
    DigitsFixed(e);
    assert Slice(e, 0, 11) == e;
  }

  /** Feeding the field its own content changes nothing. */
  lemma ShownIdempotent(raw: string)
    ensures Shown(Shown(raw)) == Shown(raw)
  {
    ShownDigits(raw);
    DigitsAreDigits(raw);
    NormalisedStarts(Digits(raw));
    if Digits(raw) != "" {
      FormattedIgnoresRest(Normalised(Digits(raw)));
    } else {
      assert Digits("") == "";
    }
  }

  lemma {:induction false} TrimKeepsDigits(s: string)
    ensures Digits(Trim(s, JsSpace)) == Digits(s)
  {
    TrimLeftKeepsDigits(s);
    TrimRightKeepsDigits(TrimLeft(s, JsSpace));
  }

  lemma {:induction false} TrimLeftKeepsDigits(s: string)
    ensures Digits(TrimLeft(s, JsSpace)) == Digits(s)
  {
    if s != "" && JsSpace(s[0]) {
      TrimLeftKeepsDigits(s[1..]);
    }
  }

  lemma {:induction false} TrimRightKeepsDigits(s: string)
    ensures Digits(TrimRight(s, JsSpace)) == Digits(s)
  {
    if s != "" && JsSpace(s[|s| - 1]) {
      var n := |s| - 1;
      TrimRightKeepsDigits(s[..n]);
      DigitsConcat(s[..n], [s[n]]);
      assert s == s[..n] + [s[n]] && [s[n]][1..] == "";
    }
  }

  /** A stored number is displayed exactly as if the user had typed it. */
  lemma StoredIsTyped(stored: string)
    ensures DisplayFromStored(stored) == Shown(stored)
  {
    TrimKeepsDigits(stored);
    assert Digits("") == "";
  }

  /** Saving what the field shows and displaying it again restores it, complete or not. */
  lemma SaveAndDisplay(raw: string)
    ensures DisplayFromStored(RawPhone(Shown(raw))) == Shown(raw)
  {
    var shown := Shown(raw);
    StoredIsTyped(RawPhone(shown));
    if |Digits(shown)| < 11 {
      ShownIdempotent(raw);
    } else {
      var d := Digits(shown);
      DigitsAreDigits(shown);
      Separators();
      DigitsConcat("+", d);
      DigitsFixed(d);
      assert Digits("+" + d) == d;
      ShownIdempotent(raw);
    }
  }

  lemma CompleteIsRaw(d: string)
    requires AllDigits(d) && |d| == 11 && d[0] == '7'
    ensures RawPhone(Formatted(d)) == "+" + d
  {
    FormattedSeven(d);
    assert Slice(d, 0, 11) == d;
  }

  lemma StoredDigits(ten: string)
    requires AllDigits(ten)
    ensures Digits("+7" + ten) == "7" + ten
  {
    Separators();
    DigitsConcat("+7", ten);
    DigitsFixed(ten);
  }

  /** A complete number in the stored form survives being displayed and saved. */
  lemma DisplayAndSave(ten: string)
    requires AllDigits(ten) && |ten| == 10
    ensures RawPhone(DisplayFromStored("+7" + ten)) == "+7" + ten
  {
    var d := "7" + ten;
    StoredDigits(ten);
    StoredIsTyped("+7" + ten);
    assert Normalised(d) == d;
    CompleteIsRaw(d);
    assert "+" + d == "+7" + ten;
  }

  lemma DisplayOfDigits(stored: string, d: string)
    requires Digits(stored) == d && d != ""
    ensures DisplayFromStored(stored) == Formatted(Normalised(d))
    ensures Digits(DisplayFromStored(stored)) == Slice(Normalised(d), 0, 11)
  {
    StoredIsTyped(stored);
    ShownDigits(stored);
  }

  /**
   A number stored with a leading 8 is shown like the same number stored with +7; the bare ten digits
   are shown so exactly when they begin with neither 7 nor 8, which would be taken for a country digit.
   */
  lemma ThreeSpellings(ten: string)
    requires AllDigits(ten) && |ten| == 10
    ensures DisplayFromStored("8" + ten) == DisplayFromStored("+7" + ten)
    ensures DisplayFromStored(ten) == DisplayFromStored("+7" + ten) <==> ten[0] != '7' && ten[0] != '8'
  {
    hide Digits, DisplayFromStored, Formatted;
    var d := "7" + ten;
    StoredDigits(ten);
    DisplayOfDigits("+7" + ten, d);
    assert Normalised(d) == d && |Slice(d, 0, 11)| == 11;
    DigitsFixed("8" + ten);
    DisplayOfDigits("8" + ten, "8" + ten);
    assert "7" + ("8" + ten)[1..] == d;
    DigitsFixed(ten);
    DisplayOfDigits(ten, ten);
    if ten[0] == '7' || ten[0] == '8' {
      assert |Normalised(ten)| == 10;
    } else {
      assert Normalised(ten) == d;
    }
  }

  // ---------------------------------------------------------------- how the number looks

  /** The whole number in its groups, as the placeholder shows it. */
  function Template(ten: string): string
    requires |ten| == 10
  {
    "+7" + (" (" + ten[..3] + ")") + (" " + ten[3..6]) + ("-" + ten[6..8]) + ("-" + ten[8..])
  }

  /** How much of it is shown once `k` digits are typed: a bracket closes at once, a space or a dash waits for the next digit. */
  const SHOWN := [2, 5, 6, 8, 10, 11, 12, 14, 15, 17, 18]

  /** A group of which `k` digits are typed. */
  function Typed(ten: string, k: nat, from: nat, to: nat, prefix: string, suffix: string): string
    requires |ten| == 10 && k <= 10 && from < to <= 10
  {
    if k <= from then "" else if k < to then prefix + ten[from..k] else prefix + ten[from..to] + suffix
  }

  lemma GroupIsTyped(ten: string, k: nat, from: nat, to: nat, prefix: string, suffix: string)
    requires |ten| == 10 && k <= 10 && from < to <= 10
    ensures Group(ten[..k], from, to, prefix, suffix) == Typed(ten, k, from, to, prefix, suffix)
  {
    var num := ten[..k];
    if k > from {
      assert Slice(num, from, to) == if k < to then ten[from..k] else ten[from..to];
      assert prefix + ten[from..k] + "" == prefix + ten[from..k];
    }
  }

  lemma AssembledIsTyped(ten: string, k: nat)
    requires |ten| == 10 && k <= 10
    ensures Assembled(ten[..k]) ==
            "+7" + Typed(ten, k, 0, 3, " (", ")") + Typed(ten, k, 3, 6, " ", "") +
            Typed(ten, k, 6, 8, "-", "") + Typed(ten, k, 8, 10, "-", "")
  {
    hide Group, Typed;
    GroupIsTyped(ten, k, 0, 3, " (", ")");
    GroupIsTyped(ten, k, 3, 6, " ", "");
    GroupIsTyped(ten, k, 6, 8, "-", "");
    GroupIsTyped(ten, k, 8, 10, "-", "");
  }

  /** A group is a part of the whole group, and the next one is empty until it is whole. */
  lemma TypedIs(ten: string, k: nat, from: nat, to: nat, prefix: string, suffix: string)
    requires |ten| == 10 && k <= 10 && from < to <= 10
    ensures Typed(ten, k, from, to, prefix, suffix) <= Typed(ten, 10, from, to, prefix, suffix)
    ensures k >= to ==> Typed(ten, k, from, to, prefix, suffix) == Typed(ten, 10, from, to, prefix, suffix)
    ensures k <= from ==> Typed(ten, k, from, to, prefix, suffix) == ""
    ensures |Typed(ten, k, from, to, prefix, suffix)| ==
            if k <= from then 0 else if k < to then |prefix| + k - from else |prefix| + to - from + |suffix|
  {
  }

  lemma TypedPrefix(ten: string, k: nat)
    requires |ten| == 10 && k <= 10
    ensures Assembled(ten[..k]) <= Assembled(ten[..10]) && |Assembled(ten[..k])| == SHOWN[k]
  {
    hide Typed, Assembled;
    AssembledIsTyped(ten, k);
    AssembledIsTyped(ten, 10);
    TypedIs(ten, k, 0, 3, " (", ")");
    TypedIs(ten, k, 3, 6, " ", "");
    TypedIs(ten, k, 6, 8, "-", "");
    TypedIs(ten, k, 8, 10, "-", "");
    var a, b, c, d := Typed(ten, k, 0, 3, " (", ")"), Typed(ten, k, 3, 6, " ", ""),
                      Typed(ten, k, 6, 8, "-", ""), Typed(ten, k, 8, 10, "-", "");
    var p, q, r, s := Typed(ten, 10, 0, 3, " (", ")"), Typed(ten, 10, 3, 6, " ", ""),
                      Typed(ten, 10, 6, 8, "-", ""), Typed(ten, 10, 8, 10, "-", "");
    GroupsPrefix(a, b, c, d, p, q, r, s);
  }

  lemma GroupsPrefix(a: string, b: string, c: string, d: string, p: string, q: string, r: string, s: string)
    requires a <= p && b <= q && c <= r && d <= s
    requires (a == p || b == c == d == "") && (b == q || c == d == "") && (c == r || d == "")
    ensures "+7" + a + b + c + d <= "+7" + p + q + r + s
  {
    if d != "" {
      assert a == p && b == q && c == r;
    } else if c != "" {
      assert a == p && b == q;
    } else if b != "" {
      assert a == p;
    }
  }

  lemma WholeTemplate(ten: string)
    requires |ten| == 10
    ensures Assembled(ten[..10]) == Template(ten) && |Template(ten)| == 18
  {
    AssembledIsTyped(ten, 10);
    assert " " + ten[3..6] + "" == " " + ten[3..6] && "-" + ten[6..8] + "" == "-" + ten[6..8];
    assert "-" + ten[8..10] + "" == "-" + ten[8..];
  }

  lemma SevenFormatted(num: string)
    requires AllDigits(num) && |num| <= 10
    ensures Shown("+7" + num) == Assembled(num)
  {
    hide Assembled;
    var d := "7" + num;
    StoredDigits(num);
    assert Normalised(d) == d;
    DigitsFixed(d);
    assert Slice(d, 0, 11) == d && Subscriber(d) == num;
  }

  /** What the field shows while a number is typed: ever more of the placeholder's form, and all of it at the end. */
  lemma NumberLooks(ten: string, k: nat)
    requires AllDigits(ten) && |ten| == 10 && k <= 10
    ensures Shown("+7" + ten[..k]) == Template(ten)[..SHOWN[k]]
    ensures k == 10 ==> Shown("+7" + ten[..k]) == Template(ten)
  {
    hide Shown, Assembled, Template;
    SevenFormatted(ten[..k]);
    TypedPrefix(ten, k);
    WholeTemplate(ten);
  }
}
