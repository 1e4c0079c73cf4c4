/** Visit intervals as clock times (frontend/src/lib/booking-slot-time.ts). */
module BookingSlotTime {
  import opened Text
  import opened Wrappers

  const DAY := 1440

  function DigitValue(c: char): int
    requires IsDigit(c)
  {
    c as int - '0' as int
  }

  function Digit(n: int): char
    requires 0 <= n < 10
  {
    (n + '0' as int) as char
  }

  /** `padStart(2, "0")` of a number below 100. */
  function Pad2(n: int): string
    requires 0 <= n < 100
  {
    [Digit(n / 10), Digit(n % 10)]
  }

  function Clock(minutes: int): string
    requires 0 <= minutes < DAY
  {
    Pad2(minutes / 60) + ":" + Pad2(minutes % 60)
  }

  /** The pattern `^(\d{1,2}):(\d{2})$`, hours up to 23 and minutes up to 59. */
  function HhmmToMinutes(s: string): (r: Option<int>)
    ensures r.Some? ==> 0 <= r.value < DAY
  {
    var n := |s|;
    if (n == 4 || n == 5) && s[n - 3] == ':' && IsDigit(s[0]) && IsDigit(s[n - 4]) && IsDigit(s[n - 2]) && IsDigit(s[n - 1]) then
      var h := if n == 5 then 10 * DigitValue(s[0]) + DigitValue(s[1]) else DigitValue(s[0]);
      var m := 10 * DigitValue(s[n - 2]) + DigitValue(s[n - 1]);
      if m > 59 || h > 23 then None else Some(h * 60 + m)
    else None
  }

  /** `parseInt(s, 10)`: leading space, a sign, and the digits that follow; no digits is NaN. */
  function ParseInt(s: string): Option<int> {
    var t := TrimLeft(s, JsSpace);
    if t != "" && t[0] == '-' then
      match DigitRun(t[1..]) case None => None case Some(n) => Some(0 - n)
    else if t != "" && t[0] == '+' then DigitRun(t[1..])
    else DigitRun(t)
  }

  function DigitRun(s: string): Option<int> {
    if s == "" || !IsDigit(s[0]) then None else Some(RunValue(s, 0))
  }

  function RunValue(s: string, sofar: int): int {
    if s == "" || !IsDigit(s[0]) then sofar else RunValue(s[1..], 10 * sofar + DigitValue(s[0]))
  }

  /** The first two colon-separated fields as hours and minutes. */
  function FieldMinutes(s: string): Option<int> {
    var fields := SplitOn(s, ':');
    if |fields| < 2 then None
    else match (ParseInt(fields[0]), ParseInt(fields[1]))
      case (Some(h), Some(m)) => Some(h * 60 + m)
      case _ => None
  }

  function SlotLength(from: string, to: string): Option<int> {
    match (FieldMinutes(from), FieldMinutes(to))
    case (Some(a), Some(b)) => if b - a > 0 then Some(b - a) else None
    case _ => None
  }

  // ---------------------------------------------------------------- the options for the end of a visit

  /** How many half hours fit before midnight, at most twelve hours of them, given that `k` do. */
  function CountFrom(start: int, k: nat): nat
    decreases 24 - k
  {
    if k >= 24 || start + 30 * (k + 1) >= DAY then k else CountFrom(start, k + 1)
  }

  function OptionCount(start: int): nat {
    CountFrom(start, 0)
  }

  lemma {:induction false} CountFromIs(start: int, k: nat, i: nat)
    requires k <= 24 && (k == 0 || start + 30 * k < DAY) && k <= i
    ensures i < CountFrom(start, k) <==> i < 24 && start + 30 * (i + 1) < DAY
    ensures k <= CountFrom(start, k) <= 24
    decreases 24 - k
  {
    if k < 24 && start + 30 * (k + 1) < DAY && i > k {
      CountFromIs(start, k + 1, i);
    } else if k < 24 && start + 30 * (k + 1) < DAY {
      CountFromIs(start, k + 1, k + 1);
    }
  }

  function OptionAt(start: int, i: nat): string
    requires 0 <= start < DAY && i < OptionCount(start)
  {
    CountFromIs(start, 0, i);
    Clock(start + 30 * (i + 1))
  }

  function OptionsFrom(start: int): seq<string>
    requires 0 <= start < DAY
  {
    seq(OptionCount(start), i requires 0 <= i < OptionCount(start) => OptionAt(start, i))
  }

  function EndOptions(startHhmm: string): seq<string> {
    match HhmmToMinutes(startHhmm)
    case None => []
    case Some(start) => OptionsFrom(start)
  }

  method EndTimeOptionsThirtyMinutes(startHhmm: string) returns (out: seq<string>)
    ensures out == EndOptions(startHhmm)
  {
    hide HhmmToMinutes, Pad2;
    var parsed := HhmmToMinutes(startHhmm);
    if parsed.None? {
      return [];
    }
    var start := parsed.value;
    out := [];
    var delta := 30;
    CountFromIs(start, 0, 0);
    while delta <= 720
      invariant delta == 30 * (|out| + 1) && |out| <= OptionCount(start) <= 24
      invariant forall i :: 0 <= i < |out| ==> out[i] == OptionAt(start, i)
    {
      var total := start + delta;
      CountFromIs(start, 0, |out|);
      if total >= DAY {
        break;
      }
      out := out + [Pad2(total / 60) + ":" + Pad2(total % 60)];
      delta := delta + 30;
      CountFromIs(start, 0, |out|);
    }
    CountFromIs(start, 0, |out|);
  }

  function Clamp(preferred: int): int {
    if preferred < 30 then 30 else if preferred > 720 then 720 else preferred
  }

  /** Where the default lies among the options: the first one long enough, or the last. */
  function DefaultIndex(start: int, preferred: int): nat
    requires 0 <= start < DAY && OptionCount(start) > 0
  {
    var i := (Clamp(preferred) + 29) / 30 - 1;
    if i < OptionCount(start) then i else OptionCount(start) - 1
  }

  function DefaultEnd(startHhmm: string, preferred: int): string {
    var opts := EndOptions(startHhmm);
    if opts == [] then ""
    else opts[DefaultIndex(HhmmToMinutes(startHhmm).value, preferred)]
  }

  lemma DefaultIndexIs(start: int, preferred: int, i: nat)
    requires 0 <= start < DAY && i < OptionCount(start)
    requires i == 0 || 30 * i < Clamp(preferred)
    requires 30 * (i + 1) >= Clamp(preferred) || i == OptionCount(start) - 1
    ensures DefaultIndex(start, preferred) == i
  {
  }

  lemma OptionsLength(start: string)
    requires EndOptions(start) != []
    ensures HhmmToMinutes(start).Some? && |EndOptions(start)| == OptionCount(HhmmToMinutes(start).value)
  {
  }

  method DefaultEndTimeForDuration(startHhmm: string, preferred: int) returns (end: string)
    ensures end == DefaultEnd(startHhmm, preferred)
  {
    hide HhmmToMinutes, Clock, EndOptions, CountFrom, DefaultIndex;
    var opts := EndTimeOptionsThirtyMinutes(startHhmm);
    if |opts| == 0 {
      return "";
    }
    OptionsLength(startHhmm);
    var start := HhmmToMinutes(startHhmm).value;
    var need := Clamp(preferred);
    for i := 0 to |opts|
      invariant i == 0 || 30 * i < need
    {
      OptionIsClock(startHhmm, i, opts[i]);
      CountFromIs(start, 0, i);
      ClockRoundTrip(start + 30 * (i + 1));
      var om := HhmmToMinutes(opts[i]);
      if om.Some? && om.value - start >= need {
        DefaultIndexIs(start, preferred, i);
        return opts[i];
      }
    }
    DefaultIndexIs(start, preferred, |opts| - 1);
    return opts[|opts| - 1];
  }

  // ---------------------------------------------------------------- the arithmetic

  lemma ClockRoundTrip(m: int)
    requires 0 <= m < DAY
    ensures HhmmToMinutes(Clock(m)) == Some(m)
  {
  }

  lemma ParseTwo(a: char, b: char)
    requires IsDigit(a) && IsDigit(b)
    ensures ParseInt([a, b]) == Some(10 * DigitValue(a) + DigitValue(b)) && ParseInt([b]) == Some(DigitValue(b))
  {
    assert [a, b][1..] == [b] && [b][1..] == "";
    assert RunValue([b], DigitValue(a)) == RunValue("", 10 * DigitValue(a) + DigitValue(b));
    assert RunValue([a, b], 0) == RunValue([b], DigitValue(a));
    assert RunValue([b], 0) == RunValue("", DigitValue(b));
  }

  /** The strict pattern and the lenient field parser agree wherever the pattern matches. */
  lemma ParsersAgree(s: string)
    requires HhmmToMinutes(s).Some?
    ensures FieldMinutes(s) == HhmmToMinutes(s) && 0 <= HhmmToMinutes(s).value < DAY
  {
    hide ParseInt, SplitOn;
    var n := |s|;
    var h, m := s[..n - 3], s[n - 2..];
    assert s == h + [':'] + m;
    assert !IsDigit(':');
    SplitHead(h, m, ':');
    SplitPieces(m, ':');
    assert SplitOn(s, ':') == [h, m];
    ParseTwo(m[0], m[1]);
    assert m == [m[0], m[1]];
    if n == 5 {
      ParseTwo(h[0], h[1]);
      assert h == [h[0], h[1]];
    } else {
      ParseTwo(h[0], h[0]);
      assert h == [h[0]];
    }
  }

  /** The length between a valid start and a later or earlier clock time. */
  lemma LengthToClock(start: string, end: int)
    requires HhmmToMinutes(start).Some? && 0 <= end < DAY
    ensures SlotLength(start, Clock(end)) ==
            if end > HhmmToMinutes(start).value then Some(end - HhmmToMinutes(start).value) else None
  {
    hide HhmmToMinutes, FieldMinutes, Clock;
    ParsersAgree(start);
    ClockRoundTrip(end);
    ParsersAgree(Clock(end));
  }

  predicate SlotValid(time: string, timeTo: string) {
    time != "" && timeTo != "" &&
    match SlotLength(time, timeTo)
    case None => false
    case Some(m) => 30 <= m <= 720 && m % 30 == 0
  }

  lemma OptionIsClock(start: string, i: nat, o: string)
    requires i < |EndOptions(start)| && EndOptions(start)[i] == o
    ensures HhmmToMinutes(start).Some? && i < OptionCount(HhmmToMinutes(start).value) && i < 24
    ensures HhmmToMinutes(start).value + 30 * (i + 1) < DAY
    ensures o == Clock(HhmmToMinutes(start).value + 30 * (i + 1))
  {
    CountFromIs(HhmmToMinutes(start).value, 0, i);
  }

  lemma OptionNonEmpty(start: string, i: nat, o: string)
    requires i < |EndOptions(start)| && EndOptions(start)[i] == o
    ensures o != "" && start != ""
  {
  }

  lemma OptionLength(start: string, i: nat, o: string)
    requires i < |EndOptions(start)| && EndOptions(start)[i] == o
    ensures SlotLength(start, o) == Some(30 * (i + 1)) && i < 24 && o != "" && start != ""
  {
    hide *;
    OptionIsClock(start, i, o);
    OptionNonEmpty(start, i, o);
    LengthToClock(start, HhmmToMinutes(start).value + 30 * (i + 1));
  }

  lemma LongEnoughIsOption(s: int, end: int)
    requires 0 <= s < DAY && 0 <= end < DAY && 30 <= end - s <= 720 && (end - s) % 30 == 0
    ensures Clock(end) in OptionsFrom(s)
  {
    var i := (end - s) / 30 - 1;
    CountFromIs(s, 0, i);
    assert OptionsFrom(s)[i] == Clock(s + 30 * (i + 1));
  }

  lemma ValidByLength(start: string, o: string, m: int)
    requires SlotLength(start, o) == Some(m) && 30 <= m <= 720 && m % 30 == 0 && o != "" && start != ""
    ensures SlotValid(start, o)
  {
  }

  /** Every option is a valid end. */
  lemma OptionsAreValid(start: string, o: string)
    requires o in EndOptions(start)
    ensures SlotValid(start, o)
  {
    hide *;
    var i :| 0 <= i < |EndOptions(start)| && EndOptions(start)[i] == o;
    OptionLength(start, i, o);
    ValidByLength(start, o, 30 * (i + 1));
  }

  lemma ValidClockIsOption(start: string, end: int)
    requires HhmmToMinutes(start).Some? && 0 <= end < DAY && SlotValid(start, Clock(end))
    ensures Clock(end) in EndOptions(start)
  {
    hide HhmmToMinutes, Clock, SlotLength, OptionsFrom;
    LengthToClock(start, end);
    LongEnoughIsOption(HhmmToMinutes(start).value, end);
  }

  /** For a valid start, a clock time makes the slot valid exactly when it is one of the options. */
  lemma ValidEndsAreTheOptions(start: string, end: int)
    requires HhmmToMinutes(start).Some? && 0 <= end < DAY
    ensures SlotValid(start, Clock(end)) <==> Clock(end) in EndOptions(start)
  {
    if Clock(end) in EndOptions(start) {
      OptionsAreValid(start, Clock(end));
    } else if SlotValid(start, Clock(end)) {
      ValidClockIsOption(start, end);
    }
  }

  lemma DefaultIndexLeast(start: int, preferred: int, i: nat)
    requires 0 <= start < DAY && i < OptionCount(start)
    ensures var k := DefaultIndex(start, preferred);
            && k < OptionCount(start)
            && (30 * (i + 1) >= Clamp(preferred) ==> k <= i && 30 * (k + 1) >= Clamp(preferred))
            && (30 * (k + 1) < Clamp(preferred) ==> k == OptionCount(start) - 1)
  {
  }

  lemma DefaultLengths(start: string, preferred: int, i: nat)
    requires i < |EndOptions(start)|
    ensures var opts, need := EndOptions(start), Clamp(preferred);
            var length, other := SlotLength(start, DefaultEnd(start, preferred)), SlotLength(start, opts[i]);
            && DefaultEnd(start, preferred) in opts && length.Some? && other.Some? && 30 <= other.value <= 720
            && (other.value >= need ==> need <= length.value <= other.value)
            && (length.value < need ==> DefaultEnd(start, preferred) == opts[|opts| - 1])
  {
    var s := HhmmToMinutes(start).value;
    DefaultIndexLeast(s, preferred, i);
    OptionLength(start, i, EndOptions(start)[i]);
    OptionLength(start, DefaultIndex(s, preferred), DefaultEnd(start, preferred));
  }

  /**
   The default is an option; no option as long as is preferred, or of twelve hours when more is preferred,
   is shorter than it; and if it is not that long itself it is the last.
   */
  lemma DefaultIsShortestLongEnough(start: string, preferred: int, i: nat)
    requires i < |EndOptions(start)|
    ensures var opts := EndOptions(start);
            var length, other := SlotLength(start, DefaultEnd(start, preferred)), SlotLength(start, opts[i]);
            && DefaultEnd(start, preferred) in opts && length.Some? && other.Some?
            && (other.value >= preferred || other.value >= 720 ==>
                  length.value <= other.value && (length.value >= preferred || length.value >= 720))
            && (length.value < preferred && length.value < 720 ==> DefaultEnd(start, preferred) == opts[|opts| - 1])
  {
    hide EndOptions, DefaultEnd, SlotLength;
    DefaultLengths(start, preferred, i);
  }

  /** The options in numbers: half an hour, an hour and so on after the start, as many as end before midnight, at most 24. */
  lemma OptionsAre(start: string, i: nat)
    requires HhmmToMinutes(start).Some?
    ensures i < |EndOptions(start)| <==> i < 24 && HhmmToMinutes(start).value + 30 * (i + 1) <= 1439
    ensures i < |EndOptions(start)| ==> HhmmToMinutes(EndOptions(start)[i]) == Some(HhmmToMinutes(start).value + 30 * (i + 1))
  {
    hide HhmmToMinutes, Clock;
    var s := HhmmToMinutes(start).value;
    CountFromIs(s, 0, i);
    assert |EndOptions(start)| == OptionCount(s);
    if i < |EndOptions(start)| {
      OptionIsClock(start, i, EndOptions(start)[i]);
      ClockRoundTrip(s + 30 * (i + 1));
    }
  }

  /** Which clock times are valid: hours below 24 of one or two digits, minutes below 60 of two. */
  lemma ClocksAre(a: char, b: char, c: char, d: char)
    requires IsDigit(a) && IsDigit(b) && IsDigit(c) && IsDigit(d)
    ensures var h, m := 10 * DigitValue(a) + DigitValue(b), 10 * DigitValue(c) + DigitValue(d);
            HhmmToMinutes([a, b, ':', c, d]) == if h < 24 && m < 60 then Some(60 * h + m) else None
    ensures var m := 10 * DigitValue(c) + DigitValue(d);
            HhmmToMinutes([b, ':', c, d]) == if m < 60 then Some(60 * DigitValue(b) + m) else None
    ensures DigitValue('0') == 0 && DigitValue('9') == 9
  {
  }

  /** Between midnight and half past eleven at night there is an end to offer, and only then. */
  lemma WhenThereAreOptions(start: string)
    ensures EndOptions(start) == [] <==> HhmmToMinutes(start).None? || HhmmToMinutes(start).value >= DAY - 30
  {
    if HhmmToMinutes(start).Some? {
      CountFromIs(HhmmToMinutes(start).value, 0, 0);
      assert |OptionsFrom(HhmmToMinutes(start).value)| == OptionCount(HhmmToMinutes(start).value);
    }
  }
}
