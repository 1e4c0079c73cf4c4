/**
 Lists of city names.  The same normalisation is written out in pkg/cities/join.go (twice),
 frontend/src/lib/cities-http.ts and the catalogue sections: trim, drop blanks, and keep the
 first of the names that agree once lower-cased.

 Lower-casing is a parameter, so every result holds for whatever the runtime's tables say.
 */
module CityLists {
  import opened Text

  datatype Fold = Fold(space: char -> bool, lower: string -> string)

  function Name(f: Fold, raw: string): string {
    Trim(raw, f.space)
  }

  /** Entry `i` is the first of the list to spell its city. */
  predicate IsFirst(f: Fold, raw: seq<string>, i: nat)
    requires i < |raw|
  {
    && Name(f, raw[i]) != ""
    && forall j :: 0 <= j < i && Name(f, raw[j]) != "" ==> f.lower(Name(f, raw[j])) != f.lower(Name(f, raw[i]))
  }

  /** The trimmed, non-empty, first-occurrence names, in order. */
  function Firsts(f: Fold, raw: seq<string>): seq<string> {
    if raw == [] then []
    else
      var n := |raw| - 1;
      Firsts(f, raw[..n]) + (if IsFirst(f, raw, n) then [Name(f, raw[n])] else [])
  }

  /** What normalised lists look like. */
  predicate Normal(f: Fold, names: seq<string>) {
    && (forall i :: 0 <= i < |names| ==> names[i] != "" && Trimmed(names[i], f.space))
    && (forall i, j :: 0 <= i < j < |names| ==> f.lower(names[i]) != f.lower(names[j]))
  }

  /** The loop of the source, with its `seen` set. */
  method Dedupe(f: Fold, raw: seq<string>) returns (names: seq<string>)
    ensures names == Firsts(f, raw)
  {
    var seen: set<string> := {};
    names := [];
    for i := 0 to |raw|
      invariant names == Firsts(f, raw[..i])
      invariant forall k :: k in seen ==> exists j :: 0 <= j < i && Name(f, raw[j]) != "" && f.lower(Name(f, raw[j])) == k
      invariant forall j :: 0 <= j < i && Name(f, raw[j]) != "" ==> f.lower(Name(f, raw[j])) in seen
    {
      var t := Trim(raw[i], f.space);
      assert raw[..i + 1][..i] == raw[..i];
      assert IsFirst(f, raw[..i + 1], i) <==> t != "" && f.lower(t) !in seen;
      if t == "" {
        continue;
      }
      var k := f.lower(t);
      if k in seen {
        continue;
      }
      seen := seen + {k};
      names := names + [t];
    }
    assert raw[..|raw|] == raw;
  }

  /** Every name kept comes from the list, is trimmed and not empty, and differs from the others. */
  lemma {:induction false} FirstsFrom(f: Fold, raw: seq<string>, k: nat)
    requires k < |Firsts(f, raw)|
    ensures exists i :: 0 <= i < |raw| && IsFirst(f, raw, i) && Firsts(f, raw)[k] == Name(f, raw[i])
  {
    var n := |raw| - 1;
    if k < |Firsts(f, raw[..n])| {
      FirstsFrom(f, raw[..n], k);
      var i :| 0 <= i < n && IsFirst(f, raw[..n], i) && Firsts(f, raw[..n])[k] == Name(f, raw[..n][i]);
      assert IsFirst(f, raw, i);
    } else {
      assert IsFirst(f, raw, n);
    }
  }

  lemma {:induction false} FirstsNormal(f: Fold, raw: seq<string>)
    ensures Normal(f, Firsts(f, raw))
  {
    if raw != [] {
      var n := |raw| - 1;
      FirstsNormal(f, raw[..n]);
      if IsFirst(f, raw, n) {
        TrimTrims(raw[n], f.space);
        forall k | 0 <= k < |Firsts(f, raw[..n])|
          ensures f.lower(Firsts(f, raw[..n])[k]) != f.lower(Name(f, raw[n]))
        {
          FirstsFrom(f, raw[..n], k);
          var i :| 0 <= i < n && IsFirst(f, raw[..n], i) && Firsts(f, raw[..n])[k] == Name(f, raw[..n][i]);
          assert raw[..n][i] == raw[i];
        }
      }
    }
  }

  /** A normalised list is left alone, so normalising twice is normalising once. */
  lemma {:induction false} FirstsOfNormal(f: Fold, names: seq<string>)
    requires Normal(f, names)
    ensures Firsts(f, names) == names
  {
    if names != [] {
      var n := |names| - 1;
      FirstsOfNormal(f, names[..n]);
      forall i | 0 <= i <= n
        ensures Name(f, names[i]) == names[i]
      {
        TrimmedIsFixed(names[i], f.space);
      }
      assert IsFirst(f, names, n);
    }
  }

  lemma FirstsFree(f: Fold, raw: seq<string>, sep: char)
    requires Free(raw, sep)
    ensures Free(Firsts(f, raw), sep)
  {
    forall k | 0 <= k < |Firsts(f, raw)|
      ensures sep !in Firsts(f, raw)[k]
    {
      FirstsFrom(f, raw, k);
      var i :| 0 <= i < |raw| && IsFirst(f, raw, i) && Firsts(f, raw)[k] == Name(f, raw[i]);
      TrimTrims(raw[i], f.space);
    }
  }

  lemma {:induction false} FirstsGrow(f: Fold, raw: seq<string>, n: nat)
    requires n <= |raw|
    ensures Firsts(f, raw[..n]) <= Firsts(f, raw)
  {
    if n == |raw| {
      assert raw[..n] == raw;
    } else {
      var front := raw[..|raw| - 1];
      assert front[..n] == raw[..n];
      FirstsGrow(f, front, n);
    }
  }

  lemma {:induction false} FirstsSpell(f: Fold, raw: seq<string>, i: nat)
    requires i < |raw| && Name(f, raw[i]) != ""
    ensures exists k :: 0 <= k < |Firsts(f, raw)| && f.lower(Firsts(f, raw)[k]) == f.lower(Name(f, raw[i]))
  {
    var n := |raw| - 1;
    if i < n {
      FirstsSpell(f, raw[..n], i);
      var k :| 0 <= k < |Firsts(f, raw[..n])| && f.lower(Firsts(f, raw[..n])[k]) == f.lower(Name(f, raw[i]));
      assert Firsts(f, raw)[k] == Firsts(f, raw[..n])[k];
    } else if IsFirst(f, raw, n) {
      assert Firsts(f, raw)[|Firsts(f, raw[..n])|] == Name(f, raw[n]);
    } else {
      var j :| 0 <= j < n && Name(f, raw[j]) != "" && f.lower(Name(f, raw[j])) == f.lower(Name(f, raw[n]));
      FirstsSpell(f, raw[..n], j);
      var k :| 0 <= k < |Firsts(f, raw[..n])| && f.lower(Firsts(f, raw[..n])[k]) == f.lower(Name(f, raw[..n][j]));
      assert Firsts(f, raw)[k] == Firsts(f, raw[..n])[k];
    }
  }

  /**
   No city is lost: by the time an entry has been read, its city is in the list under some spelling, and
   what comes later is only added behind.
   */
  lemma NoCityIsLost(f: Fold, raw: seq<string>, i: nat)
    requires i < |raw| && Trim(raw[i], f.space) != ""
    ensures var list := Firsts(f, raw[..i + 1]);
            exists k :: 0 <= k < |list| && f.lower(list[k]) == f.lower(Trim(raw[i], f.space))
    ensures Firsts(f, raw[..i + 1]) <= Firsts(f, raw)
  {
    FirstsSpell(f, raw[..i + 1], i);
    FirstsGrow(f, raw, i + 1);
  }
}
