/** Comparing lists of cities (`sameCityLists` of frontend/src/components/banya/catalog-section.tsx). */
module CityComparison {

  /** The order of `Array.prototype.sort` on strings: by code unit. */
  predicate Leq(s: string, t: string) {
    if s == "" then true
    else if t == "" then false
    else s[0] < t[0] || (s[0] == t[0] && Leq(s[1..], t[1..]))
  }

  function InsertSorted(x: string, xs: seq<string>): seq<string> {
    if xs == [] || Leq(x, xs[0]) then [x] + xs else [xs[0]] + InsertSorted(x, xs[1..])
  }

  function SortStrings(xs: seq<string>): seq<string> {
    if xs == [] then [] else InsertSorted(xs[0], SortStrings(xs[1..]))
  }

  function Lowered(lower: string -> string, names: seq<string>): seq<string> {
    seq(|names|, i requires 0 <= i < |names| => lower(names[i]))
  }

  predicate SameCityLists(lower: string -> string, a: seq<string>, b: seq<string>) {
    |a| == |b| && SortStrings(Lowered(lower, a)) == SortStrings(Lowered(lower, b))
  }

  predicate Ascending(xs: seq<string>) {
    forall i, j :: 0 <= i < j < |xs| ==> Leq(xs[i], xs[j])
  }

  lemma {:induction false} LeqTotal(s: string, t: string)
    ensures Leq(s, t) || Leq(t, s)
    ensures Leq(s, t) && Leq(t, s) ==> s == t
  {
    if s != "" && t != "" {
      LeqTotal(s[1..], t[1..]);
      assert s == [s[0]] + s[1..] && t == [t[0]] + t[1..];
    }
  }

  lemma {:induction false} LeqTransitive(s: string, t: string, u: string)
    requires Leq(s, t) && Leq(t, u)
    ensures Leq(s, u)
  {
    if s != "" && s[0] == t[0] == u[0] {
      LeqTransitive(s[1..], t[1..], u[1..]);
    }
  }

  lemma {:induction false} InsertSortedHolds(x: string, xs: seq<string>)
    ensures multiset(InsertSorted(x, xs)) == multiset(xs) + multiset{x}
  {
    hide Leq;
    if xs != [] && !Leq(x, xs[0]) {
      InsertSortedHolds(x, xs[1..]);
      assert xs == [xs[0]] + xs[1..];
    }
  }

  /** `x` is not after any of `xs`. */
  predicate AtMost(x: string, xs: seq<string>) {
    forall i :: 0 <= i < |xs| ==> Leq(x, xs[i])
  }

  lemma AtMostInserted(y: string, x: string, xs: seq<string>)
    requires AtMost(y, xs) && Leq(y, x)
    ensures AtMost(y, InsertSorted(x, xs))
  {
    hide Leq, InsertSorted;
    var rest := InsertSorted(x, xs);
    InsertSortedHolds(x, xs);
    forall i | 0 <= i < |rest|
      ensures Leq(y, rest[i])
    {
      assert rest[i] in multiset(rest);
      assert rest[i] == x || rest[i] in xs;
    }
  }

  lemma AscendingCons(x: string, xs: seq<string>)
    requires Ascending(xs) && AtMost(x, xs)
    ensures Ascending([x] + xs)
  {
    hide Leq;
  }

  lemma {:induction false} InsertSortedSorts(x: string, xs: seq<string>)
    requires Ascending(xs)
    ensures Ascending(InsertSorted(x, xs))
  {
    if xs != [] {
      hide Leq;
      LeqTotal(x, xs[0]);
      if Leq(x, xs[0]) {
        forall i | 0 <= i < |xs|
          ensures Leq(x, xs[i])
        {
          if i > 0 {
            LeqTransitive(x, xs[0], xs[i]);
          }
        }
        AscendingCons(x, xs);
      } else {
        InsertSortedSorts(x, xs[1..]);
        AtMostInserted(xs[0], x, xs[1..]);
        AscendingCons(xs[0], InsertSorted(x, xs[1..]));
      }
    }
  }

  lemma {:induction false} SortStringsSorts(xs: seq<string>)
    ensures Ascending(SortStrings(xs)) && multiset(SortStrings(xs)) == multiset(xs)
  {
    if xs != [] {
      SortStringsSorts(xs[1..]);
      InsertSortedSorts(xs[0], SortStrings(xs[1..]));
      InsertSortedHolds(xs[0], SortStrings(xs[1..]));
      assert xs == [xs[0]] + xs[1..];
    }
  }

  lemma SameLeast(xs: seq<string>, ys: seq<string>)
    requires xs != [] && ys != [] && Ascending(xs) && Ascending(ys)
    requires xs[0] in ys && ys[0] in xs
    ensures xs[0] == ys[0]
  {
    var i :| 0 <= i < |ys| && ys[i] == xs[0];
    var j :| 0 <= j < |xs| && xs[j] == ys[0];
    if i > 0 && j > 0 {
      LeqTotal(xs[0], ys[0]);
    }
  }

  lemma TailMultiset(xs: seq<string>)
    requires xs != []
    ensures multiset(xs[1..]) == multiset(xs) - multiset{xs[0]}
  {
    assert xs == [xs[0]] + xs[1..];
  }

  lemma {:induction false} AscendingIsUnique(xs: seq<string>, ys: seq<string>)
    requires Ascending(xs) && Ascending(ys) && multiset(xs) == multiset(ys)
    ensures xs == ys
  {
    assert |xs| == |multiset(xs)| && |ys| == |multiset(ys)|;
    if xs != [] {
      assert xs[0] in multiset(ys) && ys[0] in multiset(xs);
      SameLeast(xs, ys);
      TailMultiset(xs);
      TailMultiset(ys);
      AscendingIsUnique(xs[1..], ys[1..]);
    }
  }

  /** Sorting both lists and comparing decides equality of the lower-cased names as multisets. */
  lemma SameCityListsIsMultisetEquality(lower: string -> string, a: seq<string>, b: seq<string>)
    ensures SameCityLists(lower, a, b) <==> multiset(Lowered(lower, a)) == multiset(Lowered(lower, b))
  {
    var x, y := Lowered(lower, a), Lowered(lower, b);
    SortStringsSorts(x);
    SortStringsSorts(y);
    if multiset(x) == multiset(y) {
      assert |multiset(x)| == |x| && |multiset(y)| == |y|;
      AscendingIsUnique(SortStrings(x), SortStrings(y));
    }
  }
}
