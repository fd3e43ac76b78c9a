/** The per-day lookups of the dashboard: `filter`, `some` and `find` over a
    record list, matching a record when its `date` string equals the key
    exactly. `dateOf` selects the record's date field. */
module Lookup {
  import opened Types

  /** `xs.filter(x => x.date === s)`. */
  function FilterDate<T(==,!new)>(xs: seq<T>, dateOf: T -> string, s: string): (r: seq<T>)
    ensures forall i :: 0 <= i < |r| ==> dateOf(r[i]) == s
    ensures forall x :: multiset(r)[x] == if dateOf(x) == s then multiset(xs)[x] else 0
  {
    if xs == [] then []
    else
      var rest := FilterDate(xs[1..], dateOf, s);
      assert xs == [xs[0]] + xs[1..];
      if dateOf(xs[0]) == s then [xs[0]] + rest else rest
  }

  /** `xs.some(x => x.date === s)`. */
  function SomeDate<T>(xs: seq<T>, dateOf: T -> string, s: string): (b: bool)
    ensures b <==> exists i :: 0 <= i < |xs| && dateOf(xs[i]) == s
  {
    if xs == [] then false
    else dateOf(xs[0]) == s || SomeDate(xs[1..], dateOf, s)
  }

  /** Index `i` holds the first record of `xs` carrying date `s`. */
  ghost predicate FirstMatch<T>(xs: seq<T>, dateOf: T -> string, s: string, i: int) {
    0 <= i < |xs| && dateOf(xs[i]) == s && forall j :: 0 <= j < i ==> dateOf(xs[j]) != s
  }

  /** `xs.find(x => x.date === s)`: the first record carrying the date, if any. */
  function FindDate<T(==)>(xs: seq<T>, dateOf: T -> string, s: string): (r: Option<T>)
    ensures r.None? <==> forall i :: 0 <= i < |xs| ==> dateOf(xs[i]) != s
    ensures r.Some? ==> exists i :: FirstMatch(xs, dateOf, s, i) && xs[i] == r.value
  {
    if xs == [] then None
    else if dateOf(xs[0]) == s then
      assert FirstMatch(xs, dateOf, s, 0);
      Some(xs[0])
    else
      var r := FindDate(xs[1..], dateOf, s);
      if r.Some? then
        FirstMatchShift(xs, dateOf, s, r.value);
        r
      else r
  }

  lemma FirstMatchShift<T>(xs: seq<T>, dateOf: T -> string, s: string, x: T)
    requires xs != [] && dateOf(xs[0]) != s
    requires exists i :: FirstMatch(xs[1..], dateOf, s, i) && xs[1..][i] == x
    ensures exists i :: FirstMatch(xs, dateOf, s, i) && xs[i] == x
  {
    var i :| FirstMatch(xs[1..], dateOf, s, i) && xs[1..][i] == x;
    assert FirstMatch(xs, dateOf, s, i + 1);
  }

  /** Filtering keeps the original order: it distributes over concatenation. */
  lemma {:induction false} FilterConcat<T(!new)>(a: seq<T>, b: seq<T>, dateOf: T -> string, s: string)
    ensures FilterDate(a + b, dateOf, s) == FilterDate(a, dateOf, s) + FilterDate(b, dateOf, s)
  {
    if a == [] {
      assert a + b == b;
    } else {
      assert (a + b)[0] == a[0] && (a + b)[1..] == a[1..] + b;
      FilterConcat(a[1..], b, dateOf, s);
    }
  }

  /** The three lookups agree on whether a record exists for the date. */
  lemma LookupsAgree<T(!new)>(xs: seq<T>, dateOf: T -> string, s: string)
    ensures SomeDate(xs, dateOf, s) <==> FindDate(xs, dateOf, s).Some?
    ensures SomeDate(xs, dateOf, s) <==> FilterDate(xs, dateOf, s) != []
  {
    if SomeDate(xs, dateOf, s) {
      var i :| 0 <= i < |xs| && dateOf(xs[i]) == s;
      assert xs[i] in multiset(xs);
    }
  }

  /** Once the first record carries the date, `find` returns it. */
  lemma FindFirst<T>(xs: seq<T>, dateOf: T -> string, s: string)
    requires xs != [] && dateOf(xs[0]) == s
    ensures FindDate(xs, dateOf, s) == Some(xs[0])
  {
  }
}
