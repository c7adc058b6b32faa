/** The order in which policy symbols sort: by name, comparing names as
    Python compares strings (code point by code point, a proper prefix
    first), and `sorted()` over a sequence of names. */
module NameOrder {

  /** `a <= b` on Python strings. */
  predicate NameLe(a: string, b: string)
  {
    if a == [] then true
    else if b == [] then false
    else if a[0] != b[0] then a[0] < b[0]
    else NameLe(a[1..], b[1..])
  }

  lemma {:induction false} NameLeReflexive(a: string)
    ensures NameLe(a, a)
  {
    if a != [] {
      NameLeReflexive(a[1..]);
    }
  }

  lemma {:induction false} NameLeTotal(a: string, b: string)
    ensures NameLe(a, b) || NameLe(b, a)
  {
    if a != [] && b != [] && a[0] == b[0] {
      NameLeTotal(a[1..], b[1..]);
    }
  }

  lemma {:induction false} NameLeTransitive(a: string, b: string, c: string)
    requires NameLe(a, b) && NameLe(b, c)
    ensures NameLe(a, c)
  {
    if a != [] && b != [] && c != [] && a[0] == b[0] && b[0] == c[0] {
      NameLeTransitive(a[1..], b[1..], c[1..]);
    }
  }

  lemma {:induction false} NameLeAntisymmetric(a: string, b: string)
    requires NameLe(a, b) && NameLe(b, a)
    ensures a == b
  {
    if a != [] && b != [] {
      NameLeAntisymmetric(a[1..], b[1..]);
      assert a == [a[0]] + a[1..] && b == [b[0]] + b[1..];
    }
  }

  /** Every name is in order with every later one. */
  predicate IsSorted(s: seq<string>)
  {
    forall i, j :: 0 <= i < j < |s| ==> NameLe(s[i], s[j])
  }

  /** `x` placed into the sorted sequence `s` before the first name it
      does not follow. */
  function Insert(s: seq<string>, x: string): (r: seq<string>)
    requires IsSorted(s)
    ensures IsSorted(r)
    ensures multiset(r) == multiset(s) + multiset{x}
  {
    if s == [] then [x]
    else if NameLe(x, s[0]) then
      assert forall j :: 0 <= j < |s| ==> NameLe(x, s[j]) by {
        forall j | 0 <= j < |s| ensures NameLe(x, s[j]) {
          if j > 0 { NameLeTransitive(x, s[0], s[j]); }
        }
      }
      [x] + s
    else
      var tail := Insert(s[1..], x);
      NameLeTotal(x, s[0]);
      assert s == [s[0]] + s[1..];
      assert forall y :: y in tail ==> NameLe(s[0], y) by {
        forall y | y in tail ensures NameLe(s[0], y) {
          assert y in multiset(tail);
        }
      }
      [s[0]] + tail
  }

  /** Python's `sorted()` of a sequence of names: the same names, each as
      often, in order. */
  function Sort(xs: seq<string>): (r: seq<string>)
    ensures IsSorted(r)
    ensures multiset(r) == multiset(xs)
  {
    if xs == [] then []
    else
      assert xs == xs[..|xs| - 1] + [xs[|xs| - 1]];
      Insert(Sort(xs[..|xs| - 1]), xs[|xs| - 1])
  }

  /** The multiset of a non-empty sequence without its first element. */
  lemma MultisetTail(s: seq<string>)
    requires s != []
    ensures multiset(s[1..]) == multiset(s) - multiset{s[0]}
  {
    assert s == [s[0]] + s[1..];
  }

  /** Two sorted sequences of the same names start with the same name. */
  lemma SortedHeadsEqual(r: seq<string>, s: seq<string>)
    requires IsSorted(r) && IsSorted(s)
    requires multiset(r) == multiset(s) && r != []
    ensures s != [] && r[0] == s[0]
  {
    assert r[0] in multiset(s);
    var i :| 0 <= i < |s| && s[i] == r[0];
    assert s[0] in multiset(r);
    var j :| 0 <= j < |r| && r[j] == s[0];
    NameLeReflexive(r[0]);
    assert NameLe(s[0], r[0]) by { if i > 0 { assert NameLe(s[0], s[i]); } }
    assert NameLe(r[0], s[0]) by { if j > 0 { assert NameLe(r[0], r[j]); } }
    NameLeAntisymmetric(r[0], s[0]);
  }

  /** There is only one sorted arrangement of a multiset of names, so any
      sorted permutation is the one `sorted()` returns. */
  lemma {:induction false} SortedUnique(r: seq<string>, s: seq<string>)
    requires IsSorted(r) && IsSorted(s)
    requires multiset(r) == multiset(s)
    ensures r == s
  {
    if r == [] {
      assert |multiset(s)| == 0;
    } else {
      SortedHeadsEqual(r, s);
      MultisetTail(r);
      MultisetTail(s);
      SortedUnique(r[1..], s[1..]);
      assert r == [r[0]] + r[1..] && s == [s[0]] + s[1..];
    }
  }
}
