/**
 * Python's `sorted(items, key=..., reverse=...)`: a stable sort.  Items with
 * equal keys keep their input order, also when `reverse=True`.  The model is
 * an insertion sort; what the report generator relies on is stated in
 * `SortIsSorted`, `SortIsPermutation` and `SortIsStable`.
 */
module StableSort {

  /** `reverse=True` (best first for higher-is-better metrics) or the default. */
  datatype Order = Descending | Ascending

  /** A key `a` may stand before a key `b` in a list sorted in order `o`. */
  predicate Precedes(a: real, b: real, o: Order) {
    match o
    case Descending => a >= b
    case Ascending => a <= b
  }

  ghost predicate Sorted<T>(s: seq<T>, key: T -> real, o: Order) {
    forall i, j :: 0 <= i < j < |s| ==> Precedes(key(s[i]), key(s[j]), o)
  }

  /** The elements of `s` whose key is `v`, in their order in `s`. */
  function Filter<T>(s: seq<T>, key: T -> real, v: real): seq<T> {
    if s == [] then []
    else (if key(s[0]) == v then [s[0]] else []) + Filter(s[1..], key, v)
  }

  /** Among equal keys `output` keeps the order of `input`. */
  ghost predicate Stable<T>(input: seq<T>, output: seq<T>, key: T -> real) {
    forall v :: Filter(output, key, v) == Filter(input, key, v)
  }

  /** Puts `x` in front of the first element it may precede. */
  function Insert<T>(x: T, s: seq<T>, key: T -> real, o: Order): seq<T> {
    if s == [] then [x]
    else if Precedes(key(x), key(s[0]), o) then [x] + s
    else [s[0]] + Insert(x, s[1..], key, o)
  }

  function Sort<T>(xs: seq<T>, key: T -> real, o: Order): seq<T> {
    if xs == [] then [] else Insert(xs[0], Sort(xs[1..], key, o), key, o)
  }

  lemma {:induction false} InsertIsPermutation<T>(x: T, s: seq<T>, key: T -> real, o: Order)
    ensures multiset(Insert(x, s, key, o)) == multiset(s) + multiset{x}
  {
    if s != [] && !Precedes(key(x), key(s[0]), o) {
      InsertIsPermutation(x, s[1..], key, o);
      assert s == [s[0]] + s[1..];
    }
  }

  lemma {:induction false} InsertIsSorted<T>(x: T, s: seq<T>, key: T -> real, o: Order)
    requires Sorted(s, key, o)
    ensures Sorted(Insert(x, s, key, o), key, o)
  {
    if s != [] && !Precedes(key(x), key(s[0]), o) {
      var rest := Insert(x, s[1..], key, o);
      InsertIsSorted(x, s[1..], key, o);
      InsertIsPermutation(x, s[1..], key, o);
      forall j | 0 <= j < |rest|
        ensures Precedes(key(s[0]), key(rest[j]), o)
      {
        assert rest[j] in multiset(rest);
        assert rest[j] == x || rest[j] in multiset(s[1..]);
      }
    }
  }

  lemma {:induction false} InsertFilter<T>(x: T, s: seq<T>, key: T -> real, o: Order, v: real)
    ensures Filter(Insert(x, s, key, o), key, v)
         == (if key(x) == v then [x] else []) + Filter(s, key, v)
  {
    if s == [] {
      assert Filter([x], key, v) == (if key(x) == v then [x] else []) + Filter([], key, v);
    } else if Precedes(key(x), key(s[0]), o) {
      assert ([x] + s)[1..] == s;
    } else {
      // x goes behind s[0] only when their keys differ, so at most one of them is kept.
      InsertFilter(x, s[1..], key, o, v);
      assert ([s[0]] + Insert(x, s[1..], key, o))[1..] == Insert(x, s[1..], key, o);
    }
  }

  lemma {:induction false} SortIsPermutation<T>(xs: seq<T>, key: T -> real, o: Order)
    ensures multiset(Sort(xs, key, o)) == multiset(xs)
  {
    if xs != [] {
      SortIsPermutation(xs[1..], key, o);
      InsertIsPermutation(xs[0], Sort(xs[1..], key, o), key, o);
      assert xs == [xs[0]] + xs[1..];
    }
  }

  lemma {:induction false} SortIsSorted<T>(xs: seq<T>, key: T -> real, o: Order)
    ensures Sorted(Sort(xs, key, o), key, o)
  {
    if xs != [] {
      SortIsSorted(xs[1..], key, o);
      InsertIsSorted(xs[0], Sort(xs[1..], key, o), key, o);
    }
  }

  lemma {:induction false} SortIsStable<T>(xs: seq<T>, key: T -> real, o: Order)
    ensures Stable(xs, Sort(xs, key, o), key)
  {
    if xs != [] {
      SortIsStable(xs[1..], key, o);
      forall v ensures Filter(Sort(xs, key, o), key, v) == Filter(xs, key, v) {
        InsertFilter(xs[0], Sort(xs[1..], key, o), key, o, v);
      }
    }
  }

  /** Sorting changes neither the length nor the elements, only their order. */
  lemma SortPreservesElements<T>(xs: seq<T>, key: T -> real, o: Order)
    ensures |Sort(xs, key, o)| == |xs|
    ensures forall y :: y in Sort(xs, key, o) <==> y in xs
  {
    SortIsPermutation(xs, key, o);
    var r := Sort(xs, key, o);
    assert |r| == |multiset(r)| == |multiset(xs)| == |xs|;
    forall y ensures y in r <==> y in xs {
      assert y in r <==> y in multiset(r);
      assert y in xs <==> y in multiset(xs);
    }
  }
}
