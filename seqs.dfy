/** Sequence helpers: the model of JavaScript's `Array.prototype.filter`. */
module Seqs {

  /** `r` occurs in `s` in the same order, possibly with gaps (greedy matching). */
  predicate IsSubseq<T(==,!new)>(r: seq<T>, s: seq<T>)
    decreases |s|
  {
    r == [] || (s != [] && if r[0] == s[0] then IsSubseq(r[1..], s[1..]) else IsSubseq(r, s[1..]))
  }

  /** `s.filter(p)`: the elements of `s` that satisfy `p`, in their original order. */
  function Filter<T(==,!new)>(p: T -> bool, s: seq<T>): (r: seq<T>)
    ensures |r| <= |s|
    ensures forall x {:trigger x in r} :: x in r <==> x in s && p(x)
    decreases |s|
  {
    if s == [] then []
    else
      assert s == [s[0]] + s[1..];
      var rest := Filter(p, s[1..]);
      if p(s[0]) then [s[0]] + rest else rest
  }

  /** The kept elements appear in the input in the same order. */
  lemma {:induction false} FilterIsSubseq<T(!new)>(p: T -> bool, s: seq<T>)
    ensures IsSubseq(Filter(p, s), s)
    decreases |s|
  {
    if s != [] {
      var r := Filter(p, s);
      FilterCons(p, s[0], s[1..]);
      assert s == [s[0]] + s[1..];
      FilterIsSubseq(p, s[1..]);
      if r != [] {
        assert r[0] in r;
      }
    }
  }

  lemma {:induction false} IsSubseqRefl<T(!new)>(s: seq<T>)
    ensures IsSubseq(s, s)
    decreases |s|
  {
    if s != [] {
      IsSubseqRefl(s[1..]);
    }
  }

  /** Each element kept occurs as often as in the input; each element dropped does not occur. */
  lemma {:induction false} FilterMultiset<T(!new)>(p: T -> bool, s: seq<T>)
    ensures forall x :: multiset(Filter(p, s))[x] == if p(x) then multiset(s)[x] else 0
    decreases |s|
  {
    if s != [] {
      assert s == [s[0]] + s[1..];
      FilterCons(p, s[0], s[1..]);
      FilterMultiset(p, s[1..]);
    }
  }

  lemma {:induction false} FilterCons<T(!new)>(p: T -> bool, x: T, s: seq<T>)
    ensures Filter(p, [x] + s) == (if p(x) then [x] else []) + Filter(p, s)
  {
    assert ([x] + s)[0] == x && ([x] + s)[1..] == s;
  }

  /** Filtering distributes over concatenation: the order of the kept elements is that of the input. */
  lemma {:induction false} FilterAppend<T(!new)>(p: T -> bool, a: seq<T>, b: seq<T>)
    ensures Filter(p, a + b) == Filter(p, a) + Filter(p, b)
    decreases |a|
  {
    if a == [] {
      assert a + b == b;
    } else {
      var x, a' := a[0], a[1..];
      var h := if p(x) then [x] else [];
      calc {
        Filter(p, a + b);
        { assert a + b == [x] + (a' + b); FilterCons(p, x, a' + b); }
        h + Filter(p, a' + b);
        { FilterAppend(p, a', b); }
        h + (Filter(p, a') + Filter(p, b));
        (h + Filter(p, a')) + Filter(p, b);
        { assert a == [x] + a'; FilterCons(p, x, a'); }
        Filter(p, a) + Filter(p, b);
      }
    }
  }

  /** A filter that every element passes returns its input unchanged. */
  lemma {:induction false} FilterKeepsAll<T(!new)>(p: T -> bool, s: seq<T>)
    requires forall x :: x in s ==> p(x)
    ensures Filter(p, s) == s
    decreases |s|
  {
    if s != [] {
      assert s == [s[0]] + s[1..];
      FilterCons(p, s[0], s[1..]);
      FilterKeepsAll(p, s[1..]);
    }
  }

  /** A filter that rejects some element of `s` returns a shorter sequence. */
  lemma {:induction false} FilterShrinks<T(!new)>(p: T -> bool, s: seq<T>, x: T)
    requires x in s && !p(x)
    ensures |Filter(p, s)| < |s|
    decreases |s|
  {
    assert s == [s[0]] + s[1..];
    FilterCons(p, s[0], s[1..]);
    if s[0] != x {
      FilterShrinks(p, s[1..], x);
    }
  }

  /** Filtering twice by the same predicate is filtering once. */
  lemma {:induction false} FilterIdempotent<T(!new)>(p: T -> bool, s: seq<T>)
    ensures Filter(p, Filter(p, s)) == Filter(p, s)
  {
    FilterKeepsAll(p, Filter(p, s));
  }

  /** Two filters whose predicates never both hold on an element of `s` select at most `|s|` elements together. */
  lemma {:induction false} FilterExclusiveCount<T(!new)>(p: T -> bool, q: T -> bool, s: seq<T>)
    requires forall x :: x in s ==> !(p(x) && q(x))
    ensures |Filter(p, s)| + |Filter(q, s)| <= |s|
    decreases |s|
  {
    if s != [] {
      assert s == [s[0]] + s[1..];
      FilterCons(p, s[0], s[1..]);
      FilterCons(q, s[0], s[1..]);
      FilterExclusiveCount(p, q, s[1..]);
    }
  }
}
