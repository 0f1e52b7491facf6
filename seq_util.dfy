/**
 * `Array.prototype.filter` and the facts about it that the front-end's
 * list updates rely on: the result is an order-preserving subsequence, it
 * holds exactly the kept elements, and it keeps every occurrence of them.
 */
module SeqUtil {

  /** `s.filter(keep)`. */
  function Filter<T>(keep: T -> bool, s: seq<T>): (r: seq<T>)
    ensures |r| <= |s|
    ensures forall i :: 0 <= i < |r| ==> keep(r[i]) && r[i] in s
    ensures forall i :: 0 <= i < |s| && keep(s[i]) ==> s[i] in r
  {
    if s == [] then []
    else if keep(s[0]) then [s[0]] + Filter(keep, s[1..])
    else Filter(keep, s[1..])
  }

  /** `x` can be obtained from `y` by deleting elements, keeping the order of the rest. */
  predicate IsSubseq<T(==)>(x: seq<T>, y: seq<T>)
    decreases |y|
  {
    if x == [] then true
    else if y == [] then false
    else if x[0] == y[0] then IsSubseq(x[1..], y[1..])
    else IsSubseq(x, y[1..])
  }

  lemma {:induction false} SubseqRefl<T>(x: seq<T>)
    ensures IsSubseq(x, x)
  {
    if x != [] {
      SubseqRefl(x[1..]);
    }
  }

  /** Putting more elements in front of the longer sequence keeps the relation. */
  lemma {:induction false} SubseqPrepend<T>(x: seq<T>, z: seq<T>, y: seq<T>)
    requires IsSubseq(x, y)
    ensures IsSubseq(x, z + y)
    decreases |z|
  {
    if z == [] {
      assert z + y == y;
    } else {
      SubseqPrepend(x, z[1..], y);
      SubseqSkipFront(x, z[0], z[1..] + y);
      assert [z[0]] + (z[1..] + y) == z + y;
    }
  }

  /** One more element in front of the longer sequence keeps the relation. */
  lemma {:induction false} SubseqSkipFront<T>(x: seq<T>, e: T, y: seq<T>)
    requires IsSubseq(x, y)
    ensures IsSubseq(x, [e] + y)
    decreases |y|, 1
  {
    assert ([e] + y)[1..] == y;
    if x != [] && x[0] == e {
      SubseqTail(x, y);
    }
  }

  /** Dropping the first element of the shorter sequence keeps the relation. */
  lemma {:induction false} SubseqTail<T>(x: seq<T>, y: seq<T>)
    requires x != [] && IsSubseq(x, y)
    ensures IsSubseq(x[1..], y)
    decreases |y|, 0
  {
    assert [y[0]] + y[1..] == y;
    if x[0] == y[0] {
      SubseqSkipFront(x[1..], y[0], y[1..]);
    } else {
      SubseqTail(x, y[1..]);
      SubseqSkipFront(x[1..], y[0], y[1..]);
    }
  }

  /** Subsequences concatenate. */
  lemma {:induction false} SubseqConcat<T>(a: seq<T>, b: seq<T>, c: seq<T>, d: seq<T>)
    requires IsSubseq(a, b) && IsSubseq(c, d)
    ensures IsSubseq(a + c, b + d)
    decreases |b|
  {
    if b == [] {
      assert a == [];
      assert a + c == c && b + d == d;
    } else if a == [] {
      SubseqPrepend(c, b, d);
      assert a + c == c;
    } else if a[0] == b[0] {
      SubseqConcat(a[1..], b[1..], c, d);
      assert (a + c)[1..] == a[1..] + c;
      assert (b + d)[1..] == b[1..] + d;
    } else {
      SubseqConcat(a, b[1..], c, d);
      assert (b + d)[1..] == b[1..] + d;
    }
  }

  /** A filtered sequence keeps its elements in their original order. */
  lemma {:induction false} FilterIsSubseq<T>(keep: T -> bool, s: seq<T>)
    ensures IsSubseq(Filter(keep, s), s)
  {
    if s != [] {
      FilterIsSubseq(keep, s[1..]);
      if !keep(s[0]) {
        SubseqSkipFront(Filter(keep, s[1..]), s[0], s[1..]);
        assert [s[0]] + s[1..] == s;
      }
    }
  }

  /** Filtering with a test every element passes changes nothing. */
  lemma {:induction false} FilterAllKept<T>(keep: T -> bool, s: seq<T>)
    requires forall i :: 0 <= i < |s| ==> keep(s[i])
    ensures Filter(keep, s) == s
  {
    if s != [] {
      FilterAllKept(keep, s[1..]);
    }
  }

  /** Filtering distributes over concatenation. */
  lemma {:induction false} FilterAppend<T>(keep: T -> bool, a: seq<T>, b: seq<T>)
    ensures Filter(keep, a + b) == Filter(keep, a) + Filter(keep, b)
  {
    if a == [] {
      assert a + b == b;
    } else {
      assert (a + b)[1..] == a[1..] + b;
      FilterAppend(keep, a[1..], b);
    }
  }

  /** Filtering with a test no element passes leaves nothing. */
  lemma {:induction false} FilterNoneKept<T>(keep: T -> bool, s: seq<T>)
    requires forall i :: 0 <= i < |s| ==> !keep(s[i])
    ensures Filter(keep, s) == []
  {
    if s != [] {
      FilterNoneKept(keep, s[1..]);
    }
  }

  /** Filtering keeps the multiplicity of each kept element and drops the others. */
  lemma {:induction false} FilterMultiset<T>(keep: T -> bool, s: seq<T>, x: T)
    ensures multiset(Filter(keep, s))[x] == if keep(x) then multiset(s)[x] else 0
  {
    if s != [] {
      FilterMultiset(keep, s[1..], x);
      assert s == [s[0]] + s[1..];
    }
  }
}
