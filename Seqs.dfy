/** Order-preserving selection over sequences: the model of JavaScript's `Array.prototype.filter`. */
module Seqs {

  /** The elements of `s` satisfying `p`, in their original order. */
  function Filter<T(!new)>(s: seq<T>, p: T -> bool): (r: seq<T>)
    ensures |r| <= |s|
    ensures forall x :: x in r <==> x in s && p(x)
  {
    if s == [] then []
    else if p(s[0]) then [s[0]] + Filter(s[1..], p)
    else Filter(s[1..], p)
  }

  /** Every passing element is kept as often as it occurs in `s`, and no other element is kept. */
  lemma {:induction false} FilterCounts<T(!new)>(s: seq<T>, p: T -> bool)
    ensures forall x :: multiset(Filter(s, p))[x] == if p(x) then multiset(s)[x] else 0
  {
    if s != [] {
      FilterCounts(s[1..], p);
      assert s == [s[0]] + s[1..];
    }
  }

  /** `idx` lists, strictly increasing, positions of `b` at which the elements of `a` sit. */
  ghost predicate Embeds<T>(a: seq<T>, b: seq<T>, idx: seq<nat>)
  {
    && |idx| == |a|
    && (forall i :: 0 <= i < |idx| ==> idx[i] < |b| && a[i] == b[idx[i]])
    && (forall i, j :: 0 <= i < j < |idx| ==> idx[i] < idx[j])
  }

  /** `a` is obtained from `b` by deleting elements, keeping the others in order. */
  ghost predicate IsSubsequence<T>(a: seq<T>, b: seq<T>)
  {
    exists idx :: Embeds(a, b, idx)
  }

  /** Shifts every position of an embedding into `b` by one, so that it embeds into `[x] + b`. */
  function Shift(idx: seq<nat>): (r: seq<nat>)
    ensures |r| == |idx|
    ensures forall i :: 0 <= i < |idx| ==> r[i] == idx[i] + 1
  {
    seq(|idx|, i requires 0 <= i < |idx| => idx[i] + 1)
  }

  /** An embedding survives putting one more element in front of `b`. */
  lemma EmbedsSkip<T>(x: T, a: seq<T>, b: seq<T>, idx: seq<nat>)
    requires Embeds(a, b, idx)
    ensures Embeds(a, [x] + b, Shift(idx))
  {
    var shifted := Shift(idx);
    forall i | 0 <= i < |shifted|
      ensures shifted[i] < |[x] + b| && a[i] == ([x] + b)[shifted[i]]
    {
      assert ([x] + b)[idx[i] + 1] == b[idx[i]];
    }
  }

  /** An embedding extends by matching a common first element. */
  lemma EmbedsCons<T>(x: T, a: seq<T>, b: seq<T>, idx: seq<nat>)
    requires Embeds(a, b, idx)
    ensures Embeds([x] + a, [x] + b, [0] + Shift(idx))
  {
    EmbedsSkip(x, a, b, idx);
    var full := [0] + Shift(idx);
    forall i | 0 < i < |full|
      ensures full[i] < |[x] + b| && ([x] + a)[i] == ([x] + b)[full[i]]
    {
      assert ([x] + a)[i] == a[i - 1];
    }
  }

  /** The positions kept by `Filter`, as an explicit embedding. */
  lemma {:induction false} FilterEmbedding<T(!new)>(s: seq<T>, p: T -> bool) returns (idx: seq<nat>)
    ensures Embeds(Filter(s, p), s, idx)
  {
    if s == [] {
      idx := [];
    } else {
      var tail := FilterEmbedding(s[1..], p);
      assert s == [s[0]] + s[1..];
      if p(s[0]) {
        EmbedsCons(s[0], Filter(s[1..], p), s[1..], tail);
        idx := [0] + Shift(tail);
      } else {
        EmbedsSkip(s[0], Filter(s[1..], p), s[1..], tail);
        idx := Shift(tail);
      }
    }
  }

  /** The filter result is an order-preserving subsequence of its input. */
  lemma FilterIsSubsequence<T(!new)>(s: seq<T>, p: T -> bool)
    ensures IsSubsequence(Filter(s, p), s)
  {
    var idx := FilterEmbedding(s, p);
  }

  /** When every element passes, filtering changes nothing. */
  lemma {:induction false} FilterKeepsAll<T(!new)>(s: seq<T>, p: T -> bool)
    requires forall x :: x in s ==> p(x)
    ensures Filter(s, p) == s
  {
    if s != [] {
      assert s[0] in s;
      assert forall x :: x in s[1..] ==> x in s;
      FilterKeepsAll(s[1..], p);
    }
  }

  /** Filters with pointwise-equal predicates agree. */
  lemma {:induction false} FilterExtensional<T(!new)>(s: seq<T>, p: T -> bool, q: T -> bool)
    requires forall x :: p(x) == q(x)
    ensures Filter(s, p) == Filter(s, q)
  {
    if s != [] {
      FilterExtensional(s[1..], p, q);
    }
  }

  /** Filtering by `p` and then by `q` is filtering once by their conjunction. */
  lemma {:induction false} FilterFilter<T(!new)>(s: seq<T>, p: T -> bool, q: T -> bool, pq: T -> bool)
    requires forall x :: pq(x) == (p(x) && q(x))
    ensures Filter(Filter(s, p), q) == Filter(s, pq)
  {
    if s != [] {
      FilterFilter(s[1..], p, q, pq);
    }
  }

  /** Two filters commute. */
  lemma FilterCommutes<T(!new)>(s: seq<T>, p: T -> bool, q: T -> bool)
    ensures Filter(Filter(s, p), q) == Filter(Filter(s, q), p)
  {
    var pq := x => p(x) && q(x);
    FilterFilter(s, p, q, pq);
    FilterFilter(s, q, p, pq);
  }

  /** A predicate and its negation split the sequence: their two counts add up to its length. */
  lemma {:induction false} FilterComplement<T(!new)>(s: seq<T>, p: T -> bool, q: T -> bool)
    requires forall x :: q(x) == !p(x)
    ensures |Filter(s, p)| + |Filter(s, q)| == |s|
  {
    if s != [] {
      FilterComplement(s[1..], p, q);
    }
  }

  /** Filtering distributes over concatenation; in particular a prepended element is kept or dropped alone. */
  lemma {:induction false} FilterAppend<T(!new)>(a: seq<T>, b: seq<T>, p: T -> bool)
    ensures Filter(a + b, p) == Filter(a, p) + Filter(b, p)
  {
    if a == [] {
      assert a + b == b;
    } else {
      assert (a + b)[1..] == a[1..] + b;
      FilterAppend(a[1..], b, p);
    }
  }
}
