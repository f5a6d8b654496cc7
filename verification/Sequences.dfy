/** Order-preserving selection and small sequence facts shared by the other modules. */
module Sequences {

  /** The elements of `s` that satisfy `p`, in their original order. */
  function Select<T>(s: seq<T>, p: T -> bool): (r: seq<T>)
    ensures |r| <= |s|
  {
    if s == [] then []
    else
      var rest := Select(s[..|s| - 1], p);
      if p(s[|s| - 1]) then rest + [s[|s| - 1]] else rest
  }

  /** A selection holds only elements of the sequence, and only ones that satisfy the predicate. */
  lemma {:induction false} SelectSubset<T>(s: seq<T>, p: T -> bool)
    ensures forall x :: x in Select(s, p) ==> x in s && p(x)
  {
    if s != [] {
      SelectSubset(s[..|s| - 1], p);
    }
  }

  /** Selecting from an extended sequence. */
  lemma SelectAppend<T>(s: seq<T>, x: T, p: T -> bool)
    ensures Select(s + [x], p) == if p(x) then Select(s, p) + [x] else Select(s, p)
  {
    assert (s + [x])[..|s|] == s;
  }

  lemma SelectNext<T>(s: seq<T>, j: nat, p: T -> bool)
    requires j < |s|
    ensures Select(s[..j + 1], p) == if p(s[j]) then Select(s[..j], p) + [s[j]] else Select(s[..j], p)
  {
    assert s[..j + 1] == s[..j] + [s[j]];
    SelectAppend(s[..j], s[j], p);
  }

  /** A selected element stays as often as it was there, and any other goes. */
  lemma {:induction false} SelectBag<T>(s: seq<T>, p: T -> bool, x: T)
    ensures multiset(Select(s, p))[x] == if p(x) then multiset(s)[x] else 0
  {
    if s != [] {
      var n := |s| - 1;
      SelectBag(s[..n], p, x);
      assert s == s[..n] + [s[n]];
    }
  }

  /** Selection splits over concatenation. */
  lemma {:induction false} SelectConcat<T>(a: seq<T>, b: seq<T>, p: T -> bool)
    ensures Select(a + b, p) == Select(a, p) + Select(b, p)
  {
    if b == [] {
      assert a + b == a;
    } else {
      var b', x := b[..|b| - 1], b[|b| - 1];
      var tail := if p(x) then [x] else [];
      calc {
        Select(a + b, p);
        { assert a + b == a + b' + [x]; SelectAppend(a + b', x, p); }
        Select(a + b', p) + tail;
        { SelectConcat(a, b', p); }
        Select(a, p) + Select(b', p) + tail;
        Select(a, p) + (Select(b', p) + tail);
      }
    }
  }

  /** Two predicates that agree on the elements of `s` select the same subsequence. */
  lemma {:induction false} SelectAgree<T>(s: seq<T>, p: T -> bool, q: T -> bool)
    requires forall x :: x in s ==> p(x) == q(x)
    ensures Select(s, p) == Select(s, q)
  {
    if s != [] {
      SelectAgree(s[..|s| - 1], p, q);
    }
  }

  /** Selecting twice is selecting once by the conjunction, stated through a third predicate. */
  lemma {:induction false} SelectTwice<T>(s: seq<T>, p: T -> bool, q: T -> bool, pq: T -> bool)
    requires forall x :: x in s ==> pq(x) == (p(x) && q(x))
    ensures Select(Select(s, p), q) == Select(s, pq)
  {
    if s != [] {
      var n := |s| - 1;
      SelectTwice(s[..n], p, q, pq);
      SelectAppend(Select(s[..n], p), s[n], q);
    }
  }

  /** A selection is empty exactly when no element satisfies the predicate. */
  lemma {:induction false} SelectEmpty<T>(s: seq<T>, p: T -> bool)
    ensures Select(s, p) == [] <==> forall x :: x in s ==> !p(x)
  {
    if s != [] {
      var n := |s| - 1;
      SelectEmpty(s[..n], p);
      assert s == s[..n] + [s[n]];
    }
  }

  /** Membership in a selection. */
  lemma {:induction false} SelectMember<T>(s: seq<T>, p: T -> bool, x: T)
    ensures x in Select(s, p) <==> x in s && p(x)
  {
    if s != [] {
      var n := |s| - 1;
      SelectMember(s[..n], p, x);
      assert s == s[..n] + [s[n]];
    }
  }

  /** Selecting everything. */
  lemma {:induction false} SelectAll<T>(s: seq<T>, p: T -> bool)
    requires forall x :: x in s ==> p(x)
    ensures Select(s, p) == s
  {
    if s != [] {
      var n := |s| - 1;
      SelectAll(s[..n], p);
      assert s == s[..n] + [s[n]];
    }
  }

  /** A predicate and its complement split a sequence as a multiset. */
  lemma {:induction false} SelectPartition<T>(s: seq<T>, p: T -> bool, q: T -> bool)
    requires forall x :: x in s ==> q(x) == !p(x)
    ensures multiset(Select(s, p)) + multiset(Select(s, q)) == multiset(s)
  {
    if s != [] {
      var n := |s| - 1;
      SelectPartition(s[..n], p, q);
      assert s == s[..n] + [s[n]];
    }
  }

  /** A subset is no larger, and equally large only if it is the whole set. */
  lemma SubsetSize<T>(a: set<T>, b: set<T>)
    requires a <= b
    ensures |a| <= |b|
    ensures |a| == |b| ==> a == b
  {
    assert b == a + (b - a);
    assert |b| == |a| + |b - a|;
  }

  lemma NonEmpty(s: set<int>)
    ensures s == {} || exists x :: x in s
  {
    if forall x :: x !in s {
      assert s == {};
    }
  }

  // ----- slices

  lemma {:induction false} SliceJoin<T>(s: seq<T>, a: nat, b: nat, c: nat)
    requires a <= b <= c <= |s|
    ensures s[a..b] + s[b..c] == s[a..c]
  {
  }

  lemma {:induction false} Adjacent<T>(s: seq<T>, a: nat, b: nat, c: nat, d: nat)
    requires a <= b <= c <= d <= |s|
    ensures s[a..b] + s[b..c] + s[c..d] == s[a..d]
  {
  }

  lemma {:induction false} Assoc<T>(a: seq<T>, b: seq<T>, c: seq<T>)
    ensures a + b + c == a + (b + c)
  {
  }

  lemma {:induction false} Regroup<T>(a: seq<T>, b: seq<T>, c: seq<T>, d: seq<T>)
    ensures a + b + c + d == a + b + (c + d)
  {
  }

  lemma {:induction false} Nested<T>(a: seq<T>, b: seq<T>, c: seq<T>, d: seq<T>, e: seq<T>)
    ensures a + b + (c + d + e) == a + b + c + d + e
  {
  }

  lemma {:induction false} Flat<T>(a: seq<T>, b: seq<T>, c: seq<T>, d: seq<T>, e: seq<T>)
    ensures a + b + (c + d + e) == a + (b + c) + (d + e)
    ensures a + b + c + d + e == a + (b + c) + (d + e)
  {
  }

  /** A slice with its first and last element. */
  lemma {:induction false} Wraps<T>(s: seq<T>, a: nat, b: nat)
    requires a < b < |s|
    ensures s[a..b + 1] == [s[a]] + s[a + 1..b] + [s[b]]
  {
  }

  lemma {:induction false} Slice<T>(s: seq<T>, pos: nat, r: seq<T>, from: nat, to: nat)
    requires pos + |r| <= |s| && s[pos..pos + |r|] == r && from <= to <= |r|
    ensures s[pos + from..pos + to] == r[from..to]
  {
    forall k | 0 <= k < to - from ensures s[pos + from..pos + to][k] == r[from..to][k] {
      assert s[pos..pos + |r|][from + k] == s[pos + from + k];
    }
  }

  /** The three parts of a slice. */
  lemma {:induction false} Slices<T>(s: seq<T>, pos: nat, a: seq<T>, b: seq<T>, c: seq<T>)
    requires pos + |a + b + c| <= |s| && s[pos..pos + |a + b + c|] == a + b + c
    ensures s[pos..pos + |a|] == a && s[pos + |a|..pos + |a| + |b|] == b
    ensures s[pos + |a| + |b|..pos + |a| + |b| + |c|] == c
  {
    var all := a + b + c;
    assert all[0..|a|] == a && all[|a|..|a| + |b|] == b && all[|a| + |b|..|all|] == c;
    Slice(s, pos, all, 0, |a|);
    Slice(s, pos, all, |a|, |a| + |b|);
    Slice(s, pos, all, |a| + |b|, |all|);
  }

  lemma {:induction false} Wrapped<T>(s: seq<T>, pos: nat, end: nat, x: T, b: seq<T>, y: T)
    requires pos <= end <= |s| && s[pos..end] == [x] + b + [y]
    ensures pos + 1 < end && s[pos] == x && s[end - 1] == y && s[pos + 1..end - 1] == b
  {
    assert s[pos..end][0] == s[pos] && s[pos..end][end - 1 - pos] == s[end - 1];
    Slices(s, pos, [x], b, [y]);
  }

  lemma {:induction false} BagConcat<T>(a: seq<T>, b: seq<T>)
    ensures multiset(a + b) == multiset(a) + multiset(b)
  {
  }
}
