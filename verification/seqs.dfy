/** Generic sequence operations used by the list handlers: JavaScript's `indexOf`, `filter`,
    `find`, `includes`-driven removal and the first-occurrence de-duplication of `[...new Set(xs)]`. */
module Seqs {
  import opened Common

  /** `a` occurs in `b` in the same relative order (greedy matching from the left). */
  predicate IsSubsequence<T(==,!new)>(a: seq<T>, b: seq<T>)
    decreases |b|
  {
    if |a| == 0 then true
    else if |b| == 0 then false
    else if a[0] == b[0] then IsSubsequence(a[1..], b[1..])
    else IsSubsequence(a, b[1..])
  }

  /** No element occurs twice. */
  predicate NoDuplicates<T(==,!new)>(s: seq<T>)
  {
    forall i, j :: 0 <= i < j < |s| ==> s[i] != s[j]
  }

  /** `s.map(f)`: one result per element, in order. */
  function Map<A, B>(s: seq<A>, f: A -> B): (r: seq<B>)
    ensures |r| == |s|
    ensures forall i :: 0 <= i < |s| ==> r[i] == f(s[i])
  {
    seq(|s|, i requires 0 <= i < |s| => f(s[i]))
  }

  /** Position of the first occurrence of `x` in `s`, or -1 when `x` does not occur. */
  function IndexOf<T(==,!new)>(s: seq<T>, x: T): (r: int)
    ensures -1 <= r < |s|
    ensures r == -1 <==> x !in s
    ensures 0 <= r ==> s[r] == x && x !in s[..r]
  {
    if |s| == 0 then -1
    else if s[0] == x then 0
    else
      var k := IndexOf(s[1..], x);
      if k == -1 then -1
      else
        assert s[..k + 1] == [s[0]] + s[1..][..k];
        k + 1
  }

  /** The elements of `s` that satisfy `p`, in their original order. */
  function Filter<T(!new)>(s: seq<T>, p: T -> bool): (r: seq<T>)
    ensures |r| <= |s|
    ensures forall y :: y in r <==> y in s && p(y)
    ensures multiset(r) <= multiset(s)
  {
    if |s| == 0 then []
    else
      var rest := Filter(s[1..], p);
      assert s == [s[0]] + s[1..];
      if p(s[0]) then [s[0]] + rest else rest
  }

  /** `s` with every occurrence of `x` removed (`s.filter(y => y !== x)`). */
  function RemoveAll<T(==,!new)>(s: seq<T>, x: T): (r: seq<T>)
    ensures x !in r
    ensures forall y :: y != x ==> (y in r <==> y in s)
    ensures multiset(r) == multiset(s)[x := 0]
    ensures IsSubsequence(r, s)
  {
    if |s| == 0 then []
    else
      var rest := RemoveAll(s[1..], x);
      assert s == [s[0]] + s[1..];
      if s[0] == x then
        SubsequenceOfTail(rest, s);
        rest
      else
        assert ([s[0]] + rest)[1..] == rest;
        [s[0]] + rest
  }

  /** The elements of `s` that do not occur in `xs` (`s.filter(y => !xs.includes(y))`). */
  function RemoveEach<T(==,!new)>(s: seq<T>, xs: seq<T>): (r: seq<T>)
    ensures forall y :: y in r <==> y in s && y !in xs
    ensures |r| <= |s|
  {
    Filter(s, NotIn(xs))
  }

  /** The predicate `y => !xs.includes(y)`. */
  function NotIn<T(==)>(xs: seq<T>): T -> bool
  {
    y => y !in xs
  }

  /** RemoveEach keeps the survivors in order, and removing nothing keeps everything. */
  lemma RemoveEachSpec<T(!new)>(s: seq<T>, xs: seq<T>)
    ensures IsSubsequence(RemoveEach(s, xs), s)
    ensures xs == [] ==> RemoveEach(s, xs) == s
  {
    FilterIsSubsequence(s, NotIn(xs));
    if xs == [] {
      FilterAll(s, NotIn(xs));
    }
  }

  /** `s.includes(x) ? s.filter(y => y !== x) : [...s, x]`: flip the membership of `x`. */
  function Toggle<T(==,!new)>(s: seq<T>, x: T): (r: seq<T>)
    ensures x in r <==> x !in s
    ensures forall y :: y != x ==> (y in r <==> y in s)
    ensures x !in s ==> r == s + [x]
    ensures x in s ==> IsSubsequence(r, s) && multiset(r) == multiset(s)[x := 0]
  {
    if x in s then RemoveAll(s, x) else s + [x]
  }

  /** Toggling twice restores membership of every element, and restores the sequence itself
      when the element was absent to begin with. */
  lemma ToggleTwice<T(!new)>(s: seq<T>, x: T)
    ensures forall y :: y in Toggle(Toggle(s, x), x) <==> y in s
    ensures x !in s ==> Toggle(Toggle(s, x), x) == s
  {
    if x !in s {
      RemoveAllAbsent(s, x);
      RemoveAllLast(s, x);
    }
  }

  /** Removing an element that does not occur changes nothing. */
  lemma {:induction false} RemoveAllAbsent<T(!new)>(s: seq<T>, x: T)
    requires x !in s
    ensures RemoveAll(s, x) == s
  {
    if |s| > 0 {
      RemoveAllAbsent(s[1..], x);
      assert s == [s[0]] + s[1..];
    }
  }

  /** Removal distributes over appending one element. */
  lemma {:induction false} RemoveAllLast<T(!new)>(s: seq<T>, x: T)
    ensures RemoveAll(s + [x], x) == RemoveAll(s, x)
  {
    if |s| == 0 {
      assert RemoveAll([x], x) == RemoveAll([x][1..], x);
    } else {
      assert (s + [x])[1..] == s[1..] + [x];
      RemoveAllLast(s[1..], x);
    }
  }

  /** `s.find(p)`: the first element satisfying `p`, or `None` (JavaScript's `undefined`). */
  function FindFirst<T(!new)>(s: seq<T>, p: T -> bool): (r: Option<T>)
    ensures r.Some? ==> r.value in s && p(r.value)
    ensures r.None? <==> forall y :: y in s ==> !p(y)
  {
    if |s| == 0 then None
    else if p(s[0]) then Some(s[0])
    else FindFirst(s[1..], p)
  }

  /** The element found is the first one that matches: an earlier match always wins. */
  lemma {:induction false} FindFirstIsFirst<T(!new)>(s: seq<T>, p: T -> bool, k: nat)
    requires k < |s| && p(s[k])
    requires forall j :: 0 <= j < k ==> !p(s[j])
    ensures FindFirst(s, p) == Some(s[k])
  {
    if k > 0 {
      assert !p(s[0]);
      FindFirstIsFirst(s[1..], p, k - 1);
    }
  }

  /** Keep the first occurrence of every element not in `seen`, in order. */
  function DedupFrom<T(==,!new)>(s: seq<T>, seen: set<T>): (r: seq<T>)
    ensures forall y :: y in r <==> y in s && y !in seen
    ensures NoDuplicates(r)
  {
    if |s| == 0 then []
    else if s[0] in seen then DedupFrom(s[1..], seen)
    else
      var rest := DedupFrom(s[1..], seen + {s[0]});
      assert forall j :: 0 <= j < |rest| ==> rest[j] != s[0];
      [s[0]] + rest
  }

  /** `[...new Set(s)]`: the first occurrence of each element, in order of first appearance. */
  function Dedup<T(==,!new)>(s: seq<T>): (r: seq<T>)
    ensures forall y :: y in r <==> y in s
    ensures NoDuplicates(r)
  {
    DedupFrom(s, {})
  }

  /** Every kept element of a filter is a subsequence of the input: order is preserved. */
  lemma {:induction false} FilterIsSubsequence<T(!new)>(s: seq<T>, p: T -> bool)
    ensures IsSubsequence(Filter(s, p), s)
  {
    if |s| > 0 {
      FilterIsSubsequence(s[1..], p);
      if !p(s[0]) {
        SubsequenceOfTail(Filter(s[1..], p), s);
      }
    }
  }

  /** A subsequence of the tail is a subsequence of the whole. */
  lemma {:induction false} SubsequenceOfTail<T(!new)>(a: seq<T>, b: seq<T>)
    requires |b| > 0
    requires IsSubsequence(a, b[1..])
    ensures IsSubsequence(a, b)
    decreases |a| + |b|
  {
    if |a| > 0 && a[0] == b[0] {
      // Matching a[0] against b[0] instead of later needs a[1..] to fit in b[1..].
      SubsequenceDropHead(a, b[1..]);
    }
  }

  /** Dropping the first element of a subsequence keeps it a subsequence. */
  lemma {:induction false} SubsequenceDropHead<T(!new)>(a: seq<T>, b: seq<T>)
    requires |a| > 0
    requires IsSubsequence(a, b)
    ensures IsSubsequence(a[1..], b)
    decreases |a| + |b|
  {
    if |b| > 0 {
      if a[0] == b[0] {
        SubsequenceOfTail(a[1..], b);
      } else {
        SubsequenceDropHead(a, b[1..]);
        SubsequenceOfTail(a[1..], b);
      }
    }
  }

  /** Filtering distributes over concatenation. */
  lemma {:induction false} FilterAppend<T(!new)>(a: seq<T>, b: seq<T>, p: T -> bool)
    ensures Filter(a + b, p) == Filter(a, p) + Filter(b, p)
  {
    if |a| == 0 {
      assert a + b == b;
    } else {
      assert (a + b)[1..] == a[1..] + b;
      assert (a + b)[0] == a[0];
      FilterAppend(a[1..], b, p);
    }
  }

  /** A filter whose predicate holds everywhere keeps the whole sequence. */
  lemma {:induction false} FilterAll<T(!new)>(s: seq<T>, p: T -> bool)
    requires forall y :: y in s ==> p(y)
    ensures Filter(s, p) == s
  {
    if |s| > 0 {
      FilterAll(s[1..], p);
      assert s == [s[0]] + s[1..];
    }
  }

  /** A sequence without duplicates is its own de-duplication, whatever was seen before it
      does not touch it. */
  lemma {:induction false} DedupFromUnseen<T(!new)>(s: seq<T>, seen: set<T>)
    requires NoDuplicates(s)
    requires forall y :: y in s ==> y !in seen
    ensures DedupFrom(s, seen) == s
  {
    if |s| > 0 {
      assert s[0] in s;
      forall y | y in s[1..] ensures y !in seen + {s[0]} {
        var j :| 0 <= j < |s[1..]| && s[1..][j] == y;
        assert s[j + 1] == y;
      }
      DedupFromUnseen(s[1..], seen + {s[0]});
      assert s == [s[0]] + s[1..];
    }
  }

  /** De-duplicating a concatenation starts with the de-duplication of its first part. */
  lemma {:induction false} DedupFromPrefix<T(!new)>(a: seq<T>, b: seq<T>, seen: set<T>)
    ensures DedupFrom(a, seen) <= DedupFrom(a + b, seen)
  {
    if |a| > 0 {
      var seen' := if a[0] in seen then seen else seen + {a[0]};
      DedupFromCons(a, b, seen);
      DedupFromPrefix(a[1..], b, seen');
    }
  }

  /** One step of `DedupFrom` over a concatenation whose first part is non-empty. */
  lemma DedupFromCons<T(!new)>(a: seq<T>, b: seq<T>, seen: set<T>)
    requires |a| > 0
    ensures var seen' := if a[0] in seen then seen else seen + {a[0]};
      var head: seq<T> := if a[0] in seen then [] else [a[0]];
      && DedupFrom(a + b, seen) == head + DedupFrom(a[1..] + b, seen')
      && DedupFrom(a, seen) == head + DedupFrom(a[1..], seen')
  {
    assert (a + b)[1..] == a[1..] + b;
    assert (a + b)[0] == a[0];
  }
}
