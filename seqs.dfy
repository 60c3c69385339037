/** Generic sequence operations that the source performs with
    `Array.prototype.filter`, `findIndex` and `[...s].reverse().find`. */
module Seqs {
  import opened Wrappers

  /** The elements of `s` that satisfy `p`, in their original order
      (JavaScript's `filter`). */
  function Filter<T>(s: seq<T>, p: T -> bool): (r: seq<T>)
    ensures |r| <= |s|
    ensures forall x :: x in r ==> x in s && p(x)
  {
    if s == [] then [] else (if p(s[0]) then [s[0]] else []) + Filter(s[1..], p)
  }

  /** Filtering keeps exactly the members that satisfy the predicate. */
  lemma {:induction false} FilterMembership<T>(s: seq<T>, p: T -> bool, x: T)
    ensures x in Filter(s, p) <==> x in s && p(x)
  {
    if s != [] {
      FilterMembership(s[1..], p, x);
      assert s == [s[0]] + s[1..];
    }
  }

  /** Filtering distributes over concatenation: the relative order of the
      kept elements is the order they had in the input. */
  lemma {:induction false} FilterAppend<T>(a: seq<T>, b: seq<T>, p: T -> bool)
    ensures Filter(a + b, p) == Filter(a, p) + Filter(b, p)
  {
    if a == [] {
      assert a + b == b;
    } else {
      assert (a + b)[1..] == a[1..] + b;
      FilterAppend(a[1..], b, p);
    }
  }

  /** A predicate and its negation split a sequence into two filtered parts
      that together hold every element exactly as often as the input. */
  lemma {:induction false} FilterPartition<T>(s: seq<T>, p: T -> bool, q: T -> bool)
    requires forall x :: q(x) == !p(x)
    ensures multiset(Filter(s, p)) + multiset(Filter(s, q)) == multiset(s)
    ensures |Filter(s, p)| + |Filter(s, q)| == |s|
  {
    if s != [] {
      FilterPartition(s[1..], p, q);
      assert s == [s[0]] + s[1..];
    }
  }

  /** Filtering with a predicate that holds everywhere is the identity. */
  lemma {:induction false} FilterAll<T>(s: seq<T>, p: T -> bool)
    requires forall x :: p(x)
    ensures Filter(s, p) == s
  {
    if s != [] {
      FilterAll(s[1..], p);
      assert s == [s[0]] + s[1..];
    }
  }

  /** The index of the first element satisfying `p`, if any
      (`Array.prototype.findIndex`, with -1 as `None`). */
  function FirstIndexWhere<T>(s: seq<T>, p: T -> bool): (r: Option<nat>)
    ensures r.Some? ==> r.value < |s| && p(s[r.value]) && forall j :: 0 <= j < r.value ==> !p(s[j])
    ensures r.None? ==> forall j :: 0 <= j < |s| ==> !p(s[j])
    decreases |s|
  {
    if s == [] then None
    else if p(s[0]) then Some(0)
    else match FirstIndexWhere(s[1..], p)
      case Some(i) => Some(i + 1)
      case None => None
  }

  /** The index of the last element satisfying `p`, if any: the element
      `[...s].reverse().find(p)` returns. */
  function LastIndexWhere<T>(s: seq<T>, p: T -> bool): (r: Option<nat>)
    ensures r.Some? ==> r.value < |s| && p(s[r.value]) && forall j :: r.value < j < |s| ==> !p(s[j])
    ensures r.None? ==> forall j :: 0 <= j < |s| ==> !p(s[j])
    decreases |s|
  {
    if s == [] then None
    else if p(s[|s| - 1]) then Some(|s| - 1)
    else LastIndexWhere(s[..|s| - 1], p)
  }

  /** The last index where `p` holds is the only index where `p` holds and
      nothing after it does. */
  lemma LastIndexWhereUnique<T>(s: seq<T>, p: T -> bool, i: nat)
    requires i < |s| && p(s[i]) && forall j :: i < j < |s| ==> !p(s[j])
    ensures LastIndexWhere(s, p) == Some(i)
  {
  }

  /** The first index where `p` holds is the only index where `p` holds and
      nothing before it does. */
  lemma FirstIndexWhereUnique<T>(s: seq<T>, p: T -> bool, i: nat)
    requires i < |s| && p(s[i]) && forall j :: 0 <= j < i ==> !p(s[j])
    ensures FirstIndexWhere(s, p) == Some(i)
  {
  }

  /** Searching from the end of a prefix finds what searching from the end of
      the whole sequence finds, when the part cut away holds no match. */
  lemma LastIndexWhereAppend<T>(s: seq<T>, t: seq<T>, p: T -> bool)
    requires forall j :: 0 <= j < |t| ==> !p(t[j])
    ensures LastIndexWhere(s + t, p) == LastIndexWhere(s, p)
  {
    var u := s + t;
    match LastIndexWhere(s, p)
    case Some(i) =>
      assert u[i] == s[i];
      forall j | i < j < |u| ensures !p(u[j]) {
        if j < |s| { assert u[j] == s[j]; } else { assert u[j] == t[j - |s|]; }
      }
      LastIndexWhereUnique(u, p, i);
    case None =>
      forall j | 0 <= j < |u| ensures !p(u[j]) {
        if j < |s| { assert u[j] == s[j]; } else { assert u[j] == t[j - |s|]; }
      }
  }
}
