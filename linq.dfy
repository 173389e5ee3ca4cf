/** The LINQ operators the services use to query the store: Where, Single, SingleOrDefault
    and ToHashSet, with the exceptions .NET documents for them. */
module Linq {
  import opened Common

  /** Number of elements of `s` that satisfy `p`. */
  function CountWhere<T>(s: seq<T>, p: T -> bool): (n: nat)
    ensures n <= |s|
    ensures n == 0 <==> forall i :: 0 <= i < |s| ==> !p(s[i])
  {
    if s == [] then 0
    else CountWhere(s[..|s| - 1], p) + (if p(s[|s| - 1]) then 1 else 0)
  }

  /** The first element of `s` that satisfies `p`, if any. */
  function FirstWhere<T>(s: seq<T>, p: T -> bool): (r: Option<T>)
    ensures r.Some? ==> r.value in s && p(r.value)
    ensures r.None? <==> forall i :: 0 <= i < |s| ==> !p(s[i])
  {
    if s == [] then None
    else
      var f := FirstWhere(s[..|s| - 1], p);
      if f.Some? then f
      else if p(s[|s| - 1]) then Some(s[|s| - 1])
      else None
  }

  /** Enumerable.Where: the elements that satisfy `p`, in their order. */
  function Where<T>(s: seq<T>, p: T -> bool): (r: seq<T>)
    ensures |r| == CountWhere(s, p)
    ensures forall i :: 0 <= i < |r| ==> r[i] in s && p(r[i])
  {
    if s == [] then []
    else Where(s[..|s| - 1], p) + (if p(s[|s| - 1]) then [s[|s| - 1]] else [])
  }

  /** Counting over a longer prefix never gives less. */
  lemma {:induction false} CountWhereOfPrefix<T>(s: seq<T>, k: nat, p: T -> bool)
    requires k <= |s|
    ensures CountWhere(s[..k], p) <= CountWhere(s, p)
  {
    if k < |s| {
      assert s[..|s| - 1][..k] == s[..k];
      CountWhereOfPrefix(s[..|s| - 1], k, p);
    } else {
      assert s[..k] == s;
    }
  }

  /** Filtering first by a weaker condition `q` does not change how many elements satisfy `p`. */
  lemma {:induction false} WhereKeepsCount<T>(s: seq<T>, q: T -> bool, p: T -> bool)
    requires forall x :: p(x) ==> q(x)
    ensures CountWhere(Where(s, q), p) == CountWhere(s, p)
  {
    if s != [] {
      var init, last := s[..|s| - 1], s[|s| - 1];
      WhereKeepsCount(init, q, p);
      var w := Where(init, q);
      if q(last) {
        var wl := w + [last];
        assert Where(s, q) == wl;
        assert wl[..|wl| - 1] == w;
        assert CountWhere(wl, p) == CountWhere(w, p) + (if p(last) then 1 else 0);
      } else {
        assert Where(s, q) == w;
      }
    }
  }

  /** Filtering first by a weaker condition `q` does not change which element is the first to
      satisfy `p`. */
  lemma {:induction false} WhereKeepsFirst<T>(s: seq<T>, q: T -> bool, p: T -> bool)
    requires forall x :: p(x) ==> q(x)
    ensures FirstWhere(Where(s, q), p) == FirstWhere(s, p)
  {
    if s != [] {
      var init, last := s[..|s| - 1], s[|s| - 1];
      WhereKeepsFirst(init, q, p);
      var w := Where(init, q);
      if q(last) {
        var wl := w + [last];
        assert Where(s, q) == wl;
        assert wl[..|wl| - 1] == w;
        assert FirstWhere(wl, p) == (if FirstWhere(w, p).Some? then FirstWhere(w, p) else if p(last) then Some(last) else None);
      } else {
        assert Where(s, q) == w;
      }
    }
  }

  /** Enumerable.Single(predicate): the one element that satisfies `p`; an
      InvalidOperationException when there is none or more than one. */
  method Single<T>(s: seq<T>, p: T -> bool) returns (r: Result<T, Failure>)
    ensures r.Success? <==> CountWhere(s, p) == 1
    ensures r.Success? ==> FirstWhere(s, p) == Some(r.value) && r.value in s && p(r.value)
    ensures r.Failure? ==> r.error == InvalidOperation
  {
    var found: Option<T> := None;
    for i := 0 to |s|
      invariant found == FirstWhere(s[..i], p)
      invariant CountWhere(s[..i], p) <= 1
      invariant found.None? <==> CountWhere(s[..i], p) == 0
    {
      assert s[..i + 1][..i] == s[..i];
      if p(s[i]) {
        if found.Some? {
          CountWhereOfPrefix(s, i + 1, p);
          return Failure(InvalidOperation);
        }
        found := Some(s[i]);
      }
    }
    assert s[..|s|] == s;
    if found.None? {
      return Failure(InvalidOperation);
    }
    r := Success(found.value);
  }

  /** Enumerable.SingleOrDefault(predicate): null when nothing satisfies `p`, the one element
      when exactly one does, an InvalidOperationException when several do. */
  method SingleOrDefault<T>(s: seq<T>, p: T -> bool) returns (r: Result<Option<T>, Failure>)
    ensures CountWhere(s, p) == 0 <==> r == Success(None)
    ensures CountWhere(s, p) == 1 <==> r.Success? && r.value.Some?
    ensures r.Success? ==> r.value == FirstWhere(s, p)
    ensures CountWhere(s, p) > 1 <==> r == Failure(InvalidOperation)
  {
    var found: Option<T> := None;
    for i := 0 to |s|
      invariant found == FirstWhere(s[..i], p)
      invariant CountWhere(s[..i], p) <= 1
      invariant found.None? <==> CountWhere(s[..i], p) == 0
    {
      assert s[..i + 1][..i] == s[..i];
      if p(s[i]) {
        if found.Some? {
          CountWhereOfPrefix(s, i + 1, p);
          return Failure(InvalidOperation);
        }
        found := Some(s[i]);
      }
    }
    assert s[..|s|] == s;
    r := Success(found);
  }

  /** Enumerable.ToHashSet over freshly created objects: no two elements are equal, so the set
      has one member per element. */
  lemma {:induction false} DistinctToSetCardinality<T>(s: seq<T>)
    requires forall i, j :: 0 <= i < j < |s| ==> s[i] != s[j]
    ensures |set x | x in s| == |s|
  {
    if s != [] {
      var init, last := s[..|s| - 1], s[|s| - 1];
      DistinctToSetCardinality(init);
      assert last !in init;
      assert (set x | x in s) == (set x | x in init) + {last};
    }
  }
}
