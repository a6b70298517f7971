/** The orders of a sequence, and what a function makes of them. */
module Reorderings {
  import opened Results
  import opened Selections

  predicate Reordered<T(==)>(a: seq<T>, b: seq<T>) {
    multiset(a) == multiset(b)
  }

  lemma ReorderedMembers<T>(a: seq<T>, b: seq<T>)
    requires Reordered(a, b)
    ensures forall x :: x in a <==> x in b
  {
    assert forall x :: x in a <==> x in multiset(a);
    assert forall x :: x in b <==> x in multiset(b);
  }

  lemma ItsOwnOrder<T>(s: seq<T>)
    ensures Reordered(s, s)
  {
  }

  /** The element at `i` moved to the front. */
  function ToFront<T>(s: seq<T>, i: nat): seq<T>
    requires i < |s|
  {
    [s[i]] + (s[..i] + s[i + 1..])
  }

  lemma ToFrontReorders<T>(s: seq<T>, i: nat)
    requires i < |s|
    ensures Reordered(s, ToFront(s, i))
  {
    assert s == s[..i] + [s[i]] + s[i + 1..];
  }

  /** The element at `i` of the second list moved to the end of the first. */
  lemma MovedReorders<T>(a: seq<T>, b: seq<T>, i: nat)
    requires i < |b|
    ensures Reordered(a + b, (a + [b[i]]) + Without(b, i))
  {
    assert b == b[..i] + [b[i]] + b[i + 1..];
  }

  lemma {:induction false} KeepSplits<T(!new)>(s: seq<T>, p: T -> bool, q: T -> bool)
    requires forall x :: q(x) <==> !p(x)
    ensures Reordered(s, Keep(s, p) + Keep(s, q))
  {
    if s != [] {
      var front, last := s[..|s| - 1], s[|s| - 1];
      assert s == front + [last];
      KeepSplits(front, p, q);
    }
  }

  /** `f` succeeds along `s` with the values `a`. */
  ghost predicate Yield<T, U, E>(f: T -> Result<U, E>, s: seq<T>, a: seq<U>) {
    |s| == |a| && forall i :: 0 <= i < |s| ==> f(s[i]) == Success(a[i])
  }

  function Without<T>(s: seq<T>, i: nat): seq<T>
    requires i < |s|
  {
    s[..i] + s[i + 1..]
  }

  lemma {:induction false} TakeAway<T>(s: seq<T>, i: nat, t: seq<T>)
    requires Reordered(s, t) && t != [] && i < |s| && s[i] == t[|t| - 1]
    ensures Reordered(Without(s, i), t[..|t| - 1])
  {
    var x, front := s[i], t[..|t| - 1];
    assert s == s[..i] + [x] + s[i + 1..];
    assert t == front + [x];
    assert multiset(Without(s, i)) == multiset(s) - multiset{x} == multiset(t) - multiset{x} == multiset(front);
  }

  lemma {:induction false} PutBack<T>(s: seq<T>, i: nat, t: seq<T>)
    requires i < |s| && Reordered(Without(s, i), t)
    ensures Reordered(s, t + [s[i]])
  {
    assert s == s[..i] + [s[i]] + s[i + 1..];
  }

  lemma {:induction false} LastIsThere<T>(s: seq<T>, t: seq<T>) returns (i: nat)
    requires Reordered(s, t) && t != []
    ensures i < |s| && s[i] == t[|t| - 1]
  {
    ReorderedMembers(s, t);
    assert t[|t| - 1] in t;
    i :| 0 <= i < |s| && s[i] == t[|t| - 1];
  }

  lemma {:induction false} NothingToReorder<T>(s: seq<T>, t: seq<T>)
    requires Reordered(s, t)
    ensures s == [] <==> t == []
  {
    ReorderedMembers(s, t);
    assert s != [] ==> s[0] in s;
    assert t != [] ==> t[0] in t;
  }

  lemma {:induction false} YieldWithout<T, U, E>(f: T -> Result<U, E>, s: seq<T>, a: seq<U>, i: nat)
    requires Yield(f, s, a) && i < |s|
    ensures Yield(f, Without(s, i), Without(a, i))
  {
  }

  /** Any order of the values comes from an order of the arguments. */
  lemma {:induction false} OrderOfArguments<T, U, E>(f: T -> Result<U, E>, s: seq<T>, a: seq<U>, b: seq<U>)
    returns (t: seq<T>)
    requires Yield(f, s, a) && Reordered(a, b)
    ensures Reordered(s, t) && Yield(f, t, b)
    decreases |b|
  {
    NothingToReorder(a, b);
    if b == [] {
      t := [];
    } else {
      hide Reordered, Without;
      var last := |b| - 1;
      var i := LastIsThere(a, b);
      TakeAway(a, i, b);
      YieldWithout(f, s, a, i);
      t := OrderOfArguments(f, Without(s, i), Without(a, i), b[..last]);
      PutBack(s, i, t);
      t := t + [s[i]];
    }
  }

  /** An order of the arguments gives an order of the values. */
  lemma {:induction false} OrderOfValues<T, U, E>(f: T -> Result<U, E>, s: seq<T>, a: seq<U>, t: seq<T>, b: seq<U>)
    requires Yield(f, s, a) && Yield(f, t, b) && Reordered(s, t)
    ensures Reordered(a, b)
    decreases |t|
  {
    NothingToReorder(s, t);
    if t != [] {
      hide Reordered, Without;
      var last := |t| - 1;
      var i := LastIsThere(s, t);
      TakeAway(s, i, t);
      YieldWithout(f, s, a, i);
      OrderOfValues(f, Without(s, i), Without(a, i), t[..last], b[..last]);
      PutBack(a, i, b[..last]);
      assert b == b[..last] + [a[i]];
    }
  }
}
