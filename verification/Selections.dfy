/** Sequences as query results: which rows, each once, in what order. */
module Selections {
  import opened Results

  predicate NoDup<T(==)>(s: seq<T>) {
    forall i, j :: 0 <= i < j < |s| ==> s[i] != s[j]
  }

  lemma {:induction false} NoDupAppend<T>(s: seq<T>, x: T)
    requires NoDup(s) && x !in s
    ensures NoDup(s + [x])
  {
  }

  lemma ThreeParts<T>(a: seq<T>, b: seq<T>, c: seq<T>)
    ensures a + b + c == a + (b + c)
  {
  }

  predicate Sorted<T>(key: T -> int, s: seq<T>) {
    forall i, j :: 0 <= i < j < |s| ==> key(s[i]) <= key(s[j])
  }

  /** `rows` are the rows of `table` that satisfy `p`, each once, ordered by `key`; rows with equal
      keys may come in any order. */
  ghost predicate Selection<T(!new)>(table: seq<T>, p: T -> bool, key: T -> int, rows: seq<T>) {
    && (forall r :: r in rows <==> r in table && p(r))
    && NoDup(rows)
    && Sorted(key, rows)
  }

  /** `found` is the only row of `table` that satisfies `p`, or there is none. */
  ghost predicate Lookup<T(!new)>(table: seq<T>, p: T -> bool, found: Option<T>) {
    forall r :: r in table && p(r) <==> found == Some(r)
  }

  /** The elements that satisfy `p`, in order. */
  function Keep<T>(s: seq<T>, p: T -> bool): seq<T> {
    if s == [] then []
    else Keep(s[..|s| - 1], p) + if p(s[|s| - 1]) then [s[|s| - 1]] else []
  }

  lemma {:induction false} KeepMembers<T>(s: seq<T>, p: T -> bool)
    ensures forall i :: 0 <= i < |Keep(s, p)| ==> Keep(s, p)[i] in s && p(Keep(s, p)[i])
    ensures forall i :: 0 <= i < |s| && p(s[i]) ==> s[i] in Keep(s, p)
  {
    if s != [] {
      var front, last := s[..|s| - 1], s[|s| - 1];
      assert s == front + [last];
      KeepMembers(front, p);
      assert forall i :: 0 <= i < |front| ==> s[i] == front[i];
    }
  }

  lemma KeepStep<T>(s: seq<T>, x: T, p: T -> bool)
    ensures Keep(s + [x], p) == Keep(s, p) + if p(x) then [x] else []
  {
    assert (s + [x])[..|s|] == s;
  }

  lemma {:induction false} KeepNoDup<T>(s: seq<T>, p: T -> bool)
    requires NoDup(s)
    ensures NoDup(Keep(s, p))
  {
    if s != [] {
      var front, last := s[..|s| - 1], s[|s| - 1];
      KeepNoDup(front, p);
      KeepMembers(front, p);
      assert last !in front;
    }
  }

  lemma {:induction false} KeepSorted<T>(s: seq<T>, p: T -> bool, key: T -> int)
    requires Sorted(key, s)
    ensures Sorted(key, Keep(s, p))
  {
    if s != [] {
      var front, last := s[..|s| - 1], s[|s| - 1];
      KeepSorted(front, p, key);
      KeepMembers(front, p);
      var kept := Keep(front, p);
      forall i | 0 <= i < |kept|
        ensures key(kept[i]) <= key(last)
      {
        assert kept[i] in front;
        var j :| 0 <= j < |front| && front[j] == kept[i];
        assert s[j] == kept[i];
      }
    }
  }

  /** The database's side of a query: filter, then ORDER BY. Callers know only the contract, so
      nothing depends on how ties are broken. */
  method Select<T(==)>(table: seq<T>, p: T -> bool, key: T -> int) returns (rows: seq<T>)
    ensures multiset(rows) == multiset(Keep(table, p)) && Sorted(key, rows)
  {
    rows := [];
    for n := 0 to |table|
      invariant multiset(rows) == multiset(Keep(table[..n], p)) && Sorted(key, rows)
    {
      KeepStep(table[..n], table[n], p);
      assert table[..n + 1] == table[..n] + [table[n]];
      if p(table[n]) {
        rows := Insert(key, rows, table[n]);
      }
    }
    assert table[..|table|] == table;
  }

  method Insert<T>(key: T -> int, rows: seq<T>, x: T) returns (r: seq<T>)
    requires Sorted(key, rows)
    ensures Sorted(key, r) && multiset(r) == multiset(rows) + multiset{x}
  {
    var i := 0;
    while i < |rows| && key(rows[i]) < key(x)
      invariant i <= |rows|
      invariant forall j :: 0 <= j < i ==> key(rows[j]) < key(x)
    {
      i := i + 1;
    }
    InsertedSorted(key, rows, i, x);
    InsertedBag(rows, i, x);
    hide Sorted;
    r := rows[..i] + [x] + rows[i..];
  }

  lemma {:induction false} InsertedBag<T>(rows: seq<T>, i: nat, x: T)
    requires i <= |rows|
    ensures multiset(rows[..i] + [x] + rows[i..]) == multiset(rows) + multiset{x}
  {
    assert rows == rows[..i] + rows[i..];
  }

  lemma {:induction false} InsertedSorted<T>(key: T -> int, rows: seq<T>, i: nat, x: T)
    requires Sorted(key, rows) && i <= |rows|
    requires forall j :: 0 <= j < i ==> key(rows[j]) <= key(x)
    requires i < |rows| ==> key(x) <= key(rows[i])
    ensures Sorted(key, rows[..i] + [x] + rows[i..])
  {
    var r := rows[..i] + [x] + rows[i..];
    assert forall j :: 0 <= j < |r| ==> r[j] == if j < i then rows[j] else if j == i then x else rows[j - 1];
    assert forall j :: i <= j < |rows| ==> key(x) <= key(rows[j]);
  }

  lemma {:induction false} NoDupCounts<T>(s: seq<T>)
    ensures NoDup(s) <==> forall x :: multiset(s)[x] <= 1
  {
    if s != [] {
      var front, last := s[..|s| - 1], s[|s| - 1];
      assert s == front + [last];
      NoDupCounts(front);
      if NoDup(front) && last in front {
        var i :| 0 <= i < |front| && front[i] == last;
        assert s[i] == s[|s| - 1];
        assert multiset(s)[last] >= 2;
      }
      if NoDup(front) && last !in front {
        assert multiset(s)[last] == 1;
        assert forall x :: x != last ==> multiset(s)[x] == multiset(front)[x];
      }
      if !NoDup(front) {
        var x :| multiset(front)[x] > 1;
        assert multiset(s)[x] > 1;
        var i, j :| 0 <= i < j < |front| && front[i] == front[j];
        assert s[i] == s[j];
      }
    }
  }

  lemma SelectIsSelection<T(!new)>(table: seq<T>, p: T -> bool, key: T -> int, rows: seq<T>)
    requires NoDup(table)
    requires multiset(rows) == multiset(Keep(table, p)) && Sorted(key, rows)
    ensures Selection(table, p, key, rows)
  {
    KeepNoDup(table, p);
    KeepMembers(table, p);
    NoDupCounts(Keep(table, p));
    NoDupCounts(rows);
    assert forall r :: r in rows <==> r in multiset(rows);
  }

  /** The first element that satisfies `p`. */
  function FirstWhere<T>(s: seq<T>, p: T -> bool): (r: Option<T>)
    ensures r.None? ==> forall i :: 0 <= i < |s| ==> !p(s[i])
    ensures r.Some? ==> p(r.value) && r.value in s
  {
    if s == [] then None
    else
      var earlier := FirstWhere(s[..|s| - 1], p);
      if earlier.Some? then earlier
      else if p(s[|s| - 1]) then Some(s[|s| - 1])
      else None
  }

  function Members<T(==)>(s: seq<T>): set<T> {
    set x | x in s
  }

  lemma MembersAppend<T>(s: seq<T>, x: T)
    ensures Members(s + [x]) == Members(s) + {x}
    ensures x in s <==> x in Members(s)
  {
  }
}
