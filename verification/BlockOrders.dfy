/** Elements that come in blocks, some of them with a key, and of each key the first one must be good:
    in which orders of the blocks is that so? */
module BlockOrders {
  import opened Results
  import opened Selections
  import opened Reorderings

  /** Some element has the key. */
  predicate Has<V, K(==)>(key: V -> Option<K>, s: seq<V>, k: K) {
    exists i :: 0 <= i < |s| && key(s[i]) == Some(k)
  }

  /** Each element is good or has no key or one that was seen before. */
  predicate FirstsGood<V, K(==)>(key: V -> Option<K>, good: V -> bool, s: seq<V>) {
    GoodAfter(key, good, [], s)
  }

  /** The same for elements that follow others. */
  predicate GoodAfter<V, K(==)>(key: V -> Option<K>, good: V -> bool, before: seq<V>, s: seq<V>) {
    forall i :: 0 <= i < |s| ==>
      key(s[i]).None? || Has(key, before + s[..i], key(s[i]).value) || good(s[i])
  }

  lemma {:induction false} HasJoin<V, K>(key: V -> Option<K>, a: seq<V>, b: seq<V>, k: K)
    ensures Has(key, a + b, k) <==> Has(key, a, k) || Has(key, b, k)
  {
    var s := a + b;
    if i :| 0 <= i < |a| && key(a[i]) == Some(k) {
      assert s[i] == a[i];
    }
    if i :| 0 <= i < |b| && key(b[i]) == Some(k) {
      assert s[|a| + i] == b[i];
    }
  }

  lemma {:induction false} GoodJoin<V, K>(key: V -> Option<K>, good: V -> bool, a: seq<V>, b: seq<V>)
    ensures FirstsGood(key, good, a + b) <==> FirstsGood(key, good, a) && GoodAfter(key, good, a, b)
  {
    hide Has;
    var s := a + b;
    forall i | 0 <= i < |s|
      ensures [] + s[..i] == if i < |a| then [] + a[..i] else a + b[..i - |a|]
    {
    }
    forall i | 0 <= i < |b|
      ensures s[|a| + i] == b[i] && [] + s[..|a| + i] == a + b[..i]
    {
    }
    forall i | 0 <= i < |a|
      ensures s[i] == a[i] && [] + s[..i] == [] + a[..i]
    {
    }
  }

  /** Of every key in a list whose firsts are good there is a good element. */
  lemma {:induction false} GoodOne<V, K>(key: V -> Option<K>, good: V -> bool, before: seq<V>, s: seq<V>, k: K)
    returns (v: V)
    requires GoodAfter(key, good, before, s) && Has(key, s, k) && !Has(key, before, k)
    ensures v in s && key(v) == Some(k) && good(v)
  {
    var n := |s|;
    assert s[..n] == s;
    while n > 0 && Has(key, s[..n - 1], k)
      invariant 0 < n <= |s| && Has(key, s[..n], k)
    {
      n := n - 1;
    }
    assert forall j :: 0 <= j < n - 1 ==> s[..n - 1][j] == s[..n][j];
    var i :| 0 <= i < n && key(s[..n][i]) == Some(k);
    assert i == n - 1;
    v := s[n - 1];
    HasJoin(key, before, s[..n - 1], k);
  }

  function Flatten<T, V>(block: T -> seq<V>, es: seq<T>): seq<V> {
    if es == [] then [] else Flatten(block, es[..|es| - 1]) + block(es[|es| - 1])
  }

  lemma FlattenNext<T, V>(block: T -> seq<V>, es: seq<T>, e: T)
    ensures Flatten(block, es + [e]) == Flatten(block, es) + block(e)
  {
    assert (es + [e])[..|es|] == es;
  }

  lemma {:induction false} FlattenJoin<T, V>(block: T -> seq<V>, a: seq<T>, b: seq<T>)
    ensures Flatten(block, a + b) == Flatten(block, a) + Flatten(block, b)
  {
    if b == [] {
      assert a + b == a;
    } else {
      var front, last := b[..|b| - 1], b[|b| - 1];
      assert a + b == a + front + [last] && b == front + [last];
      FlattenNext(block, a + front, last);
      FlattenNext(block, front, last);
      FlattenJoin(block, a, front);
      hide Flatten;
      ThreeParts(Flatten(block, a), Flatten(block, front), block(last));
    }
  }

  lemma {:induction false} FlattenMembers<T, V>(block: T -> seq<V>, es: seq<T>, v: V)
    ensures v in Flatten(block, es) <==> exists i :: 0 <= i < |es| && v in block(es[i])
  {
    if es != [] {
      FlattenMembers(block, es[..|es| - 1], v);
    }
  }

  /** Within a block, the elements of one key are all good or all bad. */
  ghost predicate Uniform<T(!new), V(!new), K>(key: V -> Option<K>, good: V -> bool, block: T -> seq<V>) {
    forall e, v, w :: v in block(e) && w in block(e) && key(v).Some? && key(v) == key(w) ==> good(v) == good(w)
  }

  // ---------- Every order ----------

  ghost predicate AllGood<T(!new), V(!new), K>(key: V -> Option<K>, good: V -> bool, block: T -> seq<V>, es: seq<T>) {
    forall e, v :: e in es && v in block(e) && key(v).Some? ==> good(v)
  }

  /** Firsts are good in every order of the blocks exactly when all elements with a key are good. */
  lemma {:induction false} EveryBlockOrder<T(!new), V(!new), K>(key: V -> Option<K>, good: V -> bool,
                                                                block: T -> seq<V>, es: seq<T>)
    requires Uniform(key, good, block)
    ensures (forall fs :: Reordered(es, fs) ==> FirstsGood(key, good, Flatten(block, fs))) <==>
            AllGood(key, good, block, es)
  {
    hide Reordered, FirstsGood;
    if AllGood(key, good, block, es) {
      forall fs | Reordered(es, fs)
        ensures FirstsGood(key, good, Flatten(block, fs))
      {
        ReorderedMembers(es, fs);
        AllGoodFirsts(key, good, block, fs);
      }
    }
    if forall fs :: Reordered(es, fs) ==> FirstsGood(key, good, Flatten(block, fs)) {
      forall e, v | e in es && v in block(e) && key(v).Some?
        ensures good(v)
      {
        var i :| 0 <= i < |es| && es[i] == e;
        ToFrontReorders(es, i);
        FrontBlockGood(key, good, block, e, es[..i] + es[i + 1..], v);
      }
    }
  }

  lemma {:induction false} AllGoodFirsts<T(!new), V(!new), K>(key: V -> Option<K>, good: V -> bool,
                                                              block: T -> seq<V>, fs: seq<T>)
    requires AllGood(key, good, block, fs)
    ensures FirstsGood(key, good, Flatten(block, fs))
  {
    hide Has, Flatten;
    var s := Flatten(block, fs);
    forall i | 0 <= i < |s| && key(s[i]).Some?
      ensures good(s[i])
    {
      FlattenMembers(block, fs, s[i]);
      assert s[i] in s;
    }
  }

  lemma {:induction false} FrontBlockGood<T(!new), V(!new), K>(key: V -> Option<K>, good: V -> bool,
                                                               block: T -> seq<V>, e: T, rest: seq<T>, v: V)
    requires Uniform(key, good, block) && FirstsGood(key, good, Flatten(block, [e] + rest))
    requires v in block(e) && key(v).Some?
    ensures good(v)
  {
    FlattenJoin(block, [e], rest);
    FlattenNext(block, [], e);
    assert [] + [e] == [e] && [] + block(e) == block(e);
    hide Flatten, GoodAfter;
    GoodJoin(key, good, block(e), Flatten(block, rest));
    var i :| 0 <= i < |block(e)| && block(e)[i] == v;
    var w := GoodOne(key, good, [], block(e), key(v).value);
  }

  // ---------- Some order ----------

  /** Wherever the block stands among `X`, one of its elements comes too early: no block outside `X` offers
      a good element of its key. */
  ghost predicate Blocked<T(!new), V(!new), K>(key: V -> Option<K>, good: V -> bool, block: T -> seq<V>, es: seq<T>,
                                               X: set<T>, e: T)
  {
    exists v :: v in block(e) && key(v).Some? && !good(v) && !Offered(key, good, block, es, X, key(v).value)
  }

  ghost predicate Offered<T(!new), V(!new), K>(key: V -> Option<K>, good: V -> bool, block: T -> seq<V>, es: seq<T>,
                                               X: set<T>, k: K)
  {
    exists e, v :: e in es && e !in X && v in block(e) && key(v) == Some(k) && good(v)
  }

  /** Blocks none of which can come first among them. */
  ghost predicate Stuck<T(!new), V(!new), K>(key: V -> Option<K>, good: V -> bool, block: T -> seq<V>, es: seq<T>,
                                             X: set<T>)
  {
    X != {} && (forall e :: e in X ==> e in es) && forall e :: e in X ==> Blocked(key, good, block, es, X, e)
  }

  ghost predicate NoneStuck<T(!new), V(!new), K>(key: V -> Option<K>, good: V -> bool, block: T -> seq<V>, es: seq<T>) {
    forall X: set<T> :: !Stuck(key, good, block, es, X)
  }

  /** Firsts are good in some order of the blocks exactly when no set of blocks is stuck. */
  lemma {:induction false} SomeBlockOrder<T(!new), V(!new), K>(key: V -> Option<K>, good: V -> bool,
                                                               block: T -> seq<V>, es: seq<T>)
    requires Uniform(key, good, block)
    ensures (exists fs :: Reordered(es, fs) && FirstsGood(key, good, Flatten(block, fs))) <==>
            NoneStuck(key, good, block, es)
  {
    hide Reordered, FirstsGood, Blocked;
    if NoneStuck(key, good, block, es) {
      ItsOwnOrder(es);
      assert [] + es == es;
      assert FirstsGood(key, good, Flatten(block, [])) by {
        NothingIsGood(key, good, block);
      }
      var fs := Grow(key, good, block, es, [], es);
    }
    if fs :| Reordered(es, fs) && FirstsGood(key, good, Flatten(block, fs)) {
      forall X: set<T>
        ensures !Stuck(key, good, block, es, X)
      {
        if Stuck(key, good, block, es, X) {
          var e := FirstIsFree(key, good, block, es, X, fs);
          assert false;
        }
      }
    }
  }

  lemma NothingIsGood<T, V, K>(key: V -> Option<K>, good: V -> bool, block: T -> seq<V>)
    ensures FirstsGood(key, good, Flatten(block, []))
  {
  }

  /** While nothing is stuck, one of the blocks left can come next. */
  lemma {:induction false} Grow<T(!new), V(!new), K>(key: V -> Option<K>, good: V -> bool, block: T -> seq<V>,
                                                     es: seq<T>, done: seq<T>, left: seq<T>) returns (fs: seq<T>)
    requires NoneStuck(key, good, block, es) && Reordered(es, done + left)
    requires FirstsGood(key, good, Flatten(block, done))
    ensures Reordered(es, fs) && FirstsGood(key, good, Flatten(block, fs))
    decreases |left|
  {
    if left == [] {
      assert done + left == done;
      fs := done;
    } else {
      var X := set e | e in left;
      assert left[0] in X;
      ReorderedMembers(es, done + left);
      hide Blocked;
      assert exists e :: e in X && !Blocked(key, good, block, es, X, e) by {
        assert !Stuck(key, good, block, es, X);
      }
      var e :| e in X && !Blocked(key, good, block, es, X, e);
      var i :| 0 <= i < |left| && left[i] == e;
      NextBlock(key, good, block, es, done, X, e);
      MovedReorders(done, left, i);
      hide Reordered, FirstsGood, NoneStuck, Flatten;
      OrdersChain(es, done + left, done + [e] + Without(left, i));
      fs := Grow(key, good, block, es, done + [e], Without(left, i));
    }
  }

  lemma OrdersChain<T>(a: seq<T>, b: seq<T>, c: seq<T>)
    requires Reordered(a, b) && Reordered(b, c)
    ensures Reordered(a, c)
  {
  }

  lemma {:induction false} NextBlock<T(!new), V(!new), K>(key: V -> Option<K>, good: V -> bool, block: T -> seq<V>,
                                                          es: seq<T>, done: seq<T>, X: set<T>, e: T)
    requires FirstsGood(key, good, Flatten(block, done)) && !Blocked(key, good, block, es, X, e)
    requires forall d :: d in es && d !in X ==> d in done
    ensures FirstsGood(key, good, Flatten(block, done + [e]))
  {
    hide FirstsGood, Flatten;
    var before, b := Flatten(block, done), block(e);
    forall i | 0 <= i < |b| && key(b[i]).Some?
      ensures Has(key, before + b[..i], key(b[i]).value) || good(b[i])
    {
      var k := key(b[i]).value;
      assert b[i] in b;
      if !good(b[i]) {
        var d, v :| d in es && d !in X && v in block(d) && key(v) == Some(k) && good(v);
        var n :| 0 <= n < |done| && done[n] == d;
        FlattenMembers(block, done, v);
        var j :| 0 <= j < |before| && before[j] == v;
        assert Has(key, before, k);
        HasJoin(key, before, b[..i], k);
      }
    }
    FlattenNext(block, done, e);
    GoodJoin(key, good, before, b);
  }

  /** In a good order, the first block of any set is not blocked. */
  lemma {:induction false} FirstIsFree<T(!new), V(!new), K>(key: V -> Option<K>, good: V -> bool, block: T -> seq<V>,
                                                            es: seq<T>, X: set<T>, fs: seq<T>) returns (e: T)
    requires Uniform(key, good, block) && Reordered(es, fs) && FirstsGood(key, good, Flatten(block, fs))
    requires X != {} && forall d :: d in X ==> d in es
    ensures e in X && !Blocked(key, good, block, es, X, e)
  {
    ReorderedMembers(es, fs);
    var n := FirstIn(fs, X);
    var done, later := fs[..n], fs[n + 1..];
    e := fs[n];
    assert fs == done + [e] + later;
    FlattenJoin(block, done + [e], later);
    FlattenNext(block, done, e);
    hide Flatten, FirstsGood, Reordered;
    var before, b := Flatten(block, done), block(e);
    GoodJoin(key, good, before + b, Flatten(block, later));
    GoodJoin(key, good, before, b);
    forall v | v in b && key(v).Some? && !good(v)
      ensures Offered(key, good, block, es, X, key(v).value)
    {
      if !Has(key, before, key(v).value) {
        var j :| 0 <= j < |b| && b[j] == v;
        var w := GoodOne(key, good, before, b, key(v).value);
        assert false;
      }
      var w := GoodBefore(key, good, before, key(v).value);
      FlattenMembers(block, done, w);
      var j :| 0 <= j < |done| && w in block(done[j]);
      assert done[j] == fs[j] && fs[j] in fs;
    }
  }

  lemma {:induction false} GoodBefore<V, K>(key: V -> Option<K>, good: V -> bool, s: seq<V>, k: K) returns (v: V)
    requires FirstsGood(key, good, s) && Has(key, s, k)
    ensures v in s && key(v) == Some(k) && good(v)
  {
    v := GoodOne(key, good, [], s, k);
  }

  /** The first position of an element of `X`. */
  lemma {:induction false} FirstIn<T>(fs: seq<T>, X: set<T>) returns (n: nat)
    requires exists i :: 0 <= i < |fs| && fs[i] in X
    ensures n < |fs| && fs[n] in X && forall j :: 0 <= j < n ==> fs[j] !in X
  {
    n := 0;
    while fs[n] !in X
      invariant n < |fs| && forall j :: 0 <= j < n ==> fs[j] !in X
      decreases |fs| - n
    {
      n := n + 1;
    }
  }
}
