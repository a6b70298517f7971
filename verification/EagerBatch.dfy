/** What the loaders share: collecting the keys of a batch, finding its rows by key, and why one batch
    finds for every key what a query for that key would. */
module EagerBatch {
  import opened Results
  import opened Selections

  /** The nodes among the first `n` whose key is `k`, in order. */
  ghost function Bucket<N>(nodes: seq<N>, fks: seq<Option<int>>, k: int, n: nat): seq<N>
    requires n <= |nodes| == |fks|
  {
    if n == 0 then []
    else Bucket(nodes, fks, k, n - 1) + if fks[n - 1] == Some(k) then [nodes[n - 1]] else []
  }

  lemma {:induction false} BucketHolds<N>(nodes: seq<N>, fks: seq<Option<int>>, k: int, n: nat, i: nat)
    requires i < n <= |nodes| == |fks| && fks[i] == Some(k)
    ensures nodes[i] in Bucket(nodes, fks, k, n)
  {
    if i < n - 1 {
      BucketHolds(nodes, fks, k, n - 1, i);
    }
  }

  lemma {:induction false} BucketFrom<N>(nodes: seq<N>, fks: seq<Option<int>>, k: int, n: nat, j: nat) returns (i: nat)
    requires n <= |nodes| == |fks| && j < |Bucket(nodes, fks, k, n)|
    ensures i < n && nodes[i] == Bucket(nodes, fks, k, n)[j] && fks[i] == Some(k)
  {
    if j < |Bucket(nodes, fks, k, n - 1)| {
      i := BucketFrom(nodes, fks, k, n - 1, j);
    } else {
      i := n - 1;
    }
  }

  /** The index holds the buckets of the first `n` nodes, and no empty ones. */
  ghost predicate Filed<N>(nodes: seq<N>, fks: seq<Option<int>>, nodeids: map<int, seq<N>>, n: nat)
    requires n <= |nodes| == |fks|
  {
    && (forall k :: k in nodeids ==> nodeids[k] != [])
    && forall k :: Bucket(nodes, fks, k, n) == if k in nodeids then nodeids[k] else []
  }

  /** The index with one more node in the bucket of `k`. */
  ghost function FiledUnder<N>(nodeids: map<int, seq<N>>, k: int, x: N): map<int, seq<N>> {
    nodeids[k := (if k in nodeids then nodeids[k] else []) + [x]]
  }

  lemma {:induction false} BucketNext<N>(nodes: seq<N>, fks: seq<Option<int>>, k: int, n: nat)
    requires n < |nodes| == |fks|
    ensures Bucket(nodes, fks, k, n + 1) == Bucket(nodes, fks, k, n) + if fks[n] == Some(k) then [nodes[n]] else []
  {
  }

  lemma {:induction false} FiledNext<N>(nodes: seq<N>, fks: seq<Option<int>>, nodeids: map<int, seq<N>>, n: nat)
    requires n < |nodes| == |fks| && Filed(nodes, fks, nodeids, n)
    ensures fks[n].None? ==> Filed(nodes, fks, nodeids, n + 1)
    ensures fks[n].Some? ==> Filed(nodes, fks, FiledUnder(nodeids, fks[n].value, nodes[n]), n + 1)
  {
    hide Bucket;
    forall k
      ensures Bucket(nodes, fks, k, n + 1) ==
              (if k in nodeids then nodeids[k] else []) + if fks[n] == Some(k) then [nodes[n]] else []
    {
      BucketNext(nodes, fks, k, n);
    }
  }

  /** To-one edges: the distinct non-nil keys in order of first use, and the nodes behind each. */
  method CollectKeys<N(==)>(nodes: seq<N>, fks: seq<Option<int>>) returns (ids: seq<int>, nodeids: map<int, seq<N>>)
    requires |fks| == |nodes|
    ensures NoDup(ids) && Members(ids) == nodeids.Keys
    ensures forall k :: k in nodeids <==> Bucket(nodes, fks, k, |nodes|) != []
    ensures forall k :: k in nodeids ==> nodeids[k] == Bucket(nodes, fks, k, |nodes|)
  {
    ids, nodeids := Keys(nodes, fks);
    assert forall k :: Bucket(nodes, fks, k, |nodes|) == if k in nodeids then nodeids[k] else [];
  }

  method Keys<N(==)>(nodes: seq<N>, fks: seq<Option<int>>) returns (ids: seq<int>, nodeids: map<int, seq<N>>)
    requires |fks| == |nodes|
    ensures NoDup(ids) && Members(ids) == nodeids.Keys && Filed(nodes, fks, nodeids, |nodes|)
  {
    hide Members, Bucket, NoDup, Filed, FiledUnder;
    ids, nodeids := [], map[];
    NothingFiled(nodes, fks);
    for i := 0 to |nodes|
      invariant NoDup(ids) && Members(ids) == nodeids.Keys && Filed(nodes, fks, nodeids, i)
    {
      FiledNext(nodes, fks, nodeids, i);
      if fks[i].None? {
        continue;
      }
      var fk := fks[i].value;
      ghost var before := nodeids;
      MembersAppend(ids, fk);
      if fk !in nodeids {
        NoDupAppend(ids, fk);
        ids := ids + [fk];
        nodeids := nodeids[fk := []];
      }
      nodeids := nodeids[fk := nodeids[fk] + [nodes[i]]];
      WriteTwice(before, fk, nodes[i]);
    }
  }

  lemma {:induction false} NothingFiled<N>(nodes: seq<N>, fks: seq<Option<int>>)
    requires |fks| == |nodes|
    ensures var ids: seq<int> := []; NoDup(ids) && Members(ids) == {} && Filed(nodes, fks, map[], 0)
  {
  }

  /** Making room for a bucket and then adding to it is one write. */
  lemma {:induction false} WriteTwice<N>(m: map<int, seq<N>>, k: int, x: N)
    ensures var room := if k in m then m else m[k := []];
            room[k := room[k] + [x]] == FiledUnder(m, k, x)
    ensures FiledUnder(m, k, x).Keys == if k in m then m.Keys else m.Keys + {k}
  {
  }

  /** Some node has the key. */
  ghost predicate Used(fks: seq<Option<int>>, k: int) {
    exists i :: 0 <= i < |fks| && fks[i] == Some(k)
  }

  lemma {:induction false} KeysCollected<N>(nodes: seq<N>, fks: seq<Option<int>>, ids: seq<int>,
                                            nodeids: map<int, seq<N>>)
    requires |fks| == |nodes| && Members(ids) == nodeids.Keys
    requires forall k :: k in nodeids <==> Bucket(nodes, fks, k, |nodes|) != []
    ensures forall i :: 0 <= i < |nodes| && fks[i].Some? ==> fks[i].value in ids
    ensures ids == [] && (forall i :: 0 <= i < |fks| ==> fks[i].Some?) ==> nodes == []
    ensures forall k :: k in ids ==> Used(fks, k)
  {
    forall k | k in ids
      ensures Used(fks, k)
    {
      assert k in Members(ids);
      var i := BucketFrom(nodes, fks, k, |nodes|, 0);
    }
    forall i | 0 <= i < |nodes| && fks[i].Some?
      ensures fks[i].value in ids
    {
      BucketHolds(nodes, fks, fks[i].value, |nodes|, i);
      assert fks[i].value in Members(ids);
    }
    if nodes != [] {
      var first := fks[0];
    }
  }

  /** Position of the last neighbour whose id is the key; a later neighbour overwrites an earlier one. */
  ghost function Hit(ids: seq<int>, fk: Option<int>, n: nat): (j: Option<nat>)
    requires n <= |ids|
    ensures j.Some? ==> j.value < n && fk == Some(ids[j.value])
    ensures j.None? ==> forall i :: 0 <= i < n ==> fk != Some(ids[i])
  {
    if n == 0 then None
    else if fk == Some(ids[n - 1]) then Some(n - 1)
    else Hit(ids, fk, n - 1)
  }

  lemma {:induction false} HitNothing(ids: seq<int>, fks: seq<Option<int>>)
    ensures forall i :: 0 <= i < |fks| ==> Hit(ids, fks[i], 0) == None
  {
  }

  lemma {:induction false} HitNext(ids: seq<int>, fks: seq<Option<int>>, n: nat)
    requires n < |ids|
    ensures forall i :: 0 <= i < |fks| ==>
              Hit(ids, fks[i], n + 1) == if fks[i] == Some(ids[n]) then Some(n) else Hit(ids, fks[i], n)
  {
  }

  ghost function Pick<E>(es: seq<E>, j: Option<nat>): Option<E>
    requires j.Some? ==> j.value < |es|
  {
    if j.Some? then Some(es[j.value]) else None
  }

  /** What a batch over all collected ids finds for one key is what a lookup of that key finds. */
  lemma {:induction false} BatchLookup<R(!new)>(table: seq<R>, where: R -> bool, id: R -> int, ids: seq<int>,
                                                rows: seq<R>,
                             rowIds: seq<int>, fk: Option<int>)
    requires forall i, j :: 0 <= i < j < |table| ==> id(table[i]) != id(table[j])
    requires forall r :: r in rows <==> r in table && where(r) && id(r) in ids
    requires |rowIds| == |rows| && forall j :: 0 <= j < |rows| ==> rowIds[j] == id(rows[j])
    requires fk.Some? ==> fk.value in ids
    ensures Lookup(table, (r: R) => where(r) && fk == Some(id(r)), Pick(rows, Hit(rowIds, fk, |rowIds|)))
  {
    var hit := Hit(rowIds, fk, |rowIds|);
    forall r | r in table && where(r) && fk == Some(id(r))
      ensures Pick(rows, hit) == Some(r)
    {
      var j :| 0 <= j < |rows| && rows[j] == r;
      assert fk == Some(rowIds[j]);
      var h := rows[hit.value];
      assert h in rows && id(h) == id(r);
    }
    if hit.Some? {
      assert rows[hit.value] in rows;
    }
  }

  /** Every neighbour was asked for; otherwise the loaders report an unexpected foreign key. */
  ghost predicate AllAsked<N>(ids: seq<int>, nodeids: map<int, seq<N>>, n: nat)
    requires n <= |ids|
  {
    forall j :: 0 <= j < n ==> ids[j] in nodeids
  }

  /** With distinct nodes, a node is in the bucket of its own key and no other. */
  lemma {:induction false} InBucket<N>(nodes: seq<N>, fks: seq<Option<int>>, k: int, i: nat)
    requires i < |nodes| == |fks| && NoDup(nodes)
    ensures nodes[i] in Bucket(nodes, fks, k, |nodes|) <==> fks[i] == Some(k)
  {
    var b := Bucket(nodes, fks, k, |nodes|);
    if fks[i] == Some(k) {
      BucketHolds(nodes, fks, k, |nodes|, i);
    }
    if nodes[i] in b {
      var j :| 0 <= j < |b| && b[j] == nodes[i];
      var from := BucketFrom(nodes, fks, k, |nodes|, j);
    }
  }

  /** A bucket holds nodes only, and a node is in it exactly when its key matches. */
  lemma {:induction false} BucketTargets<N>(nodes: seq<N>, fks: seq<Option<int>>, k: int)
    requires |nodes| == |fks| && NoDup(nodes)
    ensures forall j :: 0 <= j < |Bucket(nodes, fks, k, |nodes|)| ==> Bucket(nodes, fks, k, |nodes|)[j] in nodes
    ensures forall i :: 0 <= i < |nodes| ==> (nodes[i] in Bucket(nodes, fks, k, |nodes|) <==> fks[i] == Some(k))
  {
    forall i | 0 <= i < |nodes|
      ensures nodes[i] in Bucket(nodes, fks, k, |nodes|) <==> fks[i] == Some(k)
    {
      InBucket(nodes, fks, k, i);
    }
    forall j | 0 <= j < |Bucket(nodes, fks, k, |nodes|)|
      ensures Bucket(nodes, fks, k, |nodes|)[j] in nodes
    {
      var i := BucketFrom(nodes, fks, k, |nodes|, j);
    }
  }

  /** First loop: the ids to ask for and the node behind each. Distinct ids, as primary keys are. */
  method IndexNodes<N(==)>(nodes: seq<N>, ids: seq<int>) returns (nodeids: map<int, N>)
    requires |ids| == |nodes| && NoDup(ids)
    ensures nodeids.Keys == Members(ids)
    ensures forall i :: 0 <= i < |nodes| ==> ids[i] in nodeids && nodeids[ids[i]] == nodes[i]
  {
    nodeids := map[];
    for i := 0 to |nodes|
      invariant nodeids.Keys == Members(ids[..i])
      invariant forall j :: 0 <= j < i ==> ids[j] in nodeids && nodeids[ids[j]] == nodes[j]
    {
      MembersAppend(ids[..i], ids[i]);
      assert ids[..i + 1] == ids[..i] + [ids[i]];
      nodeids := nodeids[ids[i] := nodes[i]];
    }
    assert ids[..|ids|] == ids;
  }

  /** Every neighbour carries a key and the key belongs to a node. */
  ghost predicate AllOwned<N>(keys: seq<Option<int>>, nodeids: map<int, N>, n: nat)
    requires n <= |keys|
  {
    forall j :: 0 <= j < n ==> keys[j].Some? && keys[j].value in nodeids
  }

  lemma {:induction false} AllOwnedByKeys<N>(keys: seq<Option<int>>, fks: seq<int>, nodeids: map<int, N>)
    requires nodeids.Keys == Members(fks)
    requires forall j :: 0 <= j < |keys| ==> keys[j].Some? && keys[j].value in fks
    ensures AllOwned(keys, nodeids, |keys|)
  {
    forall j | 0 <= j < |keys|
      ensures keys[j].value in nodeids
    {
      assert keys[j].value in Members(fks);
    }
  }

  lemma {:induction false} BucketInOrder<R>(rows: seq<R>, keys: seq<Option<int>>, k: int, n: nat, order: R -> int)
    requires n <= |rows| == |keys| && NoDup(rows) && Sorted(order, rows)
    ensures NoDup(Bucket(rows, keys, k, n)) && Sorted(order, Bucket(rows, keys, k, n))
  {
    if n > 0 {
      BucketInOrder(rows, keys, k, n - 1, order);
      var b := Bucket(rows, keys, k, n - 1);
      forall j | 0 <= j < |b|
        ensures b[j] != rows[n - 1] && order(b[j]) <= order(rows[n - 1])
      {
        var i := BucketFrom(rows, keys, k, n - 1, j);
      }
    }
  }

  /** The share of one key in a batch is the selection of that key. */
  lemma {:induction false} BatchShare<R(!new)>(table: seq<R>, where: R -> bool, key: R -> Option<int>,
                                        order: R -> int, ids: seq<int>,
                            rows: seq<R>, keys: seq<Option<int>>, k: int)
    requires Selection(table, (r: R) => where(r) && key(r).Some? && key(r).value in ids, order, rows)
    requires |keys| == |rows| && forall j :: 0 <= j < |rows| ==> keys[j] == key(rows[j])
    requires k in ids
    ensures Selection(table, (r: R) => where(r) && key(r) == Some(k), order, Bucket(rows, keys, k, |rows|))
  {
    var share := Bucket(rows, keys, k, |rows|);
    BucketInOrder(rows, keys, k, |rows|, order);
    forall r | r in table && where(r) && key(r) == Some(k)
      ensures r in share
    {
      assert r in rows;
      var j :| 0 <= j < |rows| && rows[j] == r;
      BucketHolds(rows, keys, k, |rows|, j);
    }
    forall r | r in share
      ensures r in table && where(r) && key(r) == Some(k)
    {
      var j :| 0 <= j < |share| && share[j] == r;
      var i := BucketFrom(rows, keys, k, |rows|, j);
      assert rows[i] in rows;
    }
  }

  lemma {:induction false} ShareWithin<N>(neighbors: seq<N>, keys: seq<Option<int>>, k: int)
    requires |keys| == |neighbors|
    ensures forall c :: c in Bucket(neighbors, keys, k, |neighbors|) ==> c in neighbors
  {
    var b := Bucket(neighbors, keys, k, |neighbors|);
    forall c | c in b
      ensures c in neighbors
    {
      var j :| 0 <= j < |b| && b[j] == c;
      var m := BucketFrom(neighbors, keys, k, |neighbors|, j);
    }
  }

  // ---------- One-to-many: nothing lost, nothing doubled ----------

  /** Total length of the lists the first `n` neighbours give the owners with these ids. */
  ghost function Handed<N>(ids: seq<int>, ns: seq<N>, keys: seq<Option<int>>, n: nat): nat
    requires n <= |keys| == |ns|
  {
    if ids == [] then 0
    else Handed(ids[..|ids| - 1], ns, keys, n) + |Bucket(ns, keys, ids[|ids| - 1], n)|
  }

  lemma {:induction false} HandedStep<N>(ids: seq<int>, ns: seq<N>, keys: seq<Option<int>>, n: nat)
    requires n < |keys| == |ns| && NoDup(ids)
    ensures Handed(ids, ns, keys, n + 1) ==
            Handed(ids, ns, keys, n) + if keys[n].Some? && keys[n].value in ids then 1 else 0
  {
    if ids != [] {
      var front, last := ids[..|ids| - 1], ids[|ids| - 1];
      assert ids == front + [last];
      HandedStep(front, ns, keys, n);
    }
  }

  lemma {:induction false} HandedNothing<N>(ids: seq<int>, ns: seq<N>, keys: seq<Option<int>>)
    requires |keys| == |ns|
    ensures Handed(ids, ns, keys, 0) == 0
  {
    if ids != [] {
      HandedNothing(ids[..|ids| - 1], ns, keys);
    }
  }

  /** When every neighbour's key is the id of one owner, the lists the owners get have, together, as
      many entries as there are neighbours. */
  lemma {:induction false} ListsPartitionNeighbors<N>(ids: seq<int>, ns: seq<N>, keys: seq<Option<int>>, n: nat)
    requires n <= |keys| == |ns| && NoDup(ids)
    requires forall j :: 0 <= j < |keys| ==> keys[j].Some? && keys[j].value in ids
    ensures Handed(ids, ns, keys, n) == n
  {
    hide Handed, NoDup;
    if n == 0 {
      HandedNothing(ids, ns, keys);
    } else {
      ListsPartitionNeighbors(ids, ns, keys, n - 1);
      HandedStep(ids, ns, keys, n - 1);
    }
  }

  function Lengths<E>(lists: seq<seq<E>>): nat {
    if lists == [] then 0 else Lengths(lists[..|lists| - 1]) + |lists[|lists| - 1]|
  }

  /** Lists that are the owners' shares have, together, as many entries as there are neighbours. */
  lemma {:induction false} SharesPartition<N>(ids: seq<int>, ns: seq<N>, keys: seq<Option<int>>, lists: seq<seq<N>>)
    requires |keys| == |ns| && NoDup(ids) && |lists| == |ids|
    requires forall j :: 0 <= j < |keys| ==> keys[j].Some? && keys[j].value in ids
    requires forall i :: 0 <= i < |ids| ==> lists[i] == Bucket(ns, keys, ids[i], |ns|)
    ensures Lengths(lists) == |ns|
  {
    hide Bucket;
    ListsPartitionNeighbors(ids, ns, keys, |ns|);
    LengthsHanded(ids, ns, keys, lists);
  }

  lemma {:induction false} LengthsHanded<N>(ids: seq<int>, ns: seq<N>, keys: seq<Option<int>>, lists: seq<seq<N>>)
    requires |keys| == |ns| && |lists| == |ids|
    requires forall i :: 0 <= i < |ids| ==> lists[i] == Bucket(ns, keys, ids[i], |ns|)
    ensures Lengths(lists) == Handed(ids, ns, keys, |ns|)
  {
    hide Bucket;
    if ids != [] {
      LengthsHanded(ids[..|ids| - 1], ns, keys, lists[..|ids| - 1]);
    }
  }
}
