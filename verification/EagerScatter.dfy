/** Scattering the rows of a batch back over the nodes that asked for them, edge by edge. */
module EagerScatter {
  import opened Results
  import opened Selections
  import opened EagerSpec
  import opened EagerNodes
  import opened EagerBatch

  // ---------- The parent of an account ----------

  ghost function Pointer(a: Option<Account>): Account? {
    if a.Some? then a.value else null
  }

  ghost function Ids(ns: seq<Account>): (ids: seq<int>)
    ensures |ids| == |ns| && forall j :: 0 <= j < |ns| ==> ids[j] == ns[j].fields.id
  {
    seq(|ns|, j requires 0 <= j < |ns| => ns[j].fields.id)
  }

  /** The second loop of loadParent: each neighbour becomes the parent of the nodes in its bucket. */
  method AttachParents(nodes: seq<Account>, ghost fks: seq<Option<int>>, nodeids: map<int, seq<Account>>,
                       neighbors: seq<Account>) returns (ok: bool)
    requires |fks| == |nodes| && NoDup(nodes)
    requires forall k :: k in nodeids ==> nodeids[k] == Bucket(nodes, fks, k, |nodes|)
    requires forall k :: k in nodeids <==> Bucket(nodes, fks, k, |nodes|) != []
    requires forall i :: 0 <= i < |nodes| ==> nodes[i].parent == null
    modifies nodes`parent
    ensures ok <==> AllAsked(Ids(neighbors), nodeids, |neighbors|)
    ensures ok ==> forall i :: 0 <= i < |nodes| ==>
                     nodes[i].parent == Pointer(Pick(neighbors, Hit(Ids(neighbors), fks[i], |neighbors|)))
  {
    hide Bucket, NoDup, Hit, Ids;
    HitNothing(Ids(neighbors), fks);
    for m := 0 to |neighbors|
      invariant AllAsked(Ids(neighbors), nodeids, m)
      invariant forall i :: 0 <= i < |nodes| ==>
                  nodes[i].parent == Pointer(Pick(neighbors, Hit(Ids(neighbors), fks[i], m)))
    {
      var n := neighbors[m];
      if n.fields.id !in nodeids {
        return false;
      }
      var targets := nodeids[n.fields.id];
      BucketTargets(nodes, fks, n.fields.id);
      HitNext(Ids(neighbors), fks, m);
      SetParents(targets, n);
    }
    return true;
  }

  /** The assign callback of the parent edge, for each node of a bucket. */
  method SetParents(targets: seq<Account>, n: Account)
    modifies targets`parent
    ensures forall a :: a in targets ==> a.parent == n
  {
    for t := 0 to |targets|
      invariant forall i :: 0 <= i < t ==> targets[i].parent == n
    {
      targets[t].parent := n;
    }
  }

  /** Neighbours show the id they were asked by, whatever fields were selected. */
  lemma {:induction false} NeighborIds(db: Database, q: AccountQuery, ids: seq<int>, neighbors: seq<Account>)
    requires ResultNav(db, q, (a: AccountRow) => a.id in ids, None, Trees(neighbors))
    requires forall j :: 0 <= j < |neighbors| ==> neighbors[j].tree.fields == neighbors[j].fields
    ensures forall j :: 0 <= j < |neighbors| ==>
              && AccountNav(db, q, None, neighbors[j].tree)
              && Ids(neighbors)[j] == neighbors[j].tree.origin.id && Ids(neighbors)[j] in ids
  {
    var rows := AccountRows(Trees(neighbors));
    forall j | 0 <= j < |neighbors|
      ensures AccountNav(db, q, None, neighbors[j].tree)
      ensures Ids(neighbors)[j] == rows[j].id && rows[j].id in ids
    {
      assert AccountNav(db, q, None, Trees(neighbors)[j]);
      AccountKeysKept(rows[j], q, None);
      assert rows[j] in rows;
    }
  }

  lemma {:induction false} ParentsNavigate(db: Database, q: AccountQuery, ids: seq<int>, neighbors: seq<Account>,
                                           fk: Option<int>)
    requires db.Valid() && (fk.Some? ==> fk.value in ids)
    requires ResultNav(db, q, (a: AccountRow) => a.id in ids, None, Trees(neighbors))
    requires forall j :: 0 <= j < |neighbors| ==> neighbors[j].tree.fields == neighbors[j].fields
    ensures ToOneNav(db, Some(q), fk, TreeOf(Pointer(Pick(neighbors, Hit(Ids(neighbors), fk, |neighbors|)))))
  {
    hide AccountNav, Hit, Trees, NoDup, Sorted;
    NeighborIds(db, q, ids, neighbors);
    var rows := AccountRows(Trees(neighbors));
    BatchLookup(db.accounts, q.where, (a: AccountRow) => a.id, ids, rows, Ids(neighbors), fk);
  }

  lemma {:induction false} NoKeyNavigates(db: Database, q: AccountQuery)
    ensures ToOneNav(db, Some(q), None, None)
  {
  }

  // ---------- The children of an account ----------

  ghost function ParentKeys(ns: seq<Account>): (keys: seq<Option<int>>)
    ensures |keys| == |ns| && forall j :: 0 <= j < |ns| ==> keys[j] == ns[j].fields.parentId
  {
    seq(|ns|, j requires 0 <= j < |ns| => ns[j].fields.parentId)
  }

  /** `nodeids` finds each node under its own id and nothing else. */
  ghost predicate Indexed(nodes: seq<Account>, nodeids: map<int, Account>) {
    && (forall i :: 0 <= i < |nodes| ==> nodes[i].fields.id in nodeids && nodeids[nodes[i].fields.id] == nodes[i])
    && (forall k :: k in nodeids ==> nodeids[k] in nodes && nodeids[k].fields.id == k)
  }

  /** Second loop of loadChildren. */
  method AttachChildren(nodes: seq<Account>, nodeids: map<int, Account>, neighbors: seq<Account>) returns (ok: bool)
    requires Indexed(nodes, nodeids)
    requires forall i :: 0 <= i < |nodes| ==> nodes[i].children == []
    modifies nodes`children
    ensures ok <==> AllOwned(ParentKeys(neighbors), nodeids, |neighbors|)
    ensures ok ==> forall i :: 0 <= i < |nodes| ==>
                     nodes[i].children == Bucket(neighbors, ParentKeys(neighbors), nodes[i].fields.id, |neighbors|)
  {
    ghost var keys := ParentKeys(neighbors);
    assert forall k :: Bucket(neighbors, keys, k, 0) == [];
    hide Bucket, Indexed, ParentKeys;
    for m := 0 to |neighbors|
      invariant AllOwned(keys, nodeids, m)
      invariant forall i :: 0 <= i < |nodes| ==> nodes[i].children == Bucket(neighbors, keys, nodes[i].fields.id, m)
    {
      var n := neighbors[m];
      var fk := n.fields.parentId;
      if fk.None? {
        return false;
      }
      if fk.value !in nodeids {
        return false;
      }
      var node := nodeids[fk.value];
      ShareGrows(nodes, nodeids, neighbors, m);
      AppendChild(nodes, node, n);
    }
    return true;
  }

  /** One more neighbour goes to the node it names and to no other. */
  lemma {:induction false} ShareGrows(nodes: seq<Account>, nodeids: map<int, Account>, neighbors: seq<Account>, m: nat)
    requires Indexed(nodes, nodeids) && m < |neighbors|
    requires neighbors[m].fields.parentId.Some? && neighbors[m].fields.parentId.value in nodeids
    ensures nodeids[neighbors[m].fields.parentId.value] in nodes
    ensures forall i :: 0 <= i < |nodes| ==>
      Bucket(neighbors, ParentKeys(neighbors), nodes[i].fields.id, m + 1) ==
      Bucket(neighbors, ParentKeys(neighbors), nodes[i].fields.id, m) +
        if nodes[i] == nodeids[neighbors[m].fields.parentId.value] then [neighbors[m]] else []
  {
    var k := neighbors[m].fields.parentId.value;
    assert k in nodeids;
    assert nodeids[k].fields.id == k;
    assert nodeids[k] in nodes;
  }

  /** The assign callback of the children edge. */
  method AppendChild(ghost nodes: seq<Account>, node: Account, n: Account)
    requires node in nodes
    modifies node`children
    ensures node.children == old(node.children) + [n]
  {
    node.children := node.children + [n];
  }

  lemma {:induction false} BucketTrees(ns: seq<Account>, keys: seq<Option<int>>, k: int, n: nat)
    requires n <= |ns| == |keys|
    ensures Trees(Bucket(ns, keys, k, n)) == Bucket(Trees(ns), keys, k, n)
  {
    if n > 0 {
      BucketTrees(ns, keys, k, n - 1);
      var b := Bucket(ns, keys, k, n - 1);
      assert (b + [ns[n - 1]])[..|b|] == b;
    }
  }

  lemma {:induction false} BucketRows(ts: seq<AccountTree>, keys: seq<Option<int>>, k: int, n: nat)
    requires n <= |ts| == |keys|
    ensures AccountRows(Bucket(ts, keys, k, n)) == Bucket(AccountRows(ts), keys, k, n)
  {
    if n > 0 {
      BucketRows(ts, keys, k, n - 1);
    }
  }

  predicate ChildOf(ids: seq<int>, a: AccountRow) {
    a.parentId.Some? && a.parentId.value in ids
  }

  /** Neighbours show the key they were asked by, whatever fields were selected. */
  lemma {:induction false} ChildrenOwned(db: Database, q: AccountQuery, ids: seq<int>, neighbors: seq<Account>)
    requires ResultNav(db, q, (a: AccountRow) => ChildOf(ids, a), Some("parent_account_id"), Trees(neighbors))
    requires forall j :: 0 <= j < |neighbors| ==> neighbors[j].tree.fields == neighbors[j].fields
    ensures forall j :: 0 <= j < |neighbors| ==>
              && AccountNav(db, q, Some("parent_account_id"), neighbors[j].tree)
              && ParentKeys(neighbors)[j] == neighbors[j].tree.origin.parentId
              && ParentKeys(neighbors)[j].Some? && ParentKeys(neighbors)[j].value in ids
  {
    var rows := AccountRows(Trees(neighbors));
    forall j | 0 <= j < |neighbors|
      ensures AccountNav(db, q, Some("parent_account_id"), neighbors[j].tree)
      ensures ParentKeys(neighbors)[j] == rows[j].parentId && ChildOf(ids, rows[j])
    {
      assert AccountNav(db, q, Some("parent_account_id"), Trees(neighbors)[j]);
      AccountKeysKept(rows[j], q, Some("parent_account_id"));
      assert rows[j] in rows;
    }
  }

  lemma {:induction false} ChildrenNavigate(db: Database, q: AccountQuery, ids: seq<int>, neighbors: seq<Account>,
                                            id: int)
    requires id in ids
    requires ResultNav(db, q, (a: AccountRow) => ChildOf(ids, a), Some("parent_account_id"), Trees(neighbors))
    requires forall j :: 0 <= j < |neighbors| ==> neighbors[j].tree.fields == neighbors[j].fields
    ensures ChildrenNav(db, Some(q), id, Trees(Bucket(neighbors, ParentKeys(neighbors), id, |neighbors|)))
  {
    hide AccountNav, Trees, NoDup, Sorted;
    var ts, keys := Trees(neighbors), ParentKeys(neighbors);
    var rows := AccountRows(ts);
    ChildrenOwned(db, q, ids, neighbors);
    assert Selection(db.accounts, (a: AccountRow) => q.where(a) && a.parentId.Some? && a.parentId.value in ids,
                     q.order, rows);
    BatchShare(db.accounts, q.where, (a: AccountRow) => a.parentId, q.order, ids, rows, keys, id);
    hide Bucket, Selection;
    BucketTrees(neighbors, keys, id, |neighbors|);
    BucketRows(ts, keys, id, |neighbors|);
    var mine := Bucket(ts, keys, id, |neighbors|);
    forall i | 0 <= i < |mine|
      ensures AccountNav(db, q, Some("parent_account_id"), mine[i])
    {
      var j := BucketFrom(ts, keys, id, |ts|, i);
    }
  }

  /** The first loop of loadChildren. */
  method IndexAccounts(nodes: seq<Account>) returns (fks: seq<int>, nodeids: map<int, Account>)
    requires NoDup(Ids(nodes))
    ensures fks == Ids(nodes) && nodeids.Keys == Members(fks) && Indexed(nodes, nodeids)
  {
    fks := seq(|nodes|, i requires 0 <= i < |nodes| => nodes[i].fields.id);
    nodeids := IndexNodes(nodes, fks);
    forall k | k in nodeids
      ensures nodeids[k] in nodes && nodeids[k].fields.id == k
    {
      assert k in fks;
      var i :| 0 <= i < |fks| && fks[i] == k;
    }
  }

  // ---------- The account and the group of a join row ----------

  ghost function GroupIds(ls: seq<Leaf<GroupRow>>): (ids: seq<int>)
    ensures |ids| == |ls| && forall j :: 0 <= j < |ls| ==> ids[j] == ls[j].fields.id
  {
    seq(|ls|, j requires 0 <= j < |ls| => ls[j].fields.id)
  }

  /** The second loop of loadAccount. */
  method AttachAccounts(nodes: seq<AccountGroup>, ghost fks: seq<Option<int>>, nodeids: map<int, seq<AccountGroup>>,
                        neighbors: seq<Account>) returns (ok: bool)
    requires |fks| == |nodes| && NoDup(nodes)
    requires forall k :: k in nodeids ==> nodeids[k] == Bucket(nodes, fks, k, |nodes|)
    requires forall k :: k in nodeids <==> Bucket(nodes, fks, k, |nodes|) != []
    requires forall i :: 0 <= i < |nodes| ==> nodes[i].account == null
    modifies nodes`account
    ensures ok <==> AllAsked(Ids(neighbors), nodeids, |neighbors|)
    ensures ok ==> forall i :: 0 <= i < |nodes| ==>
                     nodes[i].account == Pointer(Pick(neighbors, Hit(Ids(neighbors), fks[i], |neighbors|)))
  {
    hide Bucket, NoDup, Hit, Ids;
    HitNothing(Ids(neighbors), fks);
    for m := 0 to |neighbors|
      invariant AllAsked(Ids(neighbors), nodeids, m)
      invariant forall i :: 0 <= i < |nodes| ==>
                  nodes[i].account == Pointer(Pick(neighbors, Hit(Ids(neighbors), fks[i], m)))
    {
      var n := neighbors[m];
      if n.fields.id !in nodeids {
        return false;
      }
      var targets := nodeids[n.fields.id];
      BucketTargets(nodes, fks, n.fields.id);
      HitNext(Ids(neighbors), fks, m);
      SetAccounts(targets, n);
    }
    return true;
  }

  /** The assign callback of the account edge, for each node of a bucket. */
  method SetAccounts(targets: seq<AccountGroup>, n: Account)
    modifies targets`account
    ensures forall a :: a in targets ==> a.account == n
  {
    for t := 0 to |targets|
      invariant forall i :: 0 <= i < t ==> targets[i].account == n
    {
      targets[t].account := n;
    }
  }

  /** The second loop of loadGroup. */
  method AttachGroup(nodes: seq<AccountGroup>, ghost fks: seq<Option<int>>, nodeids: map<int, seq<AccountGroup>>,
                     neighbors: seq<Leaf<GroupRow>>) returns (ok: bool)
    requires |fks| == |nodes| && NoDup(nodes)
    requires forall k :: k in nodeids ==> nodeids[k] == Bucket(nodes, fks, k, |nodes|)
    requires forall k :: k in nodeids <==> Bucket(nodes, fks, k, |nodes|) != []
    requires forall i :: 0 <= i < |nodes| ==> nodes[i].group == None
    modifies nodes`group
    ensures ok <==> AllAsked(GroupIds(neighbors), nodeids, |neighbors|)
    ensures ok ==> forall i :: 0 <= i < |nodes| ==>
                     nodes[i].group == Pick(neighbors, Hit(GroupIds(neighbors), fks[i], |neighbors|))
  {
    hide Bucket, NoDup, Hit, GroupIds;
    HitNothing(GroupIds(neighbors), fks);
    for m := 0 to |neighbors|
      invariant AllAsked(GroupIds(neighbors), nodeids, m)
      invariant forall i :: 0 <= i < |nodes| ==> nodes[i].group == Pick(neighbors, Hit(GroupIds(neighbors), fks[i], m))
    {
      var n := neighbors[m];
      if n.fields.id !in nodeids {
        return false;
      }
      var targets := nodeids[n.fields.id];
      BucketTargets(nodes, fks, n.fields.id);
      HitNext(GroupIds(neighbors), fks, m);
      SetGroups(targets, n);
    }
    return true;
  }

  /** The assign callback of the group edge, for each node of a bucket. */
  method SetGroups(targets: seq<AccountGroup>, n: Leaf<GroupRow>)
    modifies targets`group
    ensures forall a :: a in targets ==> a.group == Some(n)
  {
    for t := 0 to |targets|
      invariant forall i :: 0 <= i < t ==> targets[i].group == Some(n)
    {
      targets[t].group := Some(n);
    }
  }

  lemma {:induction false} GroupsFound(db: Database, gq: LeafQuery<GroupRow>, ids: seq<int>, rows: seq<GroupRow>,
                                       neighbors: seq<Leaf<GroupRow>>)
    requires db.Valid() && Selection(db.groups, (g: GroupRow) => gq.where(g) && g.id in ids, gq.order, rows)
    requires |neighbors| == |rows| && forall i :: 0 <= i < |rows| ==>
               neighbors[i] == Leaf(rows[i], ScanGroup(rows[i], LeafColumns(gq.fields, db.groupColumns)))
    ensures forall j :: 0 <= j < |rows| ==> GroupIds(neighbors)[j] == rows[j].id && rows[j].id in ids
  {
    LeafIdKept(gq.fields, db.groupColumns);
    assert forall j :: 0 <= j < |rows| ==> rows[j] in rows;
  }

  lemma {:induction false} GroupNavigates(db: Database, gq: LeafQuery<GroupRow>, ids: seq<int>, rows: seq<GroupRow>,
                                          neighbors: seq<Leaf<GroupRow>>, fk: int)
    requires db.Valid() && Selection(db.groups, (g: GroupRow) => gq.where(g) && g.id in ids, gq.order, rows)
    requires |neighbors| == |rows| && forall i :: 0 <= i < |rows| ==>
               neighbors[i] == Leaf(rows[i], ScanGroup(rows[i], LeafColumns(gq.fields, db.groupColumns)))
    requires fk in ids
    ensures GroupNav(db, Some(gq), fk, Pick(neighbors, Hit(GroupIds(neighbors), Some(fk), |neighbors|)))
  {
    GroupsFound(db, gq, ids, rows, neighbors);
    BatchLookup(db.groups, gq.where, (g: GroupRow) => g.id, ids, rows, GroupIds(neighbors), Some(fk));
  }

  // ---------- The join rows of an account ----------

  ghost function OwnerKeys(ns: seq<AccountGroup>): (keys: seq<Option<int>>)
    ensures |keys| == |ns| && forall j :: 0 <= j < |ns| ==> keys[j] == Some(ns[j].fields.accountId)
  {
    seq(|ns|, j requires 0 <= j < |ns| => Some(ns[j].fields.accountId))
  }

  lemma {:induction false} JoinShareGrows(nodes: seq<Account>, nodeids: map<int, Account>,
                                          neighbors: seq<AccountGroup>, m: nat)
    requires Indexed(nodes, nodeids) && m < |neighbors| && neighbors[m].fields.accountId in nodeids
    ensures nodeids[neighbors[m].fields.accountId] in nodes
    ensures forall i :: 0 <= i < |nodes| ==>
      Bucket(neighbors, OwnerKeys(neighbors), nodes[i].fields.id, m + 1) ==
      Bucket(neighbors, OwnerKeys(neighbors), nodes[i].fields.id, m) +
        if nodes[i] == nodeids[neighbors[m].fields.accountId] then [neighbors[m]] else []
  {
    var k := neighbors[m].fields.accountId;
    assert k in nodeids;
    assert nodeids[k].fields.id == k;
    assert nodeids[k] in nodes;
  }

  /** Second loop of loadAccountGroups. */
  method AttachJoins(nodes: seq<Account>, nodeids: map<int, Account>, neighbors: seq<AccountGroup>) returns (ok: bool)
    requires Indexed(nodes, nodeids)
    requires forall i :: 0 <= i < |nodes| ==> nodes[i].accountGroups == []
    modifies nodes`accountGroups
    ensures ok <==> AllOwned(OwnerKeys(neighbors), nodeids, |neighbors|)
    ensures ok ==> forall i :: 0 <= i < |nodes| ==>
                     nodes[i].accountGroups == Bucket(neighbors, OwnerKeys(neighbors), nodes[i].fields.id, |neighbors|)
  {
    ghost var keys := OwnerKeys(neighbors);
    assert forall k :: Bucket(neighbors, keys, k, 0) == [];
    hide Bucket, Indexed, OwnerKeys;
    for m := 0 to |neighbors|
      invariant AllOwned(keys, nodeids, m)
      invariant forall i :: 0 <= i < |nodes| ==>
                  nodes[i].accountGroups == Bucket(neighbors, keys, nodes[i].fields.id, m)
    {
      var n := neighbors[m];
      var fk := n.fields.accountId;
      if fk !in nodeids {
        return false;
      }
      var node := nodeids[fk];
      JoinShareGrows(nodes, nodeids, neighbors, m);
      AppendJoin(nodes, node, n);
    }
    return true;
  }

  /** The assign callback of the account_groups edge. */
  method AppendJoin(ghost nodes: seq<Account>, node: Account, n: AccountGroup)
    requires node in nodes
    modifies node`accountGroups
    ensures node.accountGroups == old(node.accountGroups) + [n]
  {
    node.accountGroups := node.accountGroups + [n];
  }

  lemma {:induction false} BucketJoinTrees(ns: seq<AccountGroup>, keys: seq<Option<int>>, k: int, n: nat)
    requires n <= |ns| == |keys|
    ensures JoinTrees(Bucket(ns, keys, k, n)) == Bucket(JoinTrees(ns), keys, k, n)
  {
    if n > 0 {
      BucketJoinTrees(ns, keys, k, n - 1);
      var b := Bucket(ns, keys, k, n - 1);
      assert (b + [ns[n - 1]])[..|b|] == b;
    }
  }

  lemma {:induction false} BucketJoinRows(ts: seq<JoinTree>, keys: seq<Option<int>>, k: int, n: nat)
    requires n <= |ts| == |keys|
    ensures JoinRows(Bucket(ts, keys, k, n)) == Bucket(JoinRows(ts), keys, k, n)
  {
    if n > 0 {
      BucketJoinRows(ts, keys, k, n - 1);
    }
  }

  lemma {:induction false} JoinsOwned(db: Database, q: AccountGroupQuery, ids: seq<int>, neighbors: seq<AccountGroup>)
    requires JoinResultNav(db, q, (j: JoinRow) => j.accountId in ids, Some("account_id"), JoinTrees(neighbors))
    requires forall j :: 0 <= j < |neighbors| ==> neighbors[j].tree.fields == neighbors[j].fields
    ensures forall j :: 0 <= j < |neighbors| ==>
              && JoinNav(db, q, Some("account_id"), neighbors[j].tree)
              && OwnerKeys(neighbors)[j] == Some(neighbors[j].tree.origin.accountId)
              && neighbors[j].tree.origin.accountId in ids
  {
    var rows := JoinRows(JoinTrees(neighbors));
    forall j | 0 <= j < |neighbors|
      ensures JoinNav(db, q, Some("account_id"), neighbors[j].tree)
      ensures OwnerKeys(neighbors)[j] == Some(rows[j].accountId) && rows[j].accountId in ids
    {
      assert JoinNav(db, q, Some("account_id"), JoinTrees(neighbors)[j]);
      JoinKeysKept(rows[j], q, Some("account_id"));
      assert rows[j] in rows;
    }
  }

  lemma {:induction false} JoinsNavigate(db: Database, q: AccountGroupQuery, ids: seq<int>,
                                         neighbors: seq<AccountGroup>, id: int)
    requires id in ids
    requires JoinResultNav(db, q, (j: JoinRow) => j.accountId in ids, Some("account_id"), JoinTrees(neighbors))
    requires forall j :: 0 <= j < |neighbors| ==> neighbors[j].tree.fields == neighbors[j].fields
    ensures AccountGroupsNav(db, Some(q), id, JoinTrees(Bucket(neighbors, OwnerKeys(neighbors), id, |neighbors|)))
  {
    hide JoinNav, JoinTrees, NoDup, Sorted;
    var ts, keys := JoinTrees(neighbors), OwnerKeys(neighbors);
    var rows := JoinRows(ts);
    JoinsOwned(db, q, ids, neighbors);
    var key := (j: JoinRow) => Some(j.accountId);
    assert Selection(db.accountGroups, (j: JoinRow) => q.where(j) && key(j).Some? && key(j).value in ids,
                     q.order, rows);
    BatchShare(db.accountGroups, q.where, key, q.order, ids, rows, keys, id);
    hide Bucket, Selection;
    BucketJoinTrees(neighbors, keys, id, |neighbors|);
    BucketJoinRows(ts, keys, id, |neighbors|);
    var mine := Bucket(ts, keys, id, |neighbors|);
    forall i | 0 <= i < |mine|
      ensures JoinNav(db, q, Some("account_id"), mine[i])
    {
      var j := BucketFrom(ts, keys, id, |ts|, i);
    }
  }
}
