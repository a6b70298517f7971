/** `sqlAll` and its loaders: run a query, then load the edges it asks for, one query per edge, down the
    whole query tree. */
module EagerLoad {
  import opened Results
  import opened Selections
  import opened EagerSpec
  import opened EagerNodes
  import opened EagerBatch
  import opened EagerScatter
  import opened EagerFailure
  import opened EagerGroups

  // ---------- Nodes once their edges are attached ----------

  /** `_spec.Assign` over the result rows. */
  method ScanAccounts(rows: seq<AccountRow>, columns: seq<string>, loaded: Loaded) returns (nodes: seq<Account>)
    ensures |nodes| == |rows| && NoDup(nodes) && fresh(nodes)
    ensures forall i :: 0 <= i < |nodes| ==>
              && nodes[i].origin == rows[i] && nodes[i].fields == ScanAccount(rows[i], columns)
              && nodes[i].loaded == loaded && nodes[i].Bare()
  {
    nodes := [];
    for n := 0 to |rows|
      invariant |nodes| == n && NoDup(nodes) && fresh(nodes)
      invariant forall i :: 0 <= i < |nodes| ==>
                  && nodes[i].origin == rows[i] && nodes[i].fields == ScanAccount(rows[i], columns)
                  && nodes[i].loaded == loaded && nodes[i].Bare()
    {
      var node := new Account(rows[n], columns, loaded);
      nodes := nodes + [node];
    }
  }

  lemma {:induction false} RowsDistinct(db: Database)
    requires db.Valid()
    ensures NoDup(db.accounts) && NoDup(db.groups) && NoDup(db.accountGroups)
  {
  }

  lemma {:induction false} ScannedIds(db: Database, q: AccountQuery, needed: Option<string>, rows: seq<AccountRow>,
                                      nodes: seq<Account>)
    requires db.Valid() && NoDup(rows) && forall r :: r in rows ==> r in db.accounts
    requires |nodes| == |rows| && forall i :: 0 <= i < |nodes| ==>
               nodes[i].origin == rows[i] && nodes[i].fields == ScanAccount(rows[i], AccountColumns(q, needed))
    ensures NoDup(Ids(nodes))
    ensures forall i :: 0 <= i < |nodes| ==> nodes[i].fields.id == rows[i].id
    ensures forall i :: 0 <= i < |nodes| && q.withParent.Some? ==> nodes[i].fields.parentId == rows[i].parentId
  {
    forall i | 0 <= i < |nodes|
      ensures nodes[i].fields.id == rows[i].id && rows[i] in db.accounts
      ensures q.withParent.Some? ==> nodes[i].fields.parentId == rows[i].parentId
    {
      AccountKeysKept(rows[i], q, needed);
      assert rows[i] in rows;
    }
  }

  ghost predicate GroupsDone(db: Database, q: AccountQuery, nodes: seq<Account>)
    reads nodes`groups
  {
    forall i :: 0 <= i < |nodes| ==> GroupsNav(db, q.withGroups, nodes[i].fields.id, nodes[i].groups)
  }

  ghost predicate ParentDone(db: Database, q: AccountQuery, nodes: seq<Account>, S: set<Account>)
    reads nodes`parent, S
  {
    forall i :: 0 <= i < |nodes| ==>
      && (nodes[i].parent != null ==> nodes[i].parent in S)
      && (q.withParent.None? ==> nodes[i].parent == null)
      && (q.withParent.Some? ==> ToOneNav(db, q.withParent, nodes[i].fields.parentId, TreeOf(nodes[i].parent)))
  }

  ghost predicate ChildrenDone(db: Database, q: AccountQuery, nodes: seq<Account>, S: set<Account>)
    reads nodes`children, S
  {
    forall i :: 0 <= i < |nodes| ==>
      && (forall c :: c in nodes[i].children ==> c in S)
      && ChildrenNav(db, q.withChildren, nodes[i].fields.id, Trees(nodes[i].children))
  }

  ghost predicate JoinsDone(db: Database, q: AccountQuery, nodes: seq<Account>, T: set<AccountGroup>)
    reads nodes`accountGroups, T
  {
    forall i :: 0 <= i < |nodes| ==>
      && (forall g :: g in nodes[i].accountGroups ==> g in T)
      && AccountGroupsNav(db, q.withAccountGroups, nodes[i].fields.id, JoinTrees(nodes[i].accountGroups))
  }

  lemma {:induction false} GroupsAttached(db: Database, q: AccountQuery, nodes: seq<Account>)
    requires q.withGroups.Some?
    requires forall i :: 0 <= i < |nodes| ==>
               GroupsNav(db, Some(q.withGroups.value), nodes[i].fields.id, nodes[i].groups)
    ensures GroupsDone(db, q, nodes)
  {
    hide GroupsNav;
  }

  lemma {:induction false} ParentsAttached(db: Database, q: AccountQuery, nodes: seq<Account>, S: set<Account>)
    requires q.withParent.Some?
    requires forall i :: 0 <= i < |nodes| ==>
               && (nodes[i].parent != null ==> nodes[i].parent in S)
               && ToOneNav(db, Some(q.withParent.value), nodes[i].fields.parentId, TreeOf(nodes[i].parent))
    ensures ParentDone(db, q, nodes, S)
  {
    hide ToOneNav;
  }

  lemma {:induction false} ChildrenAttached(db: Database, q: AccountQuery, nodes: seq<Account>, S: set<Account>)
    requires q.withChildren.Some?
    requires forall i :: 0 <= i < |nodes| ==>
               && (forall c :: c in nodes[i].children ==> c in S)
               && ChildrenNav(db, Some(q.withChildren.value), nodes[i].fields.id, Trees(nodes[i].children))
    ensures ChildrenDone(db, q, nodes, S)
  {
    hide ChildrenNav;
  }

  lemma {:induction false} JoinsAttached(db: Database, q: AccountQuery, nodes: seq<Account>, T: set<AccountGroup>)
    requires q.withAccountGroups.Some?
    requires forall i :: 0 <= i < |nodes| ==>
               && (forall g :: g in nodes[i].accountGroups ==> g in T)
               && AccountGroupsNav(db, Some(q.withAccountGroups.value), nodes[i].fields.id,
                                   JoinTrees(nodes[i].accountGroups))
    ensures JoinsDone(db, q, nodes, T)
  {
    hide AccountGroupsNav;
  }

  lemma {:induction false} DoneWithin(db: Database, q: AccountQuery, nodes: seq<Account>, SP: set<Account>,
                                      SC: set<Account>, TJ: set<AccountGroup>, S: set<Account>, T: set<AccountGroup>)
    requires ParentDone(db, q, nodes, SP) && ChildrenDone(db, q, nodes, SC) && JoinsDone(db, q, nodes, TJ)
    requires SP <= S && SC <= S && TJ <= T
    ensures ParentDone(db, q, nodes, S) && ChildrenDone(db, q, nodes, S) && JoinsDone(db, q, nodes, T)
  {
    hide ToOneNav, ChildrenNav, AccountGroupsNav, TreeOf, Trees, JoinTrees;
  }

  /** All pointers of the nodes lead into the two sets. */
  ghost predicate PointsInto(nodes: seq<Account>, S: set<Account>, T: set<AccountGroup>)
    reads nodes
  {
    forall i :: 0 <= i < |nodes| ==>
      && (nodes[i].parent != null ==> nodes[i].parent in S)
      && (forall c :: c in nodes[i].children ==> c in S)
      && (forall g :: g in nodes[i].accountGroups ==> g in T)
  }

  lemma {:induction false} Within(db: Database, q: AccountQuery, nodes: seq<Account>, S: set<Account>,
                                  T: set<AccountGroup>)
    requires ParentDone(db, q, nodes, S) && ChildrenDone(db, q, nodes, S) && JoinsDone(db, q, nodes, T)
    ensures PointsInto(nodes, S, T)
  {
    hide ToOneNav, ChildrenNav, AccountGroupsNav, TreeOf, Trees, JoinTrees;
  }

  lemma {:induction false} ListsWithin(db: Database, q: AccountQuery, nodes: seq<Account>, SC: set<Account>,
                                       TJ: set<AccountGroup>, S: set<Account>, T: set<AccountGroup>)
    requires ChildrenDone(db, q, nodes, SC) && JoinsDone(db, q, nodes, TJ)
    requires SC <= S && TJ <= T
    ensures ChildrenDone(db, q, nodes, S) && JoinsDone(db, q, nodes, T)
  {
    hide ChildrenNav, AccountGroupsNav, Trees, JoinTrees;
  }

  /** Fixes the trees of the nodes once their edges are attached. */
  ghost method Complete(nodes: seq<Account>, S: set<Account>, T: set<AccountGroup>)
    requires Closed(S, T) && PointsInto(nodes, S, T)
    requires forall n :: n in nodes ==> n !in S
    modifies nodes`tree
    ensures Closed(S + Members(nodes), T)
    ensures forall i :: 0 <= i < |nodes| ==> nodes[i].Mirrors()
  {
    hide Trees, JoinTrees;
    forall n | n in nodes {
      n.tree := AccountTree(n.origin, n.fields, n.groups, TreeOf(n.parent), Trees(n.children),
                            JoinTrees(n.accountGroups));
    }
    forall n | n in nodes
      ensures n.Mirrors()
    {
      assert Trees(n.children) == old(Trees(n.children));
      assert JoinTrees(n.accountGroups) == old(JoinTrees(n.accountGroups));
    }
    hide Account.Mirrors, AccountGroup.Mirrors, PointsInto;
    assert forall a :: a in S ==> old(a.Mirrors()) && a.Mirrors();
    assert Closed(S, T);
    assert PointsInto(nodes, S, T);
    ClosedGrows(nodes, S, T);
  }

  /** Nodes that mirror their edges into a closed pair of sets can join it. */
  lemma {:induction false} ClosedGrows(nodes: seq<Account>, S: set<Account>, T: set<AccountGroup>)
    requires Closed(S, T) && PointsInto(nodes, S, T)
    requires forall n :: n in nodes ==> n.Mirrors()
    ensures Closed(S + Members(nodes), T)
  {
    hide Account.Mirrors, AccountGroup.Mirrors;
    assert forall n :: n in Members(nodes) <==> n in nodes;
  }

  lemma {:induction false} ResultFromNodes(db: Database, q: AccountQuery, restrict: AccountRow -> bool,
                                           needed: Option<string>, rows: seq<AccountRow>, nodes: seq<Account>,
                                           S: set<Account>, T: set<AccountGroup>)
    requires Selection(db.accounts, (a: AccountRow) => q.where(a) && restrict(a), q.order, rows)
    requires |nodes| == |rows| && forall i :: 0 <= i < |nodes| ==>
               nodes[i].origin == rows[i] && nodes[i].fields == ScanAccount(rows[i], AccountColumns(q, needed))
    requires forall i :: 0 <= i < |nodes| ==> nodes[i].Mirrors()
    requires GroupsDone(db, q, nodes) && ParentDone(db, q, nodes, S)
    requires ChildrenDone(db, q, nodes, S) && JoinsDone(db, q, nodes, T)
    ensures ResultNav(db, q, restrict, needed, Trees(nodes))
  {
    hide GroupsNav, ToOneNav, ChildrenNav, AccountGroupsNav, AccountColumns;
    var ts := Trees(nodes);
    forall i | 0 <= i < |nodes|
      ensures AccountNav(db, q, needed, ts[i]) && AccountRows(ts)[i] == rows[i]
    {
      assert nodes[i].Mirrors();
      AccountKeysKept(rows[i], q, needed);
      NotRequested(db, q.withParent, rows[i].parentId);
    }
    assert AccountRows(ts) == rows;
  }

  lemma {:induction false} NotRequested(db: Database, q: Option<AccountQuery>, fk: Option<int>)
    ensures q.None? ==> ToOneNav(db, q, fk, None)
  {
  }

  lemma {:induction false} NothingFound(db: Database, q: AccountQuery, restrict: AccountRow -> bool,
                                        needed: Option<string>)
    requires Selection(db.accounts, (a: AccountRow) => q.where(a) && restrict(a), q.order, [])
    ensures ResultNav(db, q, restrict, needed, Trees([]))
  {
    assert AccountRows(Trees([])) == [];
  }

  lemma {:induction false} NothingRequested(db: Database, q: AccountQuery, nodes: seq<Account>)
    requires forall i :: 0 <= i < |nodes| ==> nodes[i].Bare()
    ensures q.withGroups.None? ==> GroupsDone(db, q, nodes)
    ensures q.withParent.None? ==> ParentDone(db, q, nodes, {})
    ensures q.withChildren.None? ==> ChildrenDone(db, q, nodes, {})
    ensures q.withAccountGroups.None? ==> JoinsDone(db, q, nodes, {})
    ensures forall i :: 0 <= i < |nodes| ==>
              && nodes[i].groups == [] && nodes[i].parent == null
              && nodes[i].children == [] && nodes[i].accountGroups == []
  {
    assert forall i :: 0 <= i < |nodes| ==> nodes[i].Bare();
  }

  // ---------- Accounts and their edges ----------

  /** loadParent. */
  method LoadParent(db: Database, sub: AccountQuery, nodes: seq<Account>)
    returns (err: Option<string>, ghost S: set<Account>, ghost T: set<AccountGroup>)
    requires db.Valid() && NoDup(nodes)
    requires forall i :: 0 <= i < |nodes| ==> nodes[i].parent == null
    modifies nodes`parent
    ensures fresh(S) && fresh(T)
    ensures err.Some? <==> SomeToOneFails(db, Some(sub), ParentKeys(nodes))
    ensures err.None? ==> Closed(S, T)
    ensures err.None? ==> forall i :: 0 <= i < |nodes| ==>
              && (nodes[i].parent != null ==> nodes[i].parent in S)
              && ToOneNav(db, Some(sub), nodes[i].fields.parentId, TreeOf(nodes[i].parent))
    decreases sub, 3
  {
    hide ToOneNav, ResultNav, QueryFails, SomeToOneFails, Hit, Bucket, Used, Closed, Trees, Database.Valid;
    hide NoDup, Ids;
    S, T := {}, {};
    var fks := seq(|nodes|, i requires 0 <= i < |nodes| => nodes[i].fields.parentId);
    assert fks == ParentKeys(nodes);
    var ids, nodeids := CollectKeys(nodes, fks);
    KeysCollected(nodes, fks, ids, nodeids);
    ToOneBatchFails(db, sub, fks, ids);
    if ids == [] {
      NoKeyNavigates(db, sub);
      ClosedEmpty();
      forall i | 0 <= i < |nodes|
        ensures ToOneNav(db, Some(sub), nodes[i].fields.parentId, TreeOf(nodes[i].parent))
      {
        assert fks[i].None?;
        assert TreeOf(nodes[i].parent) == None;
      }
      return None, S, T;
    }
    var r;
    r, S, T := All(db, sub, (a: AccountRow) => a.id in ids, None);
    if r.Failure? {
      S, T := {}, {};
      return Some(r.error), S, T;
    }
    var neighbors := r.value;
    ClosedMirrors(S, T, neighbors);
    NeighborIds(db, sub, ids, neighbors);
    assert forall j :: 0 <= j < |neighbors| ==> Ids(neighbors)[j] in Members(ids);
    forall i | 0 <= i < |nodes|
      ensures ToOneNav(db, Some(sub), fks[i],
                       TreeOf(Pointer(Pick(neighbors, Hit(Ids(neighbors), fks[i], |neighbors|)))))
    {
      ParentsNavigate(db, sub, ids, neighbors, fks[i]);
    }
    var ok := AttachParents(nodes, fks, nodeids, neighbors);
    assert ok;
    err := None;
  }

  /** The share of every node is what navigation from it finds. */
  lemma {:induction false} ChildSharesNavigate(db: Database, q: AccountQuery, nodes: seq<Account>, fks: seq<int>,
                                               neighbors: seq<Account>)
    requires |fks| == |nodes| && forall i :: 0 <= i < |nodes| ==> fks[i] == nodes[i].fields.id
    requires ResultNav(db, q, (a: AccountRow) => ChildOf(fks, a), Some("parent_account_id"), Trees(neighbors))
    requires forall j :: 0 <= j < |neighbors| ==> neighbors[j].tree.fields == neighbors[j].fields
    ensures forall i :: 0 <= i < |nodes| ==>
              var mine := Bucket(neighbors, ParentKeys(neighbors), nodes[i].fields.id, |neighbors|);
              ChildrenNav(db, Some(q), nodes[i].fields.id, Trees(mine)) && forall c :: c in mine ==> c in neighbors
  {
    hide ChildrenNav, ResultNav, Bucket, Trees;
    forall i | 0 <= i < |nodes|
      ensures var mine := Bucket(neighbors, ParentKeys(neighbors), nodes[i].fields.id, |neighbors|);
              ChildrenNav(db, Some(q), nodes[i].fields.id, Trees(mine)) && forall c :: c in mine ==> c in neighbors
    {
      assert fks[i] == nodes[i].fields.id;
      ChildrenNavigate(db, q, fks, neighbors, fks[i]);
      ShareWithin(neighbors, ParentKeys(neighbors), fks[i]);
    }
  }

  ghost function ChildLists(nodes: seq<Account>): (lists: seq<seq<Account>>)
    reads nodes`children
    ensures |lists| == |nodes| && forall i :: 0 <= i < |nodes| ==> lists[i] == nodes[i].children
  {
    if nodes == [] then [] else ChildLists(nodes[..|nodes| - 1]) + [nodes[|nodes| - 1].children]
  }

  /** loadChildren: the nodes share out one result list, each taking its own in result order, and nothing
      of the list is lost or handed out twice. */
  method LoadChildren(db: Database, sub: AccountQuery, nodes: seq<Account>)
    returns (err: Option<string>, ghost S: set<Account>, ghost T: set<AccountGroup>, ghost neighbors: seq<Account>)
    requires db.Valid() && nodes != [] && NoDup(Ids(nodes))
    requires forall i :: 0 <= i < |nodes| ==> nodes[i].children == []
    modifies nodes`children
    ensures fresh(S) && fresh(T)
    ensures err.Some? <==> SomeChildrenFail(db, Some(sub), Ids(nodes))
    ensures err.None? ==> Closed(S, T)
    ensures err.None? ==>
              ResultNav(db, sub, (a: AccountRow) => ChildOf(Ids(nodes), a), Some("parent_account_id"), Trees(neighbors))
    ensures err.None? ==> Lengths(ChildLists(nodes)) == |neighbors|
    ensures err.None? ==> forall i :: 0 <= i < |nodes| ==>
              && nodes[i].children == Bucket(neighbors, ParentKeys(neighbors), nodes[i].fields.id, |neighbors|)
              && (forall c :: c in nodes[i].children ==> c in S)
              && ChildrenNav(db, Some(sub), nodes[i].fields.id, Trees(nodes[i].children))
    decreases sub, 3
  {
    hide ChildrenNav, ResultNav, QueryFails, SomeChildrenFail, Bucket, Closed, Trees, Indexed, AllOwned, Lengths;
    hide Database.Valid, ParentKeys, Ids, NoDup, Members, ChildOf, ChildLists;
    S, T, neighbors := {}, {}, [];
    var fks, nodeids := IndexAccounts(nodes);
    assert fks == Ids(nodes);
    ChildrenBatchFails(db, sub, fks);
    var r;
    r, S, T := All(db, sub, (a: AccountRow) => ChildOf(fks, a), Some("parent_account_id"));
    if r.Failure? {
      S, T := {}, {};
      return Some(r.error), S, T, [];
    }
    neighbors := r.value;
    ClosedMirrors(S, T, neighbors);
    ChildrenOwned(db, sub, fks, neighbors);
    AllOwnedByKeys(ParentKeys(neighbors), fks, nodeids);
    label Attaching:
    var ok := AttachChildren(nodes, nodeids, r.value);
    err := None;
    assert Trees(neighbors) == old@Attaching(Trees(neighbors));
    ChildSharesNavigate(db, sub, nodes, fks, neighbors);
    SharesPartition(fks, neighbors, ParentKeys(neighbors), ChildLists(nodes));
  }

  /** Runs a query for accounts: scan the rows into fresh nodes, then load each requested edge. */
  method All(db: Database, q: AccountQuery, restrict: AccountRow -> bool, needed: Option<string>)
    returns (r: Result<seq<Account>, string>, ghost S: set<Account>, ghost T: set<AccountGroup>)
    requires db.Valid()
    ensures fresh(S) && fresh(T)
    ensures r.Failure? <==> QueryFails(db, q, restrict)
    ensures r.Success? ==>
              && Closed(S, T) && NoDup(r.value)
              && (forall n :: n in r.value ==> n in S && n.loaded == LoadedFor(q))
              && ResultNav(db, q, restrict, needed, Trees(r.value))
    decreases q, 2
  {
    hide ResultNav, Closed, GroupsDone, ParentDone, ChildrenDone, JoinsDone, AccountColumns, Database.Valid, Trees;
    hide RowFails, EdgesFail;
    S, T := {}, {};
    var bad := InvalidField(q.fields, ACCOUNT_COLUMNS);
    if bad.Some? {
      return Failure(bad.value), S, T;
    }
    RowsDistinct(db);
    var p := (a: AccountRow) => q.where(a) && restrict(a);
    var rows := Select(db.accounts, p, q.order);
    SelectIsSelection(db.accounts, p, q.order, rows);
    ResultFails(db, q, restrict, rows);
    hide QueryFails;
    var nodes := ScanAccounts(rows, AccountColumns(q, needed), LoadedFor(q));
    if nodes == [] {
      ClosedEmpty();
      NothingFound(db, q, restrict, needed);
      return Success([]), S, T;
    }
    ScannedIds(db, q, needed, rows, nodes);
    EdgesFailByRow(db, q, rows, nodes);
    var err;
    err, S, T := LoadEdges(db, q, nodes);
    if err.Some? {
      S, T := {}, {};
      return Failure(err.value), S, T;
    }
    Within(db, q, nodes, S, T);
    Complete(nodes, S, T);
    ResultFromNodes(db, q, restrict, needed, rows, nodes, S, T);
    S := S + Members(nodes);
    r := Success(nodes);
  }

  /** The edges, one query each, in the order sqlAll loads them. */
  method LoadEdges(db: Database, q: AccountQuery, nodes: seq<Account>)
    returns (err: Option<string>, ghost S: set<Account>, ghost T: set<AccountGroup>)
    requires db.Valid() && nodes != [] && NoDup(nodes) && NoDup(Ids(nodes))
    requires forall i :: 0 <= i < |nodes| ==> nodes[i].Bare()
    modifies nodes`groups, nodes`parent, nodes`children, nodes`accountGroups
    ensures fresh(S) && fresh(T)
    ensures err.Some? <==> EdgesFail(db, q, nodes)
    ensures err.None? ==>
              && Closed(S, T) && GroupsDone(db, q, nodes) && ParentDone(db, q, nodes, S)
              && ChildrenDone(db, q, nodes, S) && JoinsDone(db, q, nodes, T)
    decreases q, 1
  {
    hide GroupsDone, ParentDone, ChildrenDone, JoinsDone, Closed, Database.Valid;
    hide GroupsNav, ToOneNav, ChildrenNav, AccountGroupsNav, TreeOf, Trees, JoinTrees, JoinedRows, Firsts, Keep;
    hide SomeToOneFails, SomeChildrenFail, SomeJoinsFail;
    S, T, err := {}, {}, None;
    NothingRequested(db, q, nodes);
    NoEdgeNoFailure(db, ParentKeys(nodes), Ids(nodes));
    if q.withGroups.Some? {
      ghost var rows, groups;
      err, rows, groups := LoadGroups(db, q.withGroups.value, nodes);
      if err.Some? {
        return;
      }
      GroupsAttached(db, q, nodes);
    }
    ghost var SP, TP := {}, {};
    ClosedEmpty();
    if q.withParent.Some? {
      err, SP, TP := LoadParent(db, q.withParent.value, nodes);
      if err.Some? {
        return;
      }
      ParentsAttached(db, q, nodes, SP);
    }
    ghost var SL, TL;
    err, SL, TL := LoadLists(db, q, nodes);
    if err.Some? {
      return;
    }
    S, T := SP + SL, TP + TL;
    ClosedUnion(SP, TP, SL, TL);
    DoneWithin(db, q, nodes, SP, SL, TL, S, T);
  }

  /** The edges that go through a foreign key on the other side. */
  method LoadLists(db: Database, q: AccountQuery, nodes: seq<Account>)
    returns (err: Option<string>, ghost S: set<Account>, ghost T: set<AccountGroup>)
    requires db.Valid() && nodes != [] && NoDup(Ids(nodes))
    requires forall i :: 0 <= i < |nodes| ==> nodes[i].children == [] && nodes[i].accountGroups == []
    requires q.withChildren.None? ==> ChildrenDone(db, q, nodes, {})
    requires q.withAccountGroups.None? ==> JoinsDone(db, q, nodes, {})
    modifies nodes`children, nodes`accountGroups
    ensures fresh(S) && fresh(T)
    ensures err.Some? <==>
              SomeChildrenFail(db, q.withChildren, Ids(nodes)) || SomeJoinsFail(db, q.withAccountGroups, Ids(nodes))
    ensures err.None? ==> Closed(S, T) && ChildrenDone(db, q, nodes, S) && JoinsDone(db, q, nodes, T)
    decreases q, 0
  {
    hide ChildrenDone, JoinsDone, Closed, Database.Valid, SomeChildrenFail, SomeJoinsFail;
    hide ChildrenNav, AccountGroupsNav, ResultNav, JoinResultNav, Trees, JoinTrees, Bucket, Lengths;
    hide Ids, ParentKeys, OwnerKeys, ChildLists, JoinLists, NoDup;
    S, T, err := {}, {}, None;
    NoEdgeNoFailure(db, ParentKeys(nodes), Ids(nodes));
    ClosedEmpty();
    ghost var SC, TC := {}, {};
    if q.withChildren.Some? {
      ghost var children;
      err, SC, TC, children := LoadChildren(db, q.withChildren.value, nodes);
      if err.Some? {
        return;
      }
      ChildrenAttached(db, q, nodes, SC);
    }
    ghost var SJ, TJ := {}, {};
    if q.withAccountGroups.Some? {
      ghost var joins;
      err, SJ, TJ, joins := LoadAccountGroups(db, q.withAccountGroups.value, nodes);
      if err.Some? {
        return;
      }
      JoinsAttached(db, q, nodes, TJ);
    }
    S, T := SC + SJ, TC + TJ;
    ClosedUnion(SC, TC, SJ, TJ);
    ListsWithin(db, q, nodes, SC, TJ, S, T);
  }

  // ---------- Join rows and their edges ----------

  /** loadAccount: the key is never nil here. */
  method LoadAccount(db: Database, sub: AccountQuery, nodes: seq<AccountGroup>)
    returns (err: Option<string>, ghost S: set<Account>, ghost T: set<AccountGroup>)
    requires db.Valid() && NoDup(nodes)
    requires forall i :: 0 <= i < |nodes| ==> nodes[i].account == null
    modifies nodes`account
    ensures fresh(S) && fresh(T)
    ensures err.Some? <==> SomeToOneFails(db, Some(sub), OwnerKeys(nodes))
    ensures err.None? ==> Closed(S, T)
    ensures err.None? ==> forall i :: 0 <= i < |nodes| ==>
              && (nodes[i].account != null ==> nodes[i].account in S)
              && ToOneNav(db, Some(sub), Some(nodes[i].fields.accountId), TreeOf(nodes[i].account))
    decreases sub, 3
  {
    hide ToOneNav, ResultNav, QueryFails, SomeToOneFails, Hit, Bucket, Used, Closed, Trees, Database.Valid;
    hide NoDup, Ids;
    S, T := {}, {};
    var fks := seq(|nodes|, i requires 0 <= i < |nodes| => Some(nodes[i].fields.accountId));
    assert fks == OwnerKeys(nodes);
    var ids, nodeids := CollectKeys(nodes, fks);
    KeysCollected(nodes, fks, ids, nodeids);
    ToOneBatchFails(db, sub, fks, ids);
    if ids == [] {
      ClosedEmpty();
      return None, S, T;
    }
    var r;
    r, S, T := All(db, sub, (a: AccountRow) => a.id in ids, None);
    if r.Failure? {
      S, T := {}, {};
      return Some(r.error), S, T;
    }
    var neighbors := r.value;
    ClosedMirrors(S, T, neighbors);
    NeighborIds(db, sub, ids, neighbors);
    assert forall j :: 0 <= j < |neighbors| ==> Ids(neighbors)[j] in Members(ids);
    forall i | 0 <= i < |nodes|
      ensures ToOneNav(db, Some(sub), fks[i],
                       TreeOf(Pointer(Pick(neighbors, Hit(Ids(neighbors), fks[i], |neighbors|)))))
    {
      ParentsNavigate(db, sub, ids, neighbors, fks[i]);
    }
    var ok := AttachAccounts(nodes, fks, nodeids, neighbors);
    assert ok;
    err := None;
  }

  /** loadGroup. */
  method LoadGroup(db: Database, gq: LeafQuery<GroupRow>, nodes: seq<AccountGroup>) returns (err: Option<string>)
    requires db.Valid() && NoDup(nodes)
    requires forall i :: 0 <= i < |nodes| ==> nodes[i].group == None
    modifies nodes`group
    ensures err.Some? <==> nodes != [] && InvalidField(gq.fields, db.groupColumns).Some?
    ensures err.None? ==> forall i :: 0 <= i < |nodes| ==>
              GroupNav(db, Some(gq), nodes[i].fields.groupId, nodes[i].group)
  {
    hide GroupNav, Hit, Bucket, Selection;
    var fks := seq(|nodes|, i requires 0 <= i < |nodes| => Some(nodes[i].fields.groupId));
    var ids, nodeids := CollectKeys(nodes, fks);
    KeysCollected(nodes, fks, ids, nodeids);
    if ids == [] {
      return None;
    }
    assert ids[0] in ids && Used(fks, ids[0]);
    err := InvalidField(gq.fields, db.groupColumns);
    if err.Some? {
      return;
    }
    var p := (g: GroupRow) => gq.where(g) && g.id in ids;
    var rows := Select(db.groups, p, gq.order);
    SelectIsSelection(db.groups, p, gq.order, rows);
    var columns := LeafColumns(gq.fields, db.groupColumns);
    var neighbors := seq(|rows|, i requires 0 <= i < |rows| => Leaf(rows[i], ScanGroup(rows[i], columns)));
    GroupsFound(db, gq, ids, rows, neighbors);
    assert forall j :: 0 <= j < |neighbors| ==> GroupIds(neighbors)[j] in Members(ids);
    forall i | 0 <= i < |nodes|
      ensures GroupNav(db, Some(gq), fks[i].value, Pick(neighbors, Hit(GroupIds(neighbors), fks[i], |neighbors|)))
    {
      GroupNavigates(db, gq, ids, rows, neighbors, fks[i].value);
    }
    var ok := AttachGroup(nodes, fks, nodeids, neighbors);
    assert ok;
  }

  lemma {:induction false} JoinSharesNavigate(db: Database, q: AccountGroupQuery, nodes: seq<Account>, fks: seq<int>,
                                              neighbors: seq<AccountGroup>)
    requires |fks| == |nodes| && forall i :: 0 <= i < |nodes| ==> fks[i] == nodes[i].fields.id
    requires JoinResultNav(db, q, (j: JoinRow) => j.accountId in fks, Some("account_id"), JoinTrees(neighbors))
    requires forall j :: 0 <= j < |neighbors| ==> neighbors[j].tree.fields == neighbors[j].fields
    ensures forall i :: 0 <= i < |nodes| ==>
              var mine := Bucket(neighbors, OwnerKeys(neighbors), nodes[i].fields.id, |neighbors|);
              && AccountGroupsNav(db, Some(q), nodes[i].fields.id, JoinTrees(mine))
              && forall g :: g in mine ==> g in neighbors
  {
    hide AccountGroupsNav, JoinResultNav, Bucket, JoinTrees;
    forall i | 0 <= i < |nodes|
      ensures var mine := Bucket(neighbors, OwnerKeys(neighbors), nodes[i].fields.id, |neighbors|);
              && AccountGroupsNav(db, Some(q), nodes[i].fields.id, JoinTrees(mine))
              && forall g :: g in mine ==> g in neighbors
    {
      assert fks[i] == nodes[i].fields.id;
      JoinsNavigate(db, q, fks, neighbors, fks[i]);
      ShareWithin(neighbors, OwnerKeys(neighbors), fks[i]);
    }
  }

  ghost function JoinLists(nodes: seq<Account>): (lists: seq<seq<AccountGroup>>)
    reads nodes`accountGroups
    ensures |lists| == |nodes| && forall i :: 0 <= i < |nodes| ==> lists[i] == nodes[i].accountGroups
  {
    if nodes == [] then [] else JoinLists(nodes[..|nodes| - 1]) + [nodes[|nodes| - 1].accountGroups]
  }

  /** loadAccountGroups: as for children, over the through table. */
  method LoadAccountGroups(db: Database, sub: AccountGroupQuery, nodes: seq<Account>)
    returns (err: Option<string>, ghost S: set<Account>, ghost T: set<AccountGroup>, ghost neighbors: seq<AccountGroup>)
    requires db.Valid() && nodes != [] && NoDup(Ids(nodes))
    requires forall i :: 0 <= i < |nodes| ==> nodes[i].accountGroups == []
    modifies nodes`accountGroups
    ensures fresh(S) && fresh(T)
    ensures err.Some? <==> SomeJoinsFail(db, Some(sub), Ids(nodes))
    ensures err.None? ==> Closed(S, T)
    ensures err.None? ==>
              JoinResultNav(db, sub, (j: JoinRow) => j.accountId in Ids(nodes), Some("account_id"),
                            JoinTrees(neighbors))
    ensures err.None? ==> Lengths(JoinLists(nodes)) == |neighbors|
    ensures err.None? ==> forall i :: 0 <= i < |nodes| ==>
              && nodes[i].accountGroups == Bucket(neighbors, OwnerKeys(neighbors), nodes[i].fields.id, |neighbors|)
              && (forall g :: g in nodes[i].accountGroups ==> g in T)
              && AccountGroupsNav(db, Some(sub), nodes[i].fields.id, JoinTrees(nodes[i].accountGroups))
    decreases sub, 3
  {
    hide AccountGroupsNav, JoinResultNav, JoinQueryFails, SomeJoinsFail, Bucket, Closed, JoinTrees, Indexed, AllOwned;
    hide Lengths, Database.Valid, OwnerKeys, Ids, NoDup, Members, JoinLists;
    S, T, neighbors := {}, {}, [];
    var fks, nodeids := IndexAccounts(nodes);
    assert fks == Ids(nodes);
    JoinsBatchFails(db, sub, fks);
    var r;
    r, S, T := AllJoins(db, sub, (j: JoinRow) => j.accountId in fks, Some("account_id"));
    if r.Failure? {
      S, T := {}, {};
      return Some(r.error), S, T, [];
    }
    neighbors := r.value;
    ClosedMirrorsJoins(S, T, neighbors);
    JoinsOwned(db, sub, fks, neighbors);
    AllOwnedByKeys(OwnerKeys(neighbors), fks, nodeids);
    label Attaching:
    var ok := AttachJoins(nodes, nodeids, r.value);
    err := None;
    assert JoinTrees(neighbors) == old@Attaching(JoinTrees(neighbors));
    JoinSharesNavigate(db, sub, nodes, fks, neighbors);
    SharesPartition(fks, neighbors, OwnerKeys(neighbors), JoinLists(nodes));
  }

  /** `_spec.Assign` of the through table. */
  method ScanJoins(rows: seq<JoinRow>, columns: seq<string>) returns (nodes: seq<AccountGroup>)
    ensures |nodes| == |rows| && NoDup(nodes) && fresh(nodes)
    ensures forall i :: 0 <= i < |nodes| ==>
              && nodes[i].origin == rows[i] && nodes[i].fields == ScanJoin(rows[i], columns)
              && nodes[i].account == null && nodes[i].group == None
  {
    nodes := [];
    for n := 0 to |rows|
      invariant |nodes| == n && NoDup(nodes) && fresh(nodes)
      invariant forall i :: 0 <= i < |nodes| ==>
                  && nodes[i].origin == rows[i] && nodes[i].fields == ScanJoin(rows[i], columns)
                  && nodes[i].account == null && nodes[i].group == None
    {
      var node := new AccountGroup(rows[n], columns);
      nodes := nodes + [node];
    }
  }

  method AllJoins(db: Database, q: AccountGroupQuery, restrict: JoinRow -> bool, needed: Option<string>)
    returns (r: Result<seq<AccountGroup>, string>, ghost S: set<Account>, ghost T: set<AccountGroup>)
    requires db.Valid()
    ensures fresh(S) && fresh(T)
    ensures r.Failure? <==> JoinQueryFails(db, q, restrict)
    ensures r.Success? ==>
              && Closed(S, T) && NoDup(r.value)
              && (forall n :: n in r.value ==> n in T)
              && JoinResultNav(db, q, restrict, needed, JoinTrees(r.value))
    decreases q, 2
  {
    hide JoinResultNav, Closed, AccountGroupColumns, Database.Valid, JoinTrees, AccountsDone, LeavesDone;
    hide JoinFails, JoinEdgesFail, Sorted;
    S, T := {}, {};
    var bad := InvalidField(q.fields, ACCOUNT_GROUP_COLUMNS);
    if bad.Some? {
      return Failure(bad.value), S, T;
    }
    RowsDistinct(db);
    var p := (j: JoinRow) => q.where(j) && restrict(j);
    var rows := Select(db.accountGroups, p, q.order);
    SelectIsSelection(db.accountGroups, p, q.order, rows);
    JoinResultFails(db, q, restrict, rows);
    hide JoinQueryFails;
    var nodes := ScanJoins(rows, AccountGroupColumns(q, needed));
    ScannedKeys(db, q, needed, rows, nodes);
    JoinEdgesFailByRow(db, q, rows, nodes);
    if nodes == [] {
      ClosedEmpty();
      NoJoinsFound(db, q, restrict, needed);
      return Success([]), S, T;
    }
    var err;
    err, S, T := LoadJoinEdges(db, q, nodes);
    if err.Some? {
      S, T := {}, {};
      return Failure(err.value), S, T;
    }
    AccountsWithin(db, q, nodes, S);
    CompleteJoins(nodes, S, T);
    JoinResultFromNodes(db, q, restrict, needed, rows, nodes, S);
    T := T + Members(nodes);
    r := Success(nodes);
  }

  ghost predicate AccountsDone(db: Database, q: AccountGroupQuery, nodes: seq<AccountGroup>, S: set<Account>)
    reads nodes`account, S
  {
    forall i :: 0 <= i < |nodes| ==>
      && (nodes[i].account != null ==> nodes[i].account in S)
      && (q.withAccount.None? ==> nodes[i].account == null)
      && (q.withAccount.Some? ==>
            ToOneNav(db, q.withAccount, Some(nodes[i].fields.accountId), TreeOf(nodes[i].account)))
  }

  ghost predicate LeavesDone(db: Database, q: AccountGroupQuery, nodes: seq<AccountGroup>)
    reads nodes`group
  {
    forall i :: 0 <= i < |nodes| ==> GroupNav(db, q.withGroup, nodes[i].fields.groupId, nodes[i].group)
  }

  lemma {:induction false} AccountsWithin(db: Database, q: AccountGroupQuery, nodes: seq<AccountGroup>, S: set<Account>)
    requires AccountsDone(db, q, nodes, S)
    ensures forall i :: 0 <= i < |nodes| ==> nodes[i].account != null ==> nodes[i].account in S
  {
    hide ToOneNav, TreeOf;
  }

  lemma {:induction false} NoJoinEdgeRequested(db: Database, q: AccountGroupQuery, nodes: seq<AccountGroup>)
    requires forall i :: 0 <= i < |nodes| ==> nodes[i].account == null && nodes[i].group == None
    ensures q.withAccount.None? ==> AccountsDone(db, q, nodes, {})
    ensures q.withGroup.None? ==> LeavesDone(db, q, nodes)
  {
  }

  lemma {:induction false} AccountsAttached(db: Database, q: AccountGroupQuery, nodes: seq<AccountGroup>,
                                            S: set<Account>)
    requires q.withAccount.Some?
    requires forall i :: 0 <= i < |nodes| ==>
               && (nodes[i].account != null ==> nodes[i].account in S)
               && ToOneNav(db, Some(q.withAccount.value), Some(nodes[i].fields.accountId), TreeOf(nodes[i].account))
    ensures AccountsDone(db, q, nodes, S)
  {
    hide ToOneNav, TreeOf;
  }

  lemma {:induction false} LeavesAttached(db: Database, q: AccountGroupQuery, nodes: seq<AccountGroup>)
    requires q.withGroup.Some?
    requires forall i :: 0 <= i < |nodes| ==>
               GroupNav(db, Some(q.withGroup.value), nodes[i].fields.groupId, nodes[i].group)
    ensures LeavesDone(db, q, nodes)
  {
    hide GroupNav;
  }

  /** The edges of the join rows, one query each. */
  method LoadJoinEdges(db: Database, q: AccountGroupQuery, nodes: seq<AccountGroup>)
    returns (err: Option<string>, ghost S: set<Account>, ghost T: set<AccountGroup>)
    requires db.Valid() && nodes != [] && NoDup(nodes)
    requires forall i :: 0 <= i < |nodes| ==> nodes[i].account == null && nodes[i].group == None
    modifies nodes`account, nodes`group
    ensures fresh(S) && fresh(T)
    ensures err.Some? <==> JoinEdgesFail(db, q, nodes)
    ensures err.None? ==> Closed(S, T) && AccountsDone(db, q, nodes, S) && LeavesDone(db, q, nodes)
    decreases q, 1
  {
    hide AccountsDone, LeavesDone, Closed, Database.Valid, ToOneNav, GroupNav, TreeOf, NoDup, SomeToOneFails;
    S, T, err := {}, {}, None;
    NoJoinEdgeRequested(db, q, nodes);
    NoEdgeNoFailure(db, OwnerKeys(nodes), []);
    ClosedEmpty();
    if q.withAccount.Some? {
      err, S, T := LoadAccount(db, q.withAccount.value, nodes);
      if err.Some? {
        return;
      }
      AccountsAttached(db, q, nodes, S);
    }
    if q.withGroup.Some? {
      err := LoadGroup(db, q.withGroup.value, nodes);
      if err.Some? {
        return;
      }
      LeavesAttached(db, q, nodes);
    }
  }

  lemma {:induction false} ScannedKeys(db: Database, q: AccountGroupQuery, needed: Option<string>, rows: seq<JoinRow>,
                                       nodes: seq<AccountGroup>)
    requires |nodes| == |rows| && forall i :: 0 <= i < |nodes| ==>
               nodes[i].fields == ScanJoin(rows[i], AccountGroupColumns(q, needed))
    ensures forall i :: 0 <= i < |nodes| && q.withAccount.Some? ==> nodes[i].fields.accountId == rows[i].accountId
  {
    forall i | 0 <= i < |nodes|
      ensures q.withAccount.Some? ==> nodes[i].fields.accountId == rows[i].accountId
    {
      JoinKeysKept(rows[i], q, needed);
    }
  }

  lemma {:induction false} NoJoinsFound(db: Database, q: AccountGroupQuery, restrict: JoinRow -> bool,
                                        needed: Option<string>)
    requires Selection(db.accountGroups, (j: JoinRow) => q.where(j) && restrict(j), q.order, [])
    ensures JoinResultNav(db, q, restrict, needed, JoinTrees([]))
  {
    assert JoinRows(JoinTrees([])) == [];
  }

  /** Fixes the trees of the join nodes once their edges are attached. */
  ghost method CompleteJoins(nodes: seq<AccountGroup>, S: set<Account>, T: set<AccountGroup>)
    requires Closed(S, T)
    requires forall i :: 0 <= i < |nodes| ==> nodes[i].account != null ==> nodes[i].account in S
    requires forall n :: n in nodes ==> n !in T
    modifies nodes`tree
    ensures Closed(S, T + Members(nodes))
    ensures forall i :: 0 <= i < |nodes| ==> nodes[i].Mirrors()
  {
    forall n | n in nodes {
      n.tree := JoinTree(n.origin, n.fields, TreeOf(n.account), n.group);
    }
  }

  lemma {:induction false} JoinResultFromNodes(db: Database, q: AccountGroupQuery, restrict: JoinRow -> bool,
                                               needed: Option<string>, rows: seq<JoinRow>, nodes: seq<AccountGroup>,
                                               S: set<Account>)
    requires Selection(db.accountGroups, (j: JoinRow) => q.where(j) && restrict(j), q.order, rows)
    requires |nodes| == |rows| && forall i :: 0 <= i < |nodes| ==>
               nodes[i].origin == rows[i] && nodes[i].fields == ScanJoin(rows[i], AccountGroupColumns(q, needed))
    requires forall i :: 0 <= i < |nodes| ==> nodes[i].Mirrors()
    requires AccountsDone(db, q, nodes, S) && LeavesDone(db, q, nodes)
    ensures JoinResultNav(db, q, restrict, needed, JoinTrees(nodes))
  {
    hide ToOneNav, AccountGroupColumns;
    var ts := JoinTrees(nodes);
    forall i | 0 <= i < |nodes|
      ensures JoinNav(db, q, needed, ts[i]) && JoinRows(ts)[i] == rows[i]
    {
      assert nodes[i].Mirrors();
      JoinKeysKept(rows[i], q, needed);
      NotRequested(db, q.withAccount, Some(rows[i].accountId));
    }
    assert JoinRows(ts) == rows;
  }
}
