/** Laws of eager loading, stated about whatever a query returns. */
module EagerLaws {
  import opened Results
  import opened Selections
  import opened EagerSpec
  import opened EagerNodes

  // ---------- Two routes from an account to its groups ----------

  /** Going through the rows of the through table and then to each row's group reaches exactly the
      groups the many-to-many edge loads, when the through query has no predicate of its own and both
      group queries accept the same groups. */
  lemma {:induction false} TwoRoutesAgree(db: Database, q: AccountQuery, needed: Option<string>, t: AccountTree,
                                          gq: LeafQuery<GroupRow>, jq: AccountGroupQuery, viaJoin: LeafQuery<GroupRow>,
                                          g: GroupRow)
    requires db.Valid() && AccountNav(db, q, needed, t)
    requires q.withGroups == Some(gq) && q.withAccountGroups == Some(jq) && jq.withGroup == Some(viaJoin)
    requires forall j :: j in db.accountGroups ==> jq.where(j)
    requires forall h :: h in db.groups ==> (gq.where(h) <==> viaJoin.where(h))
    ensures g in LeafRows(t.groups) <==>
            exists i :: 0 <= i < |t.accountGroups| && LeafOrigin(t.accountGroups[i].group) == Some(g)
  {
    var id, js := t.origin.id, t.accountGroups;
    assert AccountGroupsNav(db, Some(jq), id, js);
    if g in LeafRows(t.groups) {
      var j :| j in db.accountGroups && j.accountId == id && j.groupId == g.id;
      assert j in JoinRows(js);
      var i :| 0 <= i < |js| && JoinRows(js)[i] == j;
      JoinGroup(db, jq, viaJoin, js[i]);
      assert g in db.groups && viaJoin.where(g) && g.id == js[i].origin.groupId;
    }
    if i :| 0 <= i < |js| && LeafOrigin(js[i].group) == Some(g) {
      assert JoinRows(js)[i] in JoinRows(js);
      JoinGroup(db, jq, viaJoin, js[i]);
      assert js[i].origin in db.accountGroups && js[i].origin.accountId == id && js[i].origin.groupId == g.id;
    }
  }

  lemma {:induction false} JoinGroup(db: Database, jq: AccountGroupQuery, gq: LeafQuery<GroupRow>, j: JoinTree)
    requires JoinNav(db, jq, Some("account_id"), j) && jq.withGroup == Some(gq)
    ensures forall g :: g in db.groups && gq.where(g) && g.id == j.origin.groupId <==> LeafOrigin(j.group) == Some(g)
  {
    assert GroupNav(db, Some(gq), j.origin.groupId, j.group);
    var p := (g: GroupRow) => gq.where(g) && g.id == j.origin.groupId;
    assert Lookup(db.groups, p, LeafOrigin(j.group));
    assert forall g :: g in db.groups && p(g) <==> LeafOrigin(j.group) == Some(g);
  }

  // ---------- Parent and children ----------

  /** Among loaded accounts, b is listed under a's children and a is b's parent together: each link is
      missing from one side only when the query of that side rejects the other end. */
  lemma {:induction false} ParentAndChildrenInverse(db: Database, q: AccountQuery, needed: Option<string>,
                                                    a: AccountTree, b: AccountTree, pq: AccountQuery, cq: AccountQuery)
    requires db.Valid() && a.origin in db.accounts && b.origin in db.accounts
    requires AccountNav(db, q, needed, a) && AccountNav(db, q, needed, b)
    requires q.withParent == Some(pq) && q.withChildren == Some(cq)
    ensures b.origin in AccountRows(a.children) && pq.where(a.origin) <==>
            Origin(b.parent) == Some(a.origin) && cq.where(b.origin)
    ensures b.origin in AccountRows(a.children) <==> b.origin.parentId == Some(a.origin.id) && cq.where(b.origin)
  {
    assert ChildrenNav(db, Some(cq), a.origin.id, a.children);
    assert ToOneNav(db, Some(pq), b.origin.parentId, b.parent);
    var p := (r: AccountRow) => pq.where(r) && b.origin.parentId == Some(r.id);
    assert Lookup(db.accounts, p, Origin(b.parent));
    assert a.origin in db.accounts && p(a.origin) <==> Origin(b.parent) == Some(a.origin);
  }

  // ---------- The result is determined when the orders are ----------

  ghost predicate Injective<R(!new)>(table: seq<R>, order: R -> int) {
    forall i, j :: 0 <= i < |table| && 0 <= j < |table| && order(table[i]) == order(table[j]) ==> table[i] == table[j]
  }

  lemma {:induction false} SelectionUnique<R(!new)>(table: seq<R>, p: R -> bool, order: R -> int, a: seq<R>, b: seq<R>)
    requires Selection(table, p, order, a) && Selection(table, p, order, b) && Injective(table, order)
    ensures a == b
  {
    SortedUnique(order, a, b, table);
  }

  lemma {:induction false} HasMember<R>(s: seq<R>)
    ensures s != [] <==> exists r :: r in s
  {
    if s != [] {
      assert s[0] in s;
    }
  }

  lemma {:induction false} SameTails<R(!new)>(a: seq<R>, b: seq<R>)
    requires NoDup(a) && NoDup(b) && a != [] && b != [] && a[0] == b[0]
    requires forall r :: r in a <==> r in b
    ensures forall r :: r in a[1..] <==> r in b[1..]
  {
    assert a == [a[0]] + a[1..] && b == [b[0]] + b[1..];
    assert a[0] !in a[1..] && b[0] !in b[1..];
    assert forall r :: r in a <==> r == a[0] || r in a[1..];
    assert forall r :: r in b <==> r == b[0] || r in b[1..];
  }

  lemma {:induction false} TailsToo<R>(order: R -> int, s: seq<R>)
    requires NoDup(s) && Sorted(order, s) && s != []
    ensures NoDup(s[1..]) && Sorted(order, s[1..]) && s == [s[0]] + s[1..]
    ensures forall r :: r in s[1..] ==> r in s
    ensures forall r :: r in s ==> order(s[0]) <= order(r)
  {
  }

  lemma {:induction false} SortedUnique<R(!new)>(order: R -> int, a: seq<R>, b: seq<R>, table: seq<R>)
    requires NoDup(a) && NoDup(b) && Sorted(order, a) && Sorted(order, b) && Injective(table, order)
    requires forall r :: r in a <==> r in b
    requires forall r :: r in a ==> r in table
    ensures a == b
    decreases |a|
  {
    hide NoDup, Sorted;
    HasMember(a);
    HasMember(b);
    if a != [] {
      TailsToo(order, a);
      TailsToo(order, b);
      assert order(a[0]) == order(b[0]) by {
        assert a[0] in b && b[0] in a;
      }
      assert a[0] in table && b[0] in table;
      assert a[0] == b[0];
      hide Injective;
      SameTails(a, b);
      SortedUnique(order, a[1..], b[1..], table);
    }
  }

  /** Every query of the tree orders its table without ties. */
  ghost predicate Ordered(db: Database, q: AccountQuery)
    decreases q
  {
    && Injective(db.accounts, q.order)
    && (q.withGroups.Some? ==> Injective(db.groups, q.withGroups.value.order))
    && (q.withParent.Some? ==> Ordered(db, q.withParent.value))
    && (q.withChildren.Some? ==> Ordered(db, q.withChildren.value))
    && (q.withAccountGroups.Some? ==> JoinsOrdered(db, q.withAccountGroups.value))
  }

  ghost predicate JoinsOrdered(db: Database, q: AccountGroupQuery)
    decreases q
  {
    && Injective(db.accountGroups, q.order)
    && (q.withAccount.Some? ==> Ordered(db, q.withAccount.value))
  }

  lemma {:induction false} GroupsUnique(db: Database, q: LeafQuery<GroupRow>, id: int, a: seq<Leaf<GroupRow>>,
                                        b: seq<Leaf<GroupRow>>)
    requires Injective(db.groups, q.order) && GroupsNav(db, Some(q), id, a) && GroupsNav(db, Some(q), id, b)
    ensures a == b
  {
    SelectionUnique(db.groups, (g: GroupRow) => q.where(g) && db.Joined(id, g.id), q.order, LeafRows(a), LeafRows(b));
    assert |a| == |b|;
    forall i | 0 <= i < |a|
      ensures a[i] == b[i]
    {
      assert LeafRows(a)[i] == LeafRows(b)[i];
    }
  }

  lemma {:induction false} GroupUnique(db: Database, q: Option<LeafQuery<GroupRow>>, fk: int, a: Option<Leaf<GroupRow>>,
                                       b: Option<Leaf<GroupRow>>)
    requires GroupNav(db, q, fk, a) && GroupNav(db, q, fk, b)
    ensures a == b
  {
    if q.Some? {
      var p := (g: GroupRow) => q.value.where(g) && g.id == fk;
      LookupUnique(db.groups, p, LeafOrigin(a), LeafOrigin(b));
    }
  }

  lemma {:induction false} LookupUnique<R(!new)>(table: seq<R>, p: R -> bool, a: Option<R>, b: Option<R>)
    requires Lookup(table, p, a) && Lookup(table, p, b)
    ensures a == b
  {
    if a.Some? {
      assert a.value in table && p(a.value);
    }
    if b.Some? {
      assert b.value in table && p(b.value);
    }
  }

  /** With tie-free orders, navigation from a row has one outcome, so a batched load returns the very
      trees that row-by-row navigation returns. */
  lemma {:induction false} NavigationUnique(db: Database, q: AccountQuery, needed: Option<string>, a: AccountTree,
                                            b: AccountTree)
    requires Ordered(db, q) && a.origin == b.origin
    requires AccountNav(db, q, needed, a) && AccountNav(db, q, needed, b)
    ensures a == b
    decreases q, 0
  {
    if q.withGroups.Some? {
      GroupsUnique(db, q.withGroups.value, a.origin.id, a.groups, b.groups);
    }
    if q.withParent.Some? {
      ToOneUnique(db, q.withParent.value, a.origin.parentId, a.parent, b.parent);
    }
    if q.withChildren.Some? {
      ChildrenUnique(db, q.withChildren.value, a.origin.id, a.children, b.children);
    }
    if q.withAccountGroups.Some? {
      JoinListsUnique(db, q.withAccountGroups.value, a.origin.id, a.accountGroups, b.accountGroups);
    }
  }

  lemma {:induction false} ToOneUnique(db: Database, q: AccountQuery, fk: Option<int>, a: Option<AccountTree>,
                                       b: Option<AccountTree>)
    requires Ordered(db, q) && ToOneNav(db, Some(q), fk, a) && ToOneNav(db, Some(q), fk, b)
    ensures a == b
    decreases q, 1
  {
    var p := (r: AccountRow) => q.where(r) && fk == Some(r.id);
    LookupUnique(db.accounts, p, Origin(a), Origin(b));
    if a.Some? {
      NavigationUnique(db, q, None, a.value, b.value);
    }
  }

  lemma {:induction false} ChildrenUnique(db: Database, q: AccountQuery, id: int, a: seq<AccountTree>,
                                          b: seq<AccountTree>)
    requires Ordered(db, q) && ChildrenNav(db, Some(q), id, a) && ChildrenNav(db, Some(q), id, b)
    ensures a == b
    decreases q, 1
  {
    var p := (r: AccountRow) => q.where(r) && r.parentId == Some(id);
    SelectionUnique(db.accounts, p, q.order, AccountRows(a), AccountRows(b));
    assert |a| == |AccountRows(a)| == |b|;
    forall i | 0 <= i < |a|
      ensures a[i] == b[i]
    {
      assert AccountRows(a)[i] == AccountRows(b)[i];
      NavigationUnique(db, q, Some("parent_account_id"), a[i], b[i]);
    }
  }

  lemma {:induction false} JoinListsUnique(db: Database, q: AccountGroupQuery, id: int, a: seq<JoinTree>,
                                           b: seq<JoinTree>)
    requires JoinsOrdered(db, q) && AccountGroupsNav(db, Some(q), id, a) && AccountGroupsNav(db, Some(q), id, b)
    ensures a == b
    decreases q, 1
  {
    var p := (j: JoinRow) => q.where(j) && j.accountId == id;
    SelectionUnique(db.accountGroups, p, q.order, JoinRows(a), JoinRows(b));
    assert |a| == |JoinRows(a)| == |b|;
    forall i | 0 <= i < |a|
      ensures a[i] == b[i]
    {
      assert JoinRows(a)[i] == JoinRows(b)[i];
      JoinUnique(db, q, a[i], b[i]);
    }
  }

  lemma {:induction false} JoinUnique(db: Database, q: AccountGroupQuery, a: JoinTree, b: JoinTree)
    requires JoinsOrdered(db, q) && a.origin == b.origin
    requires JoinNav(db, q, Some("account_id"), a) && JoinNav(db, q, Some("account_id"), b)
    ensures a == b
    decreases q, 0
  {
    if q.withAccount.Some? {
      ToOneUnique(db, q.withAccount.value, Some(a.origin.accountId), a.account, b.account);
    }
    GroupUnique(db, q.withGroup, a.origin.groupId, a.group, b.group);
  }

  // ---------- What the accessors say ----------

  /** After a load, the parent accessor tells apart an edge nobody asked for, a row without a loadable
      parent, and a parent. */
  lemma {:induction false} ParentAccessor(db: Database, q: AccountQuery, needed: Option<string>, n: Account)
    requires n.Mirrors() && n.loaded == LoadedFor(q) && AccountNav(db, q, needed, n.tree)
    ensures n.ParentOrErr() == Failure(NotLoaded) <==> q.withParent.None?
    ensures n.ParentOrErr() == Failure(NotFound) <==>
            q.withParent.Some? &&
            !exists a :: a in db.accounts && q.withParent.value.where(a) && n.origin.parentId == Some(a.id)
    ensures n.ParentOrErr().Success? ==>
              var p := n.ParentOrErr().value;
              p.tree.origin in db.accounts && n.origin.parentId == Some(p.tree.origin.id)
  {
    assert ToOneNav(db, q.withParent, n.origin.parentId, n.tree.parent);
    if q.withParent.Some? {
      var p := (a: AccountRow) => q.withParent.value.where(a) && n.origin.parentId == Some(a.id);
      assert Lookup(db.accounts, p, Origin(n.tree.parent));
      if n.parent != null {
        assert n.parent.tree.origin in db.accounts && p(n.parent.tree.origin);
      } else {
        assert forall a :: a in db.accounts ==> !p(a);
      }
    }
  }

  /** After a load, the children accessor fails exactly when nobody asked for the edge, and otherwise shows
      the accepted rows that name the account as their parent. */
  lemma {:induction false} ChildrenAccessor(db: Database, q: AccountQuery, needed: Option<string>, n: Account,
                                            r: AccountRow)
    requires n.Mirrors() && n.loaded == LoadedFor(q) && AccountNav(db, q, needed, n.tree)
    ensures n.ChildrenOrErr() == Failure(NotLoaded) <==> q.withChildren.None?
    ensures n.ChildrenOrErr().Failure? ==> n.ChildrenOrErr() == Failure(NotLoaded)
    ensures n.ChildrenOrErr().Success? ==>
              (r in AccountRows(Trees(n.ChildrenOrErr().value)) <==>
               r in db.accounts && q.withChildren.value.where(r) && r.parentId == Some(n.origin.id))
  {
    assert ChildrenNav(db, q.withChildren, n.origin.id, n.tree.children);
  }

  /** The same for the groups. */
  lemma {:induction false} GroupsAccessor(db: Database, q: AccountQuery, needed: Option<string>, n: Account,
                                          g: GroupRow)
    requires n.Mirrors() && n.loaded == LoadedFor(q) && AccountNav(db, q, needed, n.tree)
    ensures n.GroupsOrErr() == Failure(NotLoaded) <==> q.withGroups.None?
    ensures n.GroupsOrErr().Failure? ==> n.GroupsOrErr() == Failure(NotLoaded)
    ensures n.GroupsOrErr().Success? ==>
              (g in LeafRows(n.GroupsOrErr().value) <==>
               g in db.groups && q.withGroups.value.where(g) && db.Joined(n.origin.id, g.id))
  {
    assert GroupsNav(db, q.withGroups, n.origin.id, n.tree.groups);
  }

  /** And for the through rows. */
  lemma {:induction false} AccountGroupsAccessor(db: Database, q: AccountQuery, needed: Option<string>, n: Account,
                                                 j: JoinRow)
    requires n.Mirrors() && n.loaded == LoadedFor(q) && AccountNav(db, q, needed, n.tree)
    ensures n.AccountGroupsOrErr() == Failure(NotLoaded) <==> q.withAccountGroups.None?
    ensures n.AccountGroupsOrErr().Failure? ==> n.AccountGroupsOrErr() == Failure(NotLoaded)
    ensures n.AccountGroupsOrErr().Success? ==>
              (j in JoinRows(JoinTrees(n.AccountGroupsOrErr().value)) <==>
               j in db.accountGroups && q.withAccountGroups.value.where(j) && j.accountId == n.origin.id)
  {
    assert AccountGroupsNav(db, q.withAccountGroups, n.origin.id, n.tree.accountGroups);
  }
}
