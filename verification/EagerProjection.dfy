/** Selecting other fields, at any level of a query tree, changes what the loaded nodes show and
    nothing else. */
module EagerProjection {
  import opened Results
  import opened Selections
  import opened EagerSpec
  import opened EagerLaws

  // ---------- Query trees that differ in field lists ----------

  ghost predicate SameLeaf<R>(a: Option<LeafQuery<R>>, b: Option<LeafQuery<R>>) {
    match (a, b)
    case (None, None) => true
    case (Some(x), Some(y)) => x.where == y.where && x.order == y.order
    case _ => false
  }

  ghost predicate SameEdge(a: Option<AccountQuery>, b: Option<AccountQuery>)
    decreases a, 0
  {
    match (a, b)
    case (None, None) => true
    case (Some(x), Some(y)) => SameButFields(x, y)
    case _ => false
  }

  ghost predicate SameButFields(a: AccountQuery, b: AccountQuery)
    decreases a, 1
  {
    && a.where == b.where && a.order == b.order
    && SameLeaf(a.withGroups, b.withGroups)
    && SameEdge(a.withParent, b.withParent)
    && SameEdge(a.withChildren, b.withChildren)
    && match (a.withAccountGroups, b.withAccountGroups)
       case (None, None) => true
       case (Some(x), Some(y)) => SameJoinsButFields(x, y)
       case _ => false
  }

  ghost predicate SameJoinsButFields(a: AccountGroupQuery, b: AccountGroupQuery)
    decreases a, 1
  {
    && a.where == b.where && a.order == b.order
    && SameEdge(a.withAccount, b.withAccount)
    && SameLeaf(a.withGroup, b.withGroup)
  }

  // ---------- The same structure, shown through another query's fields ----------

  function ShownLeaf(db: Database, q: LeafQuery<GroupRow>, l: Leaf<GroupRow>): Leaf<GroupRow> {
    Leaf(l.origin, ScanGroup(l.origin, LeafColumns(q.fields, db.groupColumns)))
  }

  ghost function Shown(db: Database, q: AccountQuery, needed: Option<string>, t: AccountTree): AccountTree
    decreases q, 0
  {
    AccountTree(
      t.origin,
      ScanAccount(t.origin, AccountColumns(q, needed)),
      if q.withGroups.None? then []
      else seq(|t.groups|, i requires 0 <= i < |t.groups| => ShownLeaf(db, q.withGroups.value, t.groups[i])),
      if q.withParent.None? || t.parent.None? then None
      else Some(Shown(db, q.withParent.value, None, t.parent.value)),
      if q.withChildren.None? then [] else ShownAll(db, q.withChildren.value, Some("parent_account_id"), t.children),
      if q.withAccountGroups.None? then []
      else ShownJoins(db, q.withAccountGroups.value, Some("account_id"), t.accountGroups))
  }

  ghost function ShownAll(db: Database, q: AccountQuery, needed: Option<string>,
                          ts: seq<AccountTree>): (r: seq<AccountTree>)
    ensures |r| == |ts| && forall i :: 0 <= i < |ts| ==> r[i] == Shown(db, q, needed, ts[i])
    decreases q, 1
  {
    seq(|ts|, i requires 0 <= i < |ts| => Shown(db, q, needed, ts[i]))
  }

  ghost function ShownJoin(db: Database, q: AccountGroupQuery, needed: Option<string>, t: JoinTree): JoinTree
    decreases q, 0
  {
    JoinTree(
      t.origin,
      ScanJoin(t.origin, AccountGroupColumns(q, needed)),
      if q.withAccount.None? || t.account.None? then None
      else Some(Shown(db, q.withAccount.value, None, t.account.value)),
      if q.withGroup.None? || t.group.None? then None else Some(ShownLeaf(db, q.withGroup.value, t.group.value)))
  }

  ghost function ShownJoins(db: Database, q: AccountGroupQuery, needed: Option<string>,
                            ts: seq<JoinTree>): (r: seq<JoinTree>)
    ensures |r| == |ts| && forall i :: 0 <= i < |ts| ==> r[i] == ShownJoin(db, q, needed, ts[i])
    decreases q, 1
  {
    seq(|ts|, i requires 0 <= i < |ts| => ShownJoin(db, q, needed, ts[i]))
  }

  // ---------- Navigation does not depend on fields ----------

  lemma {:induction false} SameOrigins(db: Database, q: AccountQuery, needed: Option<string>, ts: seq<AccountTree>)
    ensures AccountRows(ShownAll(db, q, needed, ts)) == AccountRows(ts)
  {
  }

  lemma {:induction false} SameJoinOrigins(db: Database, q: AccountGroupQuery, needed: Option<string>,
                                           ts: seq<JoinTree>)
    ensures JoinRows(ShownJoins(db, q, needed, ts)) == JoinRows(ts)
  {
  }

  lemma {:induction false} GroupsShown(db: Database, q: Option<LeafQuery<GroupRow>>, p: LeafQuery<GroupRow>, id: int,
                                       ts: seq<Leaf<GroupRow>>, shown: seq<Leaf<GroupRow>>)
    requires SameLeaf(q, Some(p)) && GroupsNav(db, q, id, ts)
    requires |shown| == |ts| && forall i :: 0 <= i < |ts| ==> shown[i] == ShownLeaf(db, p, ts[i])
    ensures GroupsNav(db, Some(p), id, shown)
  {
    hide Selection;
    assert LeafRows(shown) == LeafRows(ts);
  }

  /** For two query trees that differ in field lists only, what one query finds from a row is what the
      other finds, shown through the other's fields. */
  lemma {:induction false} NavigationIgnoresFields(db: Database, q: AccountQuery, p: AccountQuery,
                                                   needed: Option<string>, t: AccountTree)
    requires SameButFields(q, p) && AccountNav(db, q, needed, t)
    ensures AccountNav(db, p, needed, Shown(db, p, needed, t))
    decreases q, 0
  {
    hide GroupsNav, ToOneNav, ChildrenNav, AccountGroupsNav, SameButFields, SameJoinsButFields;
    hide ScanAccount, AccountColumns;
    SameEdges(q, p);
    NothingShown(db, t.origin.id, t.origin.parentId);
    if p.withGroups.Some? {
      GroupsShown(db, q.withGroups, p.withGroups.value, t.origin.id, t.groups, Shown(db, p, needed, t).groups);
    }
    if p.withParent.Some? {
      ToOneIgnoresFields(db, q.withParent.value, p.withParent.value, t.origin.parentId, t.parent);
    }
    if p.withChildren.Some? {
      ChildrenIgnoreFields(db, q.withChildren.value, p.withChildren.value, t.origin.id, t.children);
    }
    if p.withAccountGroups.Some? {
      JoinListIgnoresFields(db, q.withAccountGroups.value, p.withAccountGroups.value, t.origin.id, t.accountGroups);
    }
  }

  lemma {:induction false} SameEdges(q: AccountQuery, p: AccountQuery)
    requires SameButFields(q, p)
    ensures SameLeaf(q.withGroups, p.withGroups)
    ensures (q.withParent.Some? <==> p.withParent.Some?) &&
            (q.withParent.Some? ==> SameButFields(q.withParent.value, p.withParent.value))
    ensures (q.withChildren.Some? <==> p.withChildren.Some?) &&
            (q.withChildren.Some? ==> SameButFields(q.withChildren.value, p.withChildren.value))
    ensures (q.withAccountGroups.Some? <==> p.withAccountGroups.Some?) &&
            (q.withAccountGroups.Some? ==> SameJoinsButFields(q.withAccountGroups.value, p.withAccountGroups.value))
  {
  }

  /** An edge nobody asked for is empty. */
  lemma {:induction false} NothingShown(db: Database, id: int, fk: Option<int>)
    ensures GroupsNav(db, None, id, []) && ToOneNav(db, None, fk, None)
    ensures ChildrenNav(db, None, id, []) && AccountGroupsNav(db, None, id, [])
    ensures forall t :: ToOneNav(db, None, fk, t) ==> t == None
  {
  }

  lemma {:induction false} ChildrenIgnoreFields(db: Database, q: AccountQuery, p: AccountQuery, id: int,
                                                ts: seq<AccountTree>)
    requires SameButFields(q, p) && ChildrenNav(db, Some(q), id, ts)
    ensures ChildrenNav(db, Some(p), id, ShownAll(db, p, Some("parent_account_id"), ts))
    decreases q, 2
  {
    hide AccountNav, Selection;
    ListIgnoresFields(db, q, p, Some("parent_account_id"), ts);
    SameOrigins(db, p, Some("parent_account_id"), ts);
  }

  lemma {:induction false} JoinListIgnoresFields(db: Database, q: AccountGroupQuery, p: AccountGroupQuery, id: int,
                                                 ts: seq<JoinTree>)
    requires SameJoinsButFields(q, p) && AccountGroupsNav(db, Some(q), id, ts)
    ensures AccountGroupsNav(db, Some(p), id, ShownJoins(db, p, Some("account_id"), ts))
    decreases q, 2
  {
    hide JoinNav, Selection;
    JoinsIgnoreFields(db, q, p, Some("account_id"), ts);
    SameJoinOrigins(db, p, Some("account_id"), ts);
  }

  lemma {:induction false} ToOneIgnoresFields(db: Database, q: AccountQuery, p: AccountQuery, fk: Option<int>,
                                              t: Option<AccountTree>)
    requires SameButFields(q, p) && ToOneNav(db, Some(q), fk, t)
    ensures ToOneNav(db, Some(p), fk, if t.None? then None else Some(Shown(db, p, None, t.value)))
    decreases q, 1
  {
    hide Lookup;
    if t.Some? {
      NavigationIgnoresFields(db, q, p, None, t.value);
    }
  }

  lemma {:induction false} ListIgnoresFields(db: Database, q: AccountQuery, p: AccountQuery, needed: Option<string>,
                                             ts: seq<AccountTree>)
    requires SameButFields(q, p) && forall i :: 0 <= i < |ts| ==> AccountNav(db, q, needed, ts[i])
    ensures forall i :: 0 <= i < |ts| ==> AccountNav(db, p, needed, ShownAll(db, p, needed, ts)[i])
    decreases q, 1
  {
    forall i | 0 <= i < |ts|
      ensures AccountNav(db, p, needed, ShownAll(db, p, needed, ts)[i])
    {
      NavigationIgnoresFields(db, q, p, needed, ts[i]);
    }
  }

  lemma {:induction false} JoinsIgnoreFields(db: Database, q: AccountGroupQuery, p: AccountGroupQuery,
                                             needed: Option<string>, ts: seq<JoinTree>)
    requires SameJoinsButFields(q, p) && forall i :: 0 <= i < |ts| ==> JoinNav(db, q, needed, ts[i])
    ensures forall i :: 0 <= i < |ts| ==> JoinNav(db, p, needed, ShownJoins(db, p, needed, ts)[i])
    decreases q, 1
  {
    forall i | 0 <= i < |ts|
      ensures JoinNav(db, p, needed, ShownJoins(db, p, needed, ts)[i])
    {
      var t := ts[i];
      if p.withAccount.Some? {
        ToOneIgnoresFields(db, q.withAccount.value, p.withAccount.value, Some(t.origin.accountId), t.account);
      }
    }
  }

  /** A whole result: the same rows in the same order, with the same edges. */
  lemma {:induction false} ResultIgnoresFields(db: Database, q: AccountQuery, p: AccountQuery,
                                               restrict: AccountRow -> bool,
                                               needed: Option<string>, ts: seq<AccountTree>)
    requires SameButFields(q, p) && ResultNav(db, q, restrict, needed, ts)
    ensures ResultNav(db, p, restrict, needed, ShownAll(db, p, needed, ts))
  {
    hide Selection, AccountNav;
    ListIgnoresFields(db, q, p, needed, ts);
    SameOrigins(db, p, needed, ts);
  }

  /** When no query has ties in its order, a load with other fields returns exactly the same structure. */
  lemma {:induction false} EdgesIgnoreProjection(db: Database, q: AccountQuery, p: AccountQuery, needed: Option<string>,
                                                 a: AccountTree, b: AccountTree)
    requires SameButFields(q, p) && Ordered(db, p) && a.origin == b.origin
    requires AccountNav(db, q, needed, a) && AccountNav(db, p, needed, b)
    ensures b == Shown(db, p, needed, a)
  {
    hide AccountNav, Ordered, SameButFields;
    NavigationIgnoresFields(db, q, p, needed, a);
    NavigationUnique(db, p, needed, Shown(db, p, needed, a), b);
  }
}
