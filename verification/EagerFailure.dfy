/** When a load fails: exactly when it reaches a query that selects something that is not a column. */
module EagerFailure {
  import opened Results
  import opened EagerSpec
  import opened EagerNodes
  import opened EagerBatch
  import opened EagerScatter

  // ---------- Following the edges from one row ----------

  ghost predicate LeafFails<R>(q: Option<LeafQuery<R>>, all: seq<string>) {
    q.Some? && InvalidField(q.value.fields, all).Some?
  }

  /** A nil key asks for nothing; any other key runs the query, even if no row has it. */
  ghost predicate ToOneFails(db: Database, q: Option<AccountQuery>, fk: Option<int>)
    decreases q, 1
  {
    q.Some? && fk.Some? &&
    (|| InvalidField(q.value.fields, ACCOUNT_COLUMNS).Some?
     || exists a :: a in db.accounts && q.value.where(a) && fk == Some(a.id) && RowFails(db, q.value, a))
  }

  ghost predicate ChildrenFail(db: Database, q: Option<AccountQuery>, id: int)
    decreases q, 1
  {
    q.Some? &&
    (|| InvalidField(q.value.fields, ACCOUNT_COLUMNS).Some?
     || exists a :: a in db.accounts && q.value.where(a) && a.parentId == Some(id) && RowFails(db, q.value, a))
  }

  ghost predicate JoinsFail(db: Database, q: Option<AccountGroupQuery>, id: int)
    decreases q, 1
  {
    q.Some? &&
    (|| InvalidField(q.value.fields, ACCOUNT_GROUP_COLUMNS).Some?
     || exists j :: j in db.accountGroups && q.value.where(j) && j.accountId == id && JoinFails(db, q.value, j))
  }

  ghost predicate RowFails(db: Database, q: AccountQuery, r: AccountRow)
    decreases q, 0
  {
    || LeafFails(q.withGroups, db.groupColumns)
    || ToOneFails(db, q.withParent, r.parentId)
    || ChildrenFail(db, q.withChildren, r.id)
    || JoinsFail(db, q.withAccountGroups, r.id)
  }

  ghost predicate JoinFails(db: Database, q: AccountGroupQuery, j: JoinRow)
    decreases q, 0
  {
    ToOneFails(db, q.withAccount, Some(j.accountId)) || LeafFails(q.withGroup, db.groupColumns)
  }

  /** The query itself, or an edge of a row it returns. */
  ghost predicate QueryFails(db: Database, q: AccountQuery, restrict: AccountRow -> bool) {
    || InvalidField(q.fields, ACCOUNT_COLUMNS).Some?
    || exists a :: a in db.accounts && q.where(a) && restrict(a) && RowFails(db, q, a)
  }

  ghost predicate JoinQueryFails(db: Database, q: AccountGroupQuery, restrict: JoinRow -> bool) {
    || InvalidField(q.fields, ACCOUNT_GROUP_COLUMNS).Some?
    || exists j :: j in db.accountGroups && q.where(j) && restrict(j) && JoinFails(db, q, j)
  }

  // ---------- One batch fails when one of its rows would ----------

  ghost predicate SomeToOneFails(db: Database, q: Option<AccountQuery>, fks: seq<Option<int>>) {
    exists i :: 0 <= i < |fks| && ToOneFails(db, q, fks[i])
  }

  ghost predicate SomeChildrenFail(db: Database, q: Option<AccountQuery>, ids: seq<int>) {
    exists i :: 0 <= i < |ids| && ChildrenFail(db, q, ids[i])
  }

  ghost predicate SomeJoinsFail(db: Database, q: Option<AccountGroupQuery>, ids: seq<int>) {
    exists i :: 0 <= i < |ids| && JoinsFail(db, q, ids[i])
  }

  lemma {:induction false} ToOneBatchFails(db: Database, q: AccountQuery, fks: seq<Option<int>>, ids: seq<int>)
    requires forall i :: 0 <= i < |fks| && fks[i].Some? ==> fks[i].value in ids
    requires forall k :: k in ids ==> Used(fks, k)
    ensures ids == [] ==> !SomeToOneFails(db, Some(q), fks)
    ensures ids != [] ==> (QueryFails(db, q, (a: AccountRow) => a.id in ids) <==> SomeToOneFails(db, Some(q), fks))
  {
    hide RowFails, InvalidField;
    if ids != [] {
      assert ids[0] in ids && Used(fks, ids[0]);
      var i :| 0 <= i < |fks| && fks[i] == Some(ids[0]);
      if InvalidField(q.fields, ACCOUNT_COLUMNS).Some? {
        assert ToOneFails(db, Some(q), fks[i]);
      }
      if a :| a in db.accounts && q.where(a) && a.id in ids && RowFails(db, q, a) {
        var j :| 0 <= j < |fks| && fks[j] == Some(a.id);
        assert ToOneFails(db, Some(q), fks[j]);
      }
    }
  }

  lemma {:induction false} ChildrenBatchFails(db: Database, q: AccountQuery, ids: seq<int>)
    requires ids != []
    ensures QueryFails(db, q, (a: AccountRow) => ChildOf(ids, a)) <==> SomeChildrenFail(db, Some(q), ids)
  {
    hide RowFails, InvalidField;
    if InvalidField(q.fields, ACCOUNT_COLUMNS).Some? {
      assert ChildrenFail(db, Some(q), ids[0]);
    }
    if a :| a in db.accounts && q.where(a) && ChildOf(ids, a) && RowFails(db, q, a) {
      var j :| 0 <= j < |ids| && Some(ids[j]) == a.parentId;
      assert ChildrenFail(db, Some(q), ids[j]);
    }
  }

  lemma {:induction false} JoinsBatchFails(db: Database, q: AccountGroupQuery, ids: seq<int>)
    requires ids != []
    ensures JoinQueryFails(db, q, (j: JoinRow) => j.accountId in ids) <==> SomeJoinsFail(db, Some(q), ids)
  {
    hide JoinFails, InvalidField;
    if InvalidField(q.fields, ACCOUNT_GROUP_COLUMNS).Some? {
      assert JoinsFail(db, Some(q), ids[0]);
    }
    if j :| j in db.accountGroups && q.where(j) && j.accountId in ids && JoinFails(db, q, j) {
      var k :| 0 <= k < |ids| && ids[k] == j.accountId;
      assert JoinsFail(db, Some(q), ids[k]);
    }
  }

  lemma {:induction false} NoEdgeNoFailure(db: Database, fks: seq<Option<int>>, ids: seq<int>)
    ensures !SomeToOneFails(db, None, fks) && !SomeChildrenFail(db, None, ids) && !SomeJoinsFail(db, None, ids)
  {
  }

  // ---------- The edges of a whole result ----------

  /** Some edge of some node fails. */
  ghost predicate EdgesFail(db: Database, q: AccountQuery, nodes: seq<Account>) {
    || (nodes != [] && LeafFails(q.withGroups, db.groupColumns))
    || SomeToOneFails(db, q.withParent, ParentKeys(nodes))
    || SomeChildrenFail(db, q.withChildren, Ids(nodes))
    || SomeJoinsFail(db, q.withAccountGroups, Ids(nodes))
  }

  ghost predicate JoinEdgesFail(db: Database, q: AccountGroupQuery, nodes: seq<AccountGroup>) {
    || SomeToOneFails(db, q.withAccount, OwnerKeys(nodes))
    || (nodes != [] && LeafFails(q.withGroup, db.groupColumns))
  }

  lemma {:induction false} EdgesFailByRow(db: Database, q: AccountQuery, rows: seq<AccountRow>, nodes: seq<Account>)
    requires |nodes| == |rows| && forall i :: 0 <= i < |nodes| ==> nodes[i].fields.id == rows[i].id
    requires forall i :: 0 <= i < |nodes| && q.withParent.Some? ==> nodes[i].fields.parentId == rows[i].parentId
    ensures EdgesFail(db, q, nodes) <==> exists i :: 0 <= i < |rows| && RowFails(db, q, rows[i])
  {
    hide InvalidField, LeafFails, ChildrenFail, JoinsFail;
    var fks, ids := ParentKeys(nodes), Ids(nodes);
    forall i | 0 <= i < |rows|
      ensures RowFails(db, q, rows[i]) <==>
              || LeafFails(q.withGroups, db.groupColumns) || ToOneFails(db, q.withParent, fks[i])
              || ChildrenFail(db, q.withChildren, ids[i]) || JoinsFail(db, q.withAccountGroups, ids[i])
    {
    }
    hide ToOneFails, RowFails;
    if nodes != [] && LeafFails(q.withGroups, db.groupColumns) {
      assert RowFails(db, q, rows[0]);
    }
  }

  /** The rows of a result are the rows the query accepts. */
  lemma {:induction false} ResultFails(db: Database, q: AccountQuery, restrict: AccountRow -> bool,
                                       rows: seq<AccountRow>)
    requires InvalidField(q.fields, ACCOUNT_COLUMNS).None?
    requires forall r :: r in rows <==> r in db.accounts && q.where(r) && restrict(r)
    ensures QueryFails(db, q, restrict) <==> exists i :: 0 <= i < |rows| && RowFails(db, q, rows[i])
  {
    hide RowFails;
    if a :| a in db.accounts && q.where(a) && restrict(a) && RowFails(db, q, a) {
      var i :| 0 <= i < |rows| && rows[i] == a;
    }
    if i :| 0 <= i < |rows| && RowFails(db, q, rows[i]) {
      assert rows[i] in rows;
    }
  }

  lemma {:induction false} JoinEdgesFailByRow(db: Database, q: AccountGroupQuery, rows: seq<JoinRow>,
                                              nodes: seq<AccountGroup>)
    requires |nodes| == |rows|
    requires forall i :: 0 <= i < |nodes| && q.withAccount.Some? ==> nodes[i].fields.accountId == rows[i].accountId
    ensures JoinEdgesFail(db, q, nodes) <==> exists i :: 0 <= i < |rows| && JoinFails(db, q, rows[i])
  {
    hide InvalidField, LeafFails;
    var fks := OwnerKeys(nodes);
    forall i | 0 <= i < |rows|
      ensures JoinFails(db, q, rows[i]) <==>
              ToOneFails(db, q.withAccount, fks[i]) || LeafFails(q.withGroup, db.groupColumns)
    {
    }
    hide ToOneFails, JoinFails;
    if nodes != [] && LeafFails(q.withGroup, db.groupColumns) {
      assert JoinFails(db, q, rows[0]);
    }
  }

  lemma {:induction false} JoinResultFails(db: Database, q: AccountGroupQuery, restrict: JoinRow -> bool,
                                           rows: seq<JoinRow>)
    requires InvalidField(q.fields, ACCOUNT_GROUP_COLUMNS).None?
    requires forall r :: r in rows <==> r in db.accountGroups && q.where(r) && restrict(r)
    ensures JoinQueryFails(db, q, restrict) <==> exists i :: 0 <= i < |rows| && JoinFails(db, q, rows[i])
  {
    hide JoinFails;
    if j :| j in db.accountGroups && q.where(j) && restrict(j) && JoinFails(db, q, j) {
      var i :| 0 <= i < |rows| && rows[i] == j;
    }
    if i :| 0 <= i < |rows| && JoinFails(db, q, rows[i]) {
      assert rows[i] in rows;
    }
  }

  // ---------- Valid fields everywhere ----------

  /** A query tree that selects columns only never fails, whatever the tables hold. */
  lemma {:induction false} ValidFieldsNeverFail(db: Database, q: AccountQuery, restrict: AccountRow -> bool)
    requires AccountFieldsValid(db, q)
    ensures !QueryFails(db, q, restrict)
  {
    hide RowFails, InvalidField;
    forall a
      ensures !RowFails(db, q, a)
    {
      ValidRowsNeverFail(db, q, a);
    }
  }

  lemma {:induction false} ValidRowsNeverFail(db: Database, q: AccountQuery, r: AccountRow)
    requires AccountFieldsValid(db, q)
    ensures !RowFails(db, q, r)
    decreases q
  {
    if q.withParent.Some? {
      forall a
        ensures !RowFails(db, q.withParent.value, a)
      {
        ValidRowsNeverFail(db, q.withParent.value, a);
      }
      assert !ToOneFails(db, q.withParent, r.parentId);
    }
    if q.withChildren.Some? {
      forall a
        ensures !RowFails(db, q.withChildren.value, a)
      {
        ValidRowsNeverFail(db, q.withChildren.value, a);
      }
      assert !ChildrenFail(db, q.withChildren, r.id);
    }
    if q.withAccountGroups.Some? {
      forall j
        ensures !JoinFails(db, q.withAccountGroups.value, j)
      {
        ValidJoinsNeverFail(db, q.withAccountGroups.value, j);
      }
      assert !JoinsFail(db, q.withAccountGroups, r.id);
    }
  }

  lemma {:induction false} ValidJoinsNeverFail(db: Database, q: AccountGroupQuery, j: JoinRow)
    requires JoinFieldsValid(db, q)
    ensures !JoinFails(db, q, j)
    decreases q
  {
    if q.withAccount.Some? {
      forall a
        ensures !RowFails(db, q.withAccount.value, a)
      {
        ValidRowsNeverFail(db, q.withAccount.value, a);
      }
      assert !ToOneFails(db, q.withAccount, Some(j.accountId));
    }
  }
}
