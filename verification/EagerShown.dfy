/** What a loaded node shows of its row: exactly the selected columns, with the row's own values. */
module EagerShown {
  import opened Results
  import opened EagerSpec
  import AccountRecord

  // ---------- Which columns a query asks for ----------

  lemma {:induction false} WithoutIdHolds(fields: seq<string>, c: string)
    ensures c in WithoutId(fields) <==> c in fields && c != "id"
  {
    if fields != [] {
      WithoutIdHolds(fields[1..], c);
    }
  }

  lemma {:induction false} LeafColumnsHold(fields: seq<string>, all: seq<string>, c: string)
    ensures c in LeafColumns(fields, all) <==> if fields == [] then c in all else c == "id" || c in fields
  {
    WithoutIdHolds(fields, c);
  }

  lemma {:induction false} AppendOnceHolds(columns: seq<string>, column: string, c: string)
    ensures c in AppendOnce(columns, column) <==> c in columns || c == column
  {
  }

  lemma {:induction false} AccountColumnsHold(q: AccountQuery, needed: Option<string>, c: string)
    ensures c in AccountColumns(q, needed) <==>
            if q.fields == [] then c in ACCOUNT_COLUMNS
            else
              || c == "id" || c in q.fields || needed == Some(c)
              || (q.withParent.Some? && c == "parent_account_id")
  {
    var fields := FieldsFor(q.fields, needed);
    if needed.Some? {
      AppendOnceHolds(q.fields, needed.value, c);
    }
    WithoutIdHolds(fields, c);
    AppendOnceHolds(["id"] + WithoutId(fields), "parent_account_id", c);
    hide AppendOnce, WithoutId;
    assert fields == [] ==> q.fields == [];
  }

  lemma {:induction false} AccountGroupColumnsHold(q: AccountGroupQuery, needed: Option<string>, c: string)
    ensures c in AccountGroupColumns(q, needed) <==>
            if q.fields == [] then c in ACCOUNT_GROUP_COLUMNS
            else
              || c in q.fields || needed == Some(c)
              || (q.withAccount.Some? && c == "account_id") || (q.withGroup.Some? && c == "group_id")
  {
    var fields := FieldsFor(q.fields, needed);
    if needed.Some? {
      AppendOnceHolds(q.fields, needed.value, c);
    }
    var more := if q.withAccount.Some? then AppendOnce(fields, "account_id") else fields;
    AppendOnceHolds(fields, "account_id", c);
    AppendOnceHolds(more, "group_id", c);
    hide AppendOnce;
    assert fields == [] ==> q.fields == [];
  }

  // ---------- What is shown ----------

  /** The column is selected, by the query or for a loader that needs it; no selection selects all. */
  predicate Asked(fields: seq<string>, needed: Option<string>, all: seq<string>, c: string) {
    if fields == [] then c in all else c in fields || needed == Some(c)
  }

  /** Of the columns that are no keys, exactly those asked for are shown, with the row's values. */
  ghost predicate RestShown(fields: seq<string>, needed: Option<string>, all: seq<string>, keys: set<string>,
                            origin: Rest, shown: Rest)
  {
    && (forall c :: c in shown ==> c in origin && shown[c] == origin[c])
    && forall c :: c in origin && c !in keys ==> (c in shown <==> Asked(fields, needed, all, c))
  }

  ghost predicate LeafShown(fields: seq<string>, all: seq<string>, l: Leaf<GroupRow>) {
    l.fields.id == l.origin.id && RestShown(fields, None, all, {"id"}, l.origin.rest, l.fields.rest)
  }

  /** The account shows its id, the selected columns, and its parent key when that is selected or needed;
      and so does everything that hangs off it. */
  ghost predicate AccountShown(db: Database, q: AccountQuery, needed: Option<string>, t: AccountTree)
    decreases q
  {
    && t.fields.id == t.origin.id
    && t.fields.parentId == (if q.withParent.Some? || Asked(q.fields, needed, ACCOUNT_COLUMNS, "parent_account_id")
                             then t.origin.parentId else None)
    && RestShown(q.fields, needed, ACCOUNT_COLUMNS, {"id", "parent_account_id"}, t.origin.rest, t.fields.rest)
    && (q.withGroups.Some? ==> forall l :: l in t.groups ==> LeafShown(q.withGroups.value.fields, db.groupColumns, l))
    && (q.withParent.Some? && t.parent.Some? ==> AccountShown(db, q.withParent.value, None, t.parent.value))
    && (q.withChildren.Some? ==> forall i :: 0 <= i < |t.children| ==>
          AccountShown(db, q.withChildren.value, Some("parent_account_id"), t.children[i]))
    && (q.withAccountGroups.Some? ==> forall i :: 0 <= i < |t.accountGroups| ==>
          JoinShown(db, q.withAccountGroups.value, Some("account_id"), t.accountGroups[i]))
  }

  ghost predicate JoinShown(db: Database, q: AccountGroupQuery, needed: Option<string>, t: JoinTree)
    decreases q
  {
    && t.fields.accountId == (if q.withAccount.Some? || Asked(q.fields, needed, ACCOUNT_GROUP_COLUMNS, "account_id")
                              then t.origin.accountId else 0)
    && t.fields.groupId == (if q.withGroup.Some? || Asked(q.fields, needed, ACCOUNT_GROUP_COLUMNS, "group_id")
                            then t.origin.groupId else 0)
    && RestShown(q.fields, needed, ACCOUNT_GROUP_COLUMNS, {"account_id", "group_id"}, t.origin.rest, t.fields.rest)
    && (q.withAccount.Some? && t.account.Some? ==> AccountShown(db, q.withAccount.value, None, t.account.value))
    && (q.withGroup.Some? && t.group.Some? ==> LeafShown(q.withGroup.value.fields, db.groupColumns, t.group.value))
  }

  // ---------- One node ----------

  lemma {:induction false} PickedShows(fields: seq<string>, needed: Option<string>, all: seq<string>, keys: set<string>,
                                       origin: Rest, columns: seq<string>)
    requires forall c :: c !in keys ==> (c in columns <==> Asked(fields, needed, all, c))
    ensures RestShown(fields, needed, all, keys, origin, Picked(origin, columns))
  {
    hide Asked;
  }

  lemma {:induction false} LeafShows(fields: seq<string>, all: seq<string>, l: Leaf<GroupRow>)
    requires "id" in all && l.fields == ScanGroup(l.origin, LeafColumns(fields, all))
    ensures LeafShown(fields, all, l)
  {
    forall c
      ensures c in LeafColumns(fields, all) <==> if fields == [] then c in all else c == "id" || c in fields
    {
      LeafColumnsHold(fields, all, c);
    }
    hide LeafColumns, Picked;
    PickedShows(fields, None, all, {"id"}, l.origin.rest, LeafColumns(fields, all));
  }

  lemma {:induction false} KeyColumns()
    ensures "id" in ACCOUNT_COLUMNS && "parent_account_id" in ACCOUNT_COLUMNS
  {
    assert ACCOUNT_COLUMNS[0] == "id" && ACCOUNT_COLUMNS[30] == "parent_account_id";
  }

  lemma {:induction false} RowShows(q: AccountQuery, needed: Option<string>, r: AccountRow, shown: AccountRow)
    requires shown == ScanAccount(r, AccountColumns(q, needed))
    ensures shown.id == r.id
    ensures shown.parentId == (if q.withParent.Some? || Asked(q.fields, needed, ACCOUNT_COLUMNS, "parent_account_id")
                               then r.parentId else None)
    ensures RestShown(q.fields, needed, ACCOUNT_COLUMNS, {"id", "parent_account_id"}, r.rest, shown.rest)
  {
    KeyColumns();
    AccountColumnsHold(q, needed, "id");
    AccountColumnsHold(q, needed, "parent_account_id");
    forall c | c != "id" && c != "parent_account_id"
      ensures c in AccountColumns(q, needed) <==> Asked(q.fields, needed, ACCOUNT_COLUMNS, c)
    {
      AccountColumnsHold(q, needed, c);
    }
    hide AccountColumns, Picked, RestShown;
    PickedShows(q.fields, needed, ACCOUNT_COLUMNS, {"id", "parent_account_id"}, r.rest, AccountColumns(q, needed));
  }

  lemma {:induction false} JoinRowShows(q: AccountGroupQuery, needed: Option<string>, r: JoinRow, shown: JoinRow)
    requires shown == ScanJoin(r, AccountGroupColumns(q, needed))
    ensures shown.accountId == (if q.withAccount.Some? || Asked(q.fields, needed, ACCOUNT_GROUP_COLUMNS, "account_id")
                                then r.accountId else 0)
    ensures shown.groupId == (if q.withGroup.Some? || Asked(q.fields, needed, ACCOUNT_GROUP_COLUMNS, "group_id")
                              then r.groupId else 0)
    ensures RestShown(q.fields, needed, ACCOUNT_GROUP_COLUMNS, {"account_id", "group_id"}, r.rest, shown.rest)
  {
    assert ACCOUNT_GROUP_COLUMNS[0] == "account_id" && ACCOUNT_GROUP_COLUMNS[1] == "group_id";
    AccountGroupColumnsHold(q, needed, "account_id");
    AccountGroupColumnsHold(q, needed, "group_id");
    forall c | c != "account_id" && c != "group_id"
      ensures c in AccountGroupColumns(q, needed) <==> Asked(q.fields, needed, ACCOUNT_GROUP_COLUMNS, c)
    {
      AccountGroupColumnsHold(q, needed, c);
    }
    hide AccountGroupColumns, Picked, RestShown;
    PickedShows(q.fields, needed, ACCOUNT_GROUP_COLUMNS, {"account_id", "group_id"}, r.rest,
                AccountGroupColumns(q, needed));
  }

  // ---------- Whole trees ----------

  lemma {:induction false} GroupsShow(db: Database, q: LeafQuery<GroupRow>, id: int, ts: seq<Leaf<GroupRow>>)
    requires db.Valid() && GroupsNav(db, Some(q), id, ts)
    ensures forall l :: l in ts ==> LeafShown(q.fields, db.groupColumns, l)
  {
    hide LeafColumns, ScanGroup, LeafShown;
    forall i | 0 <= i < |ts|
      ensures LeafShown(q.fields, db.groupColumns, ts[i])
    {
      LeafShows(q.fields, db.groupColumns, ts[i]);
    }
  }

  /** Whatever navigation finds shows exactly what the queries select, at every node. */
  lemma {:induction false} NavigationShows(db: Database, q: AccountQuery, needed: Option<string>, t: AccountTree)
    requires db.Valid() && AccountNav(db, q, needed, t)
    ensures AccountShown(db, q, needed, t)
    decreases q
  {
    hide ScanAccount, AccountColumns, Database.Valid, RestShown, LeafShown, Asked;
    RowShows(q, needed, t.origin, t.fields);
    if q.withGroups.Some? {
      GroupsShow(db, q.withGroups.value, t.origin.id, t.groups);
    }
    if q.withParent.Some? && t.parent.Some? {
      NavigationShows(db, q.withParent.value, None, t.parent.value);
    }
    if q.withChildren.Some? {
      forall i | 0 <= i < |t.children|
        ensures AccountShown(db, q.withChildren.value, Some("parent_account_id"), t.children[i])
      {
        NavigationShows(db, q.withChildren.value, Some("parent_account_id"), t.children[i]);
      }
    }
    if q.withAccountGroups.Some? {
      forall i | 0 <= i < |t.accountGroups|
        ensures JoinShown(db, q.withAccountGroups.value, Some("account_id"), t.accountGroups[i])
      {
        JoinNavigationShows(db, q.withAccountGroups.value, Some("account_id"), t.accountGroups[i]);
      }
    }
  }

  lemma {:induction false} JoinNavigationShows(db: Database, q: AccountGroupQuery, needed: Option<string>, t: JoinTree)
    requires db.Valid() && JoinNav(db, q, needed, t)
    ensures JoinShown(db, q, needed, t)
    decreases q
  {
    hide ScanJoin, AccountGroupColumns, RestShown, Asked, ScanGroup, LeafColumns, LeafShown;
    JoinRowShows(q, needed, t.origin, t.fields);
    if q.withAccount.Some? && t.account.Some? {
      NavigationShows(db, q.withAccount.value, None, t.account.value);
    }
    if q.withGroup.Some? && t.group.Some? {
      LeafShows(q.withGroup.value.fields, db.groupColumns, t.group.value);
    }
  }

  /** A whole result shows exactly what its query tree selects. */
  lemma {:induction false} ResultShows(db: Database, q: AccountQuery, restrict: AccountRow -> bool,
                                       needed: Option<string>, ts: seq<AccountTree>)
    requires db.Valid() && ResultNav(db, q, restrict, needed, ts)
    ensures forall i :: 0 <= i < |ts| ==> AccountShown(db, q, needed, ts[i])
  {
    hide AccountNav, Database.Valid;
    forall i | 0 <= i < |ts|
      ensures AccountShown(db, q, needed, ts[i])
    {
      NavigationShows(db, q, needed, ts[i]);
    }
  }

  /** The default query of a plain table shows every column. */
  lemma {:induction false} DefaultShowsAll(db: Database, q: AccountQuery, needed: Option<string>, t: AccountTree)
    requires db.Valid() && AccountNav(db, q, needed, t) && q.fields == []
    requires forall c :: c in t.origin.rest ==> c in ACCOUNT_COLUMNS && c != "id" && c != "parent_account_id"
    ensures t.fields == t.origin
  {
    KeyColumns();
    NavigationShows(db, q, needed, t);
    hide AccountNav, Database.Valid;
    assert t.fields.rest == t.origin.rest;
  }

  /** The names of the columns, in the order in which the entity lists them. */
  lemma {:induction false} AccountColumnNames()
    ensures |ACCOUNT_COLUMNS| == AccountRecord.COLUMNS
    ensures ACCOUNT_COLUMNS[AccountRecord.ID] == "id"
    ensures ACCOUNT_COLUMNS[AccountRecord.CREATED_AT] == "created_at"
    ensures ACCOUNT_COLUMNS[AccountRecord.UPDATED_AT] == "updated_at"
    ensures ACCOUNT_COLUMNS[AccountRecord.DELETED_AT] == "deleted_at"
    ensures ACCOUNT_COLUMNS[AccountRecord.NAME] == "name"
    ensures ACCOUNT_COLUMNS[AccountRecord.NOTES] == "notes"
    ensures ACCOUNT_COLUMNS[AccountRecord.PLATFORM] == "platform"
    ensures ACCOUNT_COLUMNS[AccountRecord.TYPE] == "type"
    ensures ACCOUNT_COLUMNS[AccountRecord.CREDENTIALS] == "credentials"
    ensures ACCOUNT_COLUMNS[AccountRecord.EXTRA] == "extra"
    ensures ACCOUNT_COLUMNS[AccountRecord.PROXY_ID] == "proxy_id"
    ensures ACCOUNT_COLUMNS[AccountRecord.PROXY_FALLBACK_ORIGIN_ID] == "proxy_fallback_origin_id"
    ensures ACCOUNT_COLUMNS[AccountRecord.CONCURRENCY] == "concurrency"
    ensures ACCOUNT_COLUMNS[AccountRecord.LOAD_FACTOR] == "load_factor"
    ensures ACCOUNT_COLUMNS[AccountRecord.PRIORITY] == "priority"
    ensures ACCOUNT_COLUMNS[AccountRecord.RATE_MULTIPLIER] == "rate_multiplier"
    ensures ACCOUNT_COLUMNS[AccountRecord.STATUS] == "status"
    ensures ACCOUNT_COLUMNS[AccountRecord.ERROR_MESSAGE] == "error_message"
    ensures ACCOUNT_COLUMNS[AccountRecord.LAST_USED_AT] == "last_used_at"
    ensures ACCOUNT_COLUMNS[AccountRecord.EXPIRES_AT] == "expires_at"
    ensures ACCOUNT_COLUMNS[AccountRecord.AUTO_PAUSE_ON_EXPIRED] == "auto_pause_on_expired"
    ensures ACCOUNT_COLUMNS[AccountRecord.SCHEDULABLE] == "schedulable"
    ensures ACCOUNT_COLUMNS[AccountRecord.RATE_LIMITED_AT] == "rate_limited_at"
    ensures ACCOUNT_COLUMNS[AccountRecord.RATE_LIMIT_RESET_AT] == "rate_limit_reset_at"
    ensures ACCOUNT_COLUMNS[AccountRecord.OVERLOAD_UNTIL] == "overload_until"
    ensures ACCOUNT_COLUMNS[AccountRecord.TEMP_UNSCHEDULABLE_UNTIL] == "temp_unschedulable_until"
    ensures ACCOUNT_COLUMNS[AccountRecord.TEMP_UNSCHEDULABLE_REASON] == "temp_unschedulable_reason"
    ensures ACCOUNT_COLUMNS[AccountRecord.SESSION_WINDOW_START] == "session_window_start"
    ensures ACCOUNT_COLUMNS[AccountRecord.SESSION_WINDOW_END] == "session_window_end"
    ensures ACCOUNT_COLUMNS[AccountRecord.SESSION_WINDOW_STATUS] == "session_window_status"
    ensures ACCOUNT_COLUMNS[AccountRecord.PARENT_ACCOUNT_ID] == "parent_account_id"
    ensures ACCOUNT_COLUMNS[AccountRecord.QUOTA_DIMENSION] == "quota_dimension"
  {
  }

  lemma {:induction false} JoinColumnNames()
    ensures forall c :: c in ACCOUNT_GROUP_COLUMNS <==> c in {"account_id", "group_id", "priority", "created_at"}
  {
  }
}
