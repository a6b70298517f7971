/** Eager loading, specified as navigation from one row at a time: no batches, no id lists, no
    hash maps. */
module EagerSpec {
  import opened Results
  import opened Selections

  // ---------- Tables ----------

  /** Columns that take part in no edge. */
  type Rest = map<string, string>

  datatype AccountRow = AccountRow(id: int, parentId: Option<int>, rest: Rest)
  datatype GroupRow = GroupRow(id: int, rest: Rest)
  /** The through table of the account-group relation; (accountId, groupId) is its primary key. */
  datatype JoinRow = JoinRow(accountId: int, groupId: int, rest: Rest)

  datatype Database = Database(
    accounts: seq<AccountRow>,
    groups: seq<GroupRow>,
    accountGroups: seq<JoinRow>,
    groupColumns: seq<string>)
  {
    /** Primary keys are keys. */
    ghost predicate Valid() {
      && (forall i, j :: 0 <= i < j < |accounts| ==> accounts[i].id != accounts[j].id)
      && (forall i, j :: 0 <= i < j < |groups| ==> groups[i].id != groups[j].id)
      && "id" in groupColumns
      && (forall i, j :: 0 <= i < j < |accountGroups| ==>
            accountGroups[i].accountId != accountGroups[j].accountId ||
            accountGroups[i].groupId != accountGroups[j].groupId)
    }

    ghost predicate Joined(accountId: int, groupId: int) {
      exists j :: j in accountGroups && j.accountId == accountId && j.groupId == groupId
    }
  }

  const ACCOUNT_COLUMNS := [
    "id", "created_at", "updated_at", "deleted_at", "name", "notes", "platform", "type", "credentials",
    "extra", "proxy_id", "proxy_fallback_origin_id", "concurrency", "load_factor", "priority",
    "rate_multiplier", "status", "error_message", "last_used_at", "expires_at", "auto_pause_on_expired",
    "schedulable", "rate_limited_at", "rate_limit_reset_at", "overload_until", "temp_unschedulable_until",
    "temp_unschedulable_reason", "session_window_start", "session_window_end", "session_window_status",
    "parent_account_id", "quota_dimension"]

  const ACCOUNT_GROUP_COLUMNS := ["account_id", "group_id", "priority", "created_at"]

  // ---------- Queries ----------

  /** A query for rows without further edges: predicates, ORDER BY, and the selected fields (none
      selected means all). */
  datatype LeafQuery<!R> = LeafQuery(where: R -> bool, order: R -> int, fields: seq<string>)

  datatype AccountQuery = AccountQuery(
    where: AccountRow -> bool,
    order: AccountRow -> int,
    fields: seq<string>,
    withGroups: Option<LeafQuery<GroupRow>>,
    withParent: Option<AccountQuery>,
    withChildren: Option<AccountQuery>,
    withAccountGroups: Option<AccountGroupQuery>)

  datatype AccountGroupQuery = AccountGroupQuery(
    where: JoinRow -> bool,
    order: JoinRow -> int,
    fields: seq<string>,
    withAccount: Option<AccountQuery>,
    withGroup: Option<LeafQuery<GroupRow>>)

  /** `ctx.AppendFieldOnce` and `Node.AddColumnOnce`. */
  function AppendOnce(columns: seq<string>, column: string): (r: seq<string>)
    ensures column in r && forall c :: c in columns ==> c in r
  {
    if column in columns then columns else columns + [column]
  }

  /** What a loader adds to the selected fields of its edge query. */
  function FieldsFor(fields: seq<string>, needed: Option<string>): seq<string> {
    if fields != [] && needed.Some? then AppendOnce(fields, needed.value) else fields
  }

  function WithoutId(fields: seq<string>): (r: seq<string>)
    ensures forall c :: c in fields && c != "id" ==> c in r
  {
    if fields == [] then []
    else (if fields[0] != "id" then [fields[0]] else []) + WithoutId(fields[1..])
  }

  /** The columns `querySpec` asks the database for. */
  function LeafColumns(fields: seq<string>, all: seq<string>): seq<string> {
    if fields == [] then all else ["id"] + WithoutId(fields)
  }

  function AccountColumns(q: AccountQuery, needed: Option<string>): seq<string> {
    var fields := FieldsFor(q.fields, needed);
    if fields == [] then ACCOUNT_COLUMNS
    else
      var ids := ["id"] + WithoutId(fields);
      if q.withParent.Some? then AppendOnce(ids, "parent_account_id") else ids
  }

  function AccountGroupColumns(q: AccountGroupQuery, needed: Option<string>): seq<string> {
    var fields := FieldsFor(q.fields, needed);
    if fields == [] then ACCOUNT_GROUP_COLUMNS
    else
      var withAccount := if q.withAccount.Some? then AppendOnce(fields, "account_id") else fields;
      if q.withGroup.Some? then AppendOnce(withAccount, "group_id") else withAccount
  }

  /** `prepareQuery` rejects a field that is not a column. */
  function InvalidField(fields: seq<string>, all: seq<string>): (bad: Option<string>)
    ensures bad.None? <==> forall f :: f in fields ==> f in all
  {
    if fields == [] then None
    else if fields[0] !in all then Some(fields[0])
    else InvalidField(fields[1..], all)
  }

  // ---------- Scanned nodes: columns that were not selected keep Go's zero value ----------

  function Picked(rest: Rest, columns: seq<string>): Rest {
    map c | c in rest && c in columns :: rest[c]
  }

  function ScanAccount(r: AccountRow, columns: seq<string>): AccountRow {
    AccountRow(
      if "id" in columns then r.id else 0,
      if "parent_account_id" in columns then r.parentId else None,
      Picked(r.rest, columns))
  }

  function ScanJoin(r: JoinRow, columns: seq<string>): JoinRow {
    JoinRow(
      if "account_id" in columns then r.accountId else 0,
      if "group_id" in columns then r.groupId else 0,
      Picked(r.rest, columns))
  }

  function ScanGroup(r: GroupRow, columns: seq<string>): GroupRow {
    GroupRow(if "id" in columns then r.id else 0, Picked(r.rest, columns))
  }

  /** A loaded node without edges: the row it was scanned from and the fields it shows. */
  datatype Leaf<R> = Leaf(origin: R, fields: R)

  /** A loaded account or join row with everything reachable from it. */
  datatype AccountTree = AccountTree(
    origin: AccountRow,
    fields: AccountRow,
    groups: seq<Leaf<GroupRow>>,
    parent: Option<AccountTree>,
    children: seq<AccountTree>,
    accountGroups: seq<JoinTree>)

  datatype JoinTree = JoinTree(
    origin: JoinRow,
    fields: JoinRow,
    account: Option<AccountTree>,
    group: Option<Leaf<GroupRow>>)

  // ---------- Navigation ----------

  function LeafRows<R>(ts: seq<Leaf<R>>): seq<R> {
    seq(|ts|, i requires 0 <= i < |ts| => ts[i].origin)
  }

  function AccountRows(ts: seq<AccountTree>): seq<AccountRow> {
    seq(|ts|, i requires 0 <= i < |ts| => ts[i].origin)
  }

  function JoinRows(ts: seq<JoinTree>): seq<JoinRow> {
    seq(|ts|, i requires 0 <= i < |ts| => ts[i].origin)
  }

  function Origin(t: Option<AccountTree>): Option<AccountRow> {
    match t
    case None => None
    case Some(a) => Some(a.origin)
  }

  function LeafOrigin<R>(t: Option<Leaf<R>>): Option<R> {
    match t
    case None => None
    case Some(l) => Some(l.origin)
  }

  ghost predicate GroupsNav(db: Database, q: Option<LeafQuery<GroupRow>>, id: int, ts: seq<Leaf<GroupRow>>) {
    match q
    case None => ts == []
    case Some(gq) =>
      && Selection(db.groups, (g: GroupRow) => gq.where(g) && db.Joined(id, g.id), gq.order, LeafRows(ts))
      && forall i :: 0 <= i < |ts| ==>
           ts[i].fields == ScanGroup(ts[i].origin, LeafColumns(gq.fields, db.groupColumns))
  }

  ghost predicate GroupNav(db: Database, q: Option<LeafQuery<GroupRow>>, fk: int, t: Option<Leaf<GroupRow>>) {
    match q
    case None => t == None
    case Some(gq) =>
      && Lookup(db.groups, (g: GroupRow) => gq.where(g) && g.id == fk, LeafOrigin(t))
      && (t.Some? ==> t.value.fields == ScanGroup(t.value.origin, LeafColumns(gq.fields, db.groupColumns)))
  }

  /** To-one: the account whose id is `fk`, if there is one and the edge query accepts it. */
  ghost predicate ToOneNav(db: Database, q: Option<AccountQuery>, fk: Option<int>, t: Option<AccountTree>)
    decreases q
  {
    match q
    case None => t == None
    case Some(aq) =>
      && Lookup(db.accounts, (a: AccountRow) => aq.where(a) && fk == Some(a.id), Origin(t))
      && (t.Some? ==> AccountNav(db, aq, None, t.value))
  }

  /** To-many: the accounts whose parent is `id`. */
  ghost predicate ChildrenNav(db: Database, q: Option<AccountQuery>, id: int, ts: seq<AccountTree>)
    decreases q
  {
    match q
    case None => ts == []
    case Some(cq) =>
      && Selection(db.accounts, (a: AccountRow) => cq.where(a) && a.parentId == Some(id), cq.order, AccountRows(ts))
      && forall i :: 0 <= i < |ts| ==> AccountNav(db, cq, Some("parent_account_id"), ts[i])
  }

  /** To-many: the rows of the through table that name the account. */
  ghost predicate AccountGroupsNav(db: Database, q: Option<AccountGroupQuery>, id: int, ts: seq<JoinTree>)
    decreases q
  {
    match q
    case None => ts == []
    case Some(jq) =>
      && Selection(db.accountGroups, (j: JoinRow) => jq.where(j) && j.accountId == id, jq.order, JoinRows(ts))
      && forall i :: 0 <= i < |ts| ==> JoinNav(db, jq, Some("account_id"), ts[i])
  }

  /** `t` is what one finds by starting at the row `t.origin` and following each requested edge. */
  ghost predicate AccountNav(db: Database, q: AccountQuery, needed: Option<string>, t: AccountTree)
    decreases q
  {
    && t.fields == ScanAccount(t.origin, AccountColumns(q, needed))
    && GroupsNav(db, q.withGroups, t.origin.id, t.groups)
    && ToOneNav(db, q.withParent, t.origin.parentId, t.parent)
    && ChildrenNav(db, q.withChildren, t.origin.id, t.children)
    && AccountGroupsNav(db, q.withAccountGroups, t.origin.id, t.accountGroups)
  }

  ghost predicate JoinNav(db: Database, q: AccountGroupQuery, needed: Option<string>, t: JoinTree)
    decreases q
  {
    && t.fields == ScanJoin(t.origin, AccountGroupColumns(q, needed))
    && ToOneNav(db, q.withAccount, Some(t.origin.accountId), t.account)
    && GroupNav(db, q.withGroup, t.origin.groupId, t.group)
  }

  /** A whole result: the accounts the query and the extra restriction accept, each navigated. */
  ghost predicate ResultNav(db: Database, q: AccountQuery, restrict: AccountRow -> bool, needed: Option<string>,
                            ts: seq<AccountTree>)
  {
    && Selection(db.accounts, (a: AccountRow) => q.where(a) && restrict(a), q.order, AccountRows(ts))
    && forall i :: 0 <= i < |ts| ==> AccountNav(db, q, needed, ts[i])
  }

  ghost predicate JoinResultNav(db: Database, q: AccountGroupQuery, restrict: JoinRow -> bool,
                                needed: Option<string>, ts: seq<JoinTree>)
  {
    && Selection(db.accountGroups, (j: JoinRow) => q.where(j) && restrict(j), q.order, JoinRows(ts))
    && forall i :: 0 <= i < |ts| ==> JoinNav(db, q, needed, ts[i])
  }

  // ---------- Field validation over a whole query tree ----------

  ghost predicate LeafValid<R>(q: Option<LeafQuery<R>>, all: seq<string>) {
    q.Some? ==> InvalidField(q.value.fields, all).None?
  }

  ghost predicate AccountFieldsValid(db: Database, q: AccountQuery)
    decreases q
  {
    && InvalidField(q.fields, ACCOUNT_COLUMNS).None?
    && LeafValid(q.withGroups, db.groupColumns)
    && (q.withParent.Some? ==> AccountFieldsValid(db, q.withParent.value))
    && (q.withChildren.Some? ==> AccountFieldsValid(db, q.withChildren.value))
    && (q.withAccountGroups.Some? ==> JoinFieldsValid(db, q.withAccountGroups.value))
  }

  ghost predicate JoinFieldsValid(db: Database, q: AccountGroupQuery)
    decreases q
  {
    && InvalidField(q.fields, ACCOUNT_GROUP_COLUMNS).None?
    && (q.withAccount.Some? ==> AccountFieldsValid(db, q.withAccount.value))
    && LeafValid(q.withGroup, db.groupColumns)
  }

  // ---------- The foreign keys the loaders read survive every projection ----------

  lemma AccountKeysKept(r: AccountRow, q: AccountQuery, needed: Option<string>)
    ensures ScanAccount(r, AccountColumns(q, needed)).id == r.id
    ensures q.withParent.Some? ==> ScanAccount(r, AccountColumns(q, needed)).parentId == r.parentId
    ensures needed == Some("parent_account_id") ==> ScanAccount(r, AccountColumns(q, needed)).parentId == r.parentId
  {
    assert ACCOUNT_COLUMNS[0] == "id" && ACCOUNT_COLUMNS[30] == "parent_account_id";
    assert (["id"] + WithoutId(FieldsFor(q.fields, needed)))[0] == "id";
  }

  lemma JoinKeysKept(r: JoinRow, q: AccountGroupQuery, needed: Option<string>)
    ensures q.withAccount.Some? || needed == Some("account_id") ==>
              ScanJoin(r, AccountGroupColumns(q, needed)).accountId == r.accountId
    ensures q.withGroup.Some? ==> ScanJoin(r, AccountGroupColumns(q, needed)).groupId == r.groupId
  {
    assert ACCOUNT_GROUP_COLUMNS[0] == "account_id" && ACCOUNT_GROUP_COLUMNS[1] == "group_id";
  }

  lemma LeafIdKept(fields: seq<string>, all: seq<string>)
    requires "id" in all
    ensures "id" in LeafColumns(fields, all)
  {
    assert fields != [] ==> LeafColumns(fields, all)[0] == "id";
  }
}
