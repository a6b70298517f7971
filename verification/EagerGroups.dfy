/** The many-to-many edge: one joined query, and two hash maps to hand every group to all its
    accounts. */
module EagerGroups {
  import opened Results
  import opened Selections
  import opened EagerSpec
  import opened EagerNodes
  import opened EagerScatter

  ghost predicate Linked(joins: seq<JoinRow>, n: nat, accountId: int, groupId: int)
    requires n <= |joins|
  {
    exists j :: 0 <= j < n && joins[j].accountId == accountId && joins[j].groupId == groupId
  }

  predicate RowsSorted(order: GroupRow -> int, rows: seq<(int, GroupRow)>) {
    forall i, j :: 0 <= i < j < |rows| ==> order(rows[i].1) <= order(rows[j].1)
  }

  /** What the joined query returns: each row links one of the accounts to an accepted group, and each
      such link has a row. Repeated links may repeat rows. */
  ghost predicate JoinedRows(db: Database, gq: LeafQuery<GroupRow>, ids: seq<int>, rows: seq<(int, GroupRow)>) {
    && (forall k :: 0 <= k < |rows| ==>
          && rows[k].1 in db.groups && gq.where(rows[k].1)
          && rows[k].0 in ids && db.Joined(rows[k].0, rows[k].1.id))
    && (forall a, g :: a in ids && g in db.groups && gq.where(g) && db.Joined(a, g.id) ==> (a, g) in rows)
    && RowsSorted(gq.order, rows)
  }

  /** Every link with its group's row. */
  method JoinAll(db: Database) returns (all: seq<(int, GroupRow)>)
    ensures forall a, g :: (a, g) in all <==> g in db.groups && db.Joined(a, g.id)
  {
    all := [];
    for n := 0 to |db.accountGroups|
      invariant forall a, g :: (a, g) in all <==> (g in db.groups && Linked(db.accountGroups, n, a, g.id))
    {
      var j := db.accountGroups[n];
      var linked := Keep(db.groups, (g: GroupRow) => g.id == j.groupId);
      var pairs := seq(|linked|, i requires 0 <= i < |linked| => (j.accountId, linked[i]));
      PairsOf(db.groups, j, linked, pairs);
      all := all + pairs;
    }
  }

  lemma {:induction false} PairsOf(groups: seq<GroupRow>, j: JoinRow, linked: seq<GroupRow>,
                                   pairs: seq<(int, GroupRow)>)
    requires linked == Keep(groups, (g: GroupRow) => g.id == j.groupId)
    requires |pairs| == |linked| && forall i :: 0 <= i < |linked| ==> pairs[i] == (j.accountId, linked[i])
    ensures forall a, g :: (a, g) in pairs <==> g in groups && a == j.accountId && g.id == j.groupId
  {
    KeepMembers(groups, (g: GroupRow) => g.id == j.groupId);
    forall a, g | g in linked && a == j.accountId
      ensures (a, g) in pairs
    {
      var i :| 0 <= i < |linked| && linked[i] == g;
      assert pairs[i] == (a, g);
    }
  }

  /** The joined query of loadGroups: for each link from one of the accounts to an accepted group, the
      account's id in front of the group's row, in the query's order. */
  method SelectJoined(db: Database, gq: LeafQuery<GroupRow>, ids: seq<int>) returns (rows: seq<(int, GroupRow)>)
    ensures JoinedRows(db, gq, ids, rows)
  {
    var all := JoinAll(db);
    var p := (r: (int, GroupRow)) => gq.where(r.1) && r.0 in ids;
    var key := (r: (int, GroupRow)) => gq.order(r.1);
    rows := Select(all, p, key);
    assert forall i, j :: 0 <= i < j < |rows| ==> key(rows[i]) <= key(rows[j]);
    SelectMembers(all, p, rows);
    forall k | 0 <= k < |rows|
      ensures rows[k].1 in db.groups && gq.where(rows[k].1) && rows[k].0 in ids && db.Joined(rows[k].0, rows[k].1.id)
    {
      var (a, g) := rows[k];
      assert rows[k] == (a, g) && (a, g) in all && p((a, g));
    }
    forall a, g | a in ids && g in db.groups && gq.where(g) && db.Joined(a, g.id)
      ensures (a, g) in rows
    {
      assert (a, g) in all && p((a, g));
    }
  }

  lemma {:induction false} SelectMembers<T>(table: seq<T>, p: T -> bool, rows: seq<T>)
    requires multiset(rows) == multiset(Keep(table, p))
    ensures forall k :: 0 <= k < |rows| ==> rows[k] in table && p(rows[k])
    ensures forall x :: x in table && p(x) ==> x in rows
  {
    var kept := Keep(table, p);
    KeepMembers(table, p);
    assert forall x :: x in rows <==> x in multiset(rows);
    assert forall x :: x in kept <==> x in multiset(kept);
    forall k | 0 <= k < |rows|
      ensures rows[k] in table && p(rows[k])
    {
      assert rows[k] in rows;
      var i :| 0 <= i < |kept| && kept[i] == rows[k];
    }
    forall x | x in table && p(x)
      ensures x in rows
    {
      var i :| 0 <= i < |table| && table[i] == x;
    }
  }

  ghost predicate Knows(gs: seq<GroupRow>, id: int) {
    exists i :: 0 <= i < |gs| && gs[i].id == id
  }

  /** The groups of the first `n` result rows, each at its first appearance. */
  ghost function Firsts(rows: seq<(int, GroupRow)>, n: nat): seq<GroupRow>
    requires n <= |rows|
  {
    if n == 0 then []
    else
      var before := Firsts(rows, n - 1);
      if Knows(before, rows[n - 1].1.id) then before else before + [rows[n - 1].1]
  }

  /** The accounts that the first `n` result rows link to group `g`. */
  ghost function Holders(rows: seq<(int, GroupRow)>, byID: map<int, Account>, g: int, n: nat): set<Account>
    requires n <= |rows| && forall k :: 0 <= k < n ==> rows[k].0 in byID
  {
    if n == 0 then {}
    else Holders(rows, byID, g, n - 1) + if rows[n - 1].1.id == g then {byID[rows[n - 1].0]} else {}
  }

  /** The Assign hook of loadGroups: the first row of a group makes its node, later rows only add to
      the set of accounts waiting for it. */
  method ScanJoined(rows: seq<(int, GroupRow)>, byID: map<int, Account>, columns: seq<string>)
    returns (neighbors: seq<Leaf<GroupRow>>, nids: map<int, set<Account>>)
    requires forall k :: 0 <= k < |rows| ==> rows[k].0 in byID
    ensures Scanned(rows, byID, columns, neighbors, nids)
  {
    neighbors, nids := [], map[];
    for n := 0 to |rows|
      invariant LeafRows(neighbors) == Firsts(rows, n)
      invariant forall i :: 0 <= i < |neighbors| ==> neighbors[i].fields == ScanGroup(neighbors[i].origin, columns)
      invariant forall g :: g in nids <==> Knows(Firsts(rows, n), g)
      invariant forall g :: Holders(rows, byID, g, n) == if g in nids then nids[g] else {}
    {
      var outValue, row := rows[n].0, rows[n].1;
      KnowsAppend(Firsts(rows, n), row);
      if row.id !in nids {
        nids := nids[row.id := {byID[outValue]}];
        neighbors := neighbors + [Leaf(row, ScanGroup(row, columns))];
      } else {
        nids := nids[row.id := nids[row.id] + {byID[outValue]}];
      }
    }
  }

  lemma {:induction false} KnowsAppend(gs: seq<GroupRow>, g: GroupRow)
    ensures forall id :: Knows(gs + [g], id) <==> Knows(gs, id) || id == g.id
  {
    forall id
      ensures Knows(gs + [g], id) <==> Knows(gs, id) || id == g.id
    {
      if i :| 0 <= i < |gs| && gs[i].id == id {
        assert (gs + [g])[i].id == id;
      }
      assert (gs + [g])[|gs|] == g;
    }
  }

  /** Is `a` waiting for the node `l`? */
  predicate Waits(nids: map<int, set<Account>>, a: Account, l: Leaf<GroupRow>) {
    l.fields.id in nids && a in nids[l.fields.id]
  }

  ghost function WaitedBy(nids: map<int, set<Account>>, a: Account): Leaf<GroupRow> -> bool {
    l => Waits(nids, a, l)
  }

  /** The last loop of loadGroups. The accounts of a group are visited in no particular order. */
  method AttachGroups(nodes: seq<Account>, neighbors: seq<Leaf<GroupRow>>, nids: map<int, set<Account>>)
    returns (ok: bool)
    requires forall i :: 0 <= i < |nodes| ==> nodes[i].groups == []
    requires forall g, a :: g in nids && a in nids[g] ==> a in nodes
    modifies nodes`groups
    ensures ok <==> forall j :: 0 <= j < |neighbors| ==> neighbors[j].fields.id in nids
    ensures ok ==> forall i :: 0 <= i < |nodes| ==>
                     nodes[i].groups == Keep(neighbors, WaitedBy(nids, nodes[i]))
  {
    for m := 0 to |neighbors|
      invariant forall j :: 0 <= j < m ==> neighbors[j].fields.id in nids
      invariant forall i :: 0 <= i < |nodes| ==>
                  nodes[i].groups == Keep(neighbors[..m], WaitedBy(nids, nodes[i]))
    {
      var n := neighbors[m];
      if n.fields.id !in nids {
        return false;
      }
      assert neighbors[..m + 1] == neighbors[..m] + [n];
      forall i | 0 <= i < |nodes|
        ensures Keep(neighbors[..m + 1], WaitedBy(nids, nodes[i])) ==
                Keep(neighbors[..m], WaitedBy(nids, nodes[i])) +
                  if nodes[i] in nids[n.fields.id] then [n] else []
      {
        KeepStep(neighbors[..m], n, WaitedBy(nids, nodes[i]));
      }
      assert forall a :: a in nids[n.fields.id] ==> a in nodes;
      AppendToEach(nids[n.fields.id], n);
    }
    assert neighbors[..|neighbors|] == neighbors;
    return true;
  }

  method AppendToEach(accounts: set<Account>, n: Leaf<GroupRow>)
    modifies accounts`groups
    ensures forall a :: a in accounts ==> a.groups == old(a.groups) + [n]
  {
    var left := accounts;
    while left != {}
      invariant left <= accounts
      invariant forall a :: a in left ==> a.groups == old(a.groups)
      invariant forall a :: a in accounts - left ==> a.groups == old(a.groups) + [n]
      decreases |left|
    {
      var kn :| kn in left;
      kn.groups := kn.groups + [n];
      left := left - {kn};
    }
  }

  predicate DistinctGroups(gs: seq<GroupRow>) {
    forall i, j :: 0 <= i < j < |gs| ==> gs[i].id != gs[j].id
  }

  /** First appearances come from the rows, and every group of the rows has one. */
  lemma {:induction false} FirstsComplete(rows: seq<(int, GroupRow)>, n: nat)
    requires n <= |rows|
    ensures forall k :: 0 <= k < n ==> Knows(Firsts(rows, n), rows[k].1.id)
  {
    if n > 0 {
      FirstsComplete(rows, n - 1);
      KnowsAppend(Firsts(rows, n - 1), rows[n - 1].1);
    }
  }

  lemma {:induction false} FirstsFrom(rows: seq<(int, GroupRow)>, n: nat, i: nat) returns (k: nat)
    requires n <= |rows| && i < |Firsts(rows, n)|
    ensures k < n && rows[k].1 == Firsts(rows, n)[i]
  {
    if i < |Firsts(rows, n - 1)| {
      k := FirstsFrom(rows, n - 1, i);
    } else {
      k := n - 1;
    }
  }

  /** First appearances: one per group, in the order of the rows. */
  lemma {:induction false} FirstsInOrder(rows: seq<(int, GroupRow)>, n: nat, order: GroupRow -> int)
    requires n <= |rows| && RowsSorted(order, rows)
    ensures DistinctGroups(Firsts(rows, n)) && Sorted(order, Firsts(rows, n))
  {
    if n > 0 {
      FirstsInOrder(rows, n - 1, order);
      var before, g := Firsts(rows, n - 1), rows[n - 1].1;
      forall i | 0 <= i < |before|
        ensures order(before[i]) <= order(g)
      {
        var k := FirstsFrom(rows, n - 1, i);
      }
    }
  }

  lemma {:induction false} HoldersFacts(rows: seq<(int, GroupRow)>, byID: map<int, Account>, g: int, n: nat, a: Account)
    requires n <= |rows| && forall k :: 0 <= k < n ==> rows[k].0 in byID
    ensures a in Holders(rows, byID, g, n) <==> exists k :: 0 <= k < n && rows[k].1.id == g && byID[rows[k].0] == a
  {
    if n > 0 {
      HoldersFacts(rows, byID, g, n - 1, a);
    }
  }

  /** An account waits for exactly the accepted groups it is joined to. */
  lemma {:induction false} WaitsMeansJoined(db: Database, gq: LeafQuery<GroupRow>, nodes: seq<Account>,
                                            byID: map<int, Account>,
                         rows: seq<(int, GroupRow)>, i: nat, g: GroupRow)
    requires db.Valid() && Indexed(nodes, byID) && i < |nodes| && g in db.groups
    requires JoinedRows(db, gq, Ids(nodes), rows)
    requires forall k :: 0 <= k < |rows| ==> rows[k].0 in byID
    ensures nodes[i] in Holders(rows, byID, g.id, |rows|) <==> gq.where(g) && db.Joined(nodes[i].fields.id, g.id)
  {
    HoldersFacts(rows, byID, g.id, |rows|, nodes[i]);
    var id := nodes[i].fields.id;
    assert Ids(nodes)[i] == id;
    if k :| 0 <= k < |rows| && rows[k].1.id == g.id && byID[rows[k].0] == nodes[i] {
      assert rows[k].0 == id && rows[k].1 == g;
    }
    if gq.where(g) && db.Joined(id, g.id) {
      assert (id, g) in rows;
      var k :| 0 <= k < |rows| && rows[k] == (id, g);
    }
  }

  /** What ScanJoined hands to the last loop. */
  ghost predicate Scanned(rows: seq<(int, GroupRow)>, byID: map<int, Account>, columns: seq<string>,
                          neighbors: seq<Leaf<GroupRow>>, nids: map<int, set<Account>>)
    requires forall k :: 0 <= k < |rows| ==> rows[k].0 in byID
  {
    && LeafRows(neighbors) == Firsts(rows, |rows|)
    && (forall i :: 0 <= i < |neighbors| ==> neighbors[i].fields == ScanGroup(neighbors[i].origin, columns))
    && (forall g :: g in nids <==> Knows(Firsts(rows, |rows|), g))
    && (forall g :: g in nids ==> nids[g] == Holders(rows, byID, g, |rows|))
  }

  /** The j-th neighbour is the j-th group to appear, and account i waits for it if joined to it. */
  lemma {:induction false} NeighborJoined(db: Database, gq: LeafQuery<GroupRow>, nodes: seq<Account>,
                                          byID: map<int, Account>,
                       rows: seq<(int, GroupRow)>, neighbors: seq<Leaf<GroupRow>>, nids: map<int, set<Account>>,
                       i: nat, j: nat)
    requires db.Valid() && Indexed(nodes, byID) && i < |nodes| && j < |neighbors|
    requires JoinedRows(db, gq, Ids(nodes), rows)
    requires forall k :: 0 <= k < |rows| ==> rows[k].0 in byID
    requires Scanned(rows, byID, LeafColumns(gq.fields, db.groupColumns), neighbors, nids)
    ensures var g := Firsts(rows, |rows|)[j];
            && neighbors[j].origin == g && g in db.groups && gq.where(g)
            && neighbors[j].fields.id == g.id && g.id in nids
            && (Waits(nids, nodes[i], neighbors[j]) <==> gq.where(g) && db.Joined(nodes[i].fields.id, g.id))
  {
    var gs := Firsts(rows, |rows|);
    LeafIdKept(gq.fields, db.groupColumns);
    assert LeafRows(neighbors)[j] == neighbors[j].origin;
    var k := FirstsFrom(rows, |rows|, j);
    assert Knows(gs, gs[j].id);
    assert "id" in LeafColumns(gq.fields, db.groupColumns);
    WaitsMeansJoined(db, gq, nodes, byID, rows, i, gs[j]);
  }

  /** The rows kept for an account are the accepted groups it is joined to. */
  lemma {:induction false} KeptAreJoined(db: Database, gq: LeafQuery<GroupRow>, nodes: seq<Account>,
                                         byID: map<int, Account>,
      rows: seq<(int, GroupRow)>, neighbors: seq<Leaf<GroupRow>>, nids: map<int, set<Account>>, i: nat)
    requires db.Valid() && Indexed(nodes, byID) && i < |nodes|
    requires JoinedRows(db, gq, Ids(nodes), rows)
    requires forall k :: 0 <= k < |rows| ==> rows[k].0 in byID
    requires Scanned(rows, byID, LeafColumns(gq.fields, db.groupColumns), neighbors, nids)
    ensures forall g :: g in LeafRows(Keep(neighbors, WaitedBy(nids, nodes[i]))) ==>
              g in db.groups && gq.where(g) && db.Joined(nodes[i].fields.id, g.id)
  {
    var p := WaitedBy(nids, nodes[i]);
    var mine := Keep(neighbors, p);
    forall g | g in LeafRows(mine)
      ensures g in db.groups && gq.where(g) && db.Joined(nodes[i].fields.id, g.id)
    {
      var m :| 0 <= m < |LeafRows(mine)| && LeafRows(mine)[m] == g;
      KeepMembers(neighbors, p);
      assert mine[m] in neighbors && p(mine[m]);
      var j :| 0 <= j < |neighbors| && neighbors[j] == mine[m];
      NeighborJoined(db, gq, nodes, byID, rows, neighbors, nids, i, j);
    }
  }

  /** Every accepted group the account is joined to is kept for it. */
  lemma {:induction false} JoinedIsKept(db: Database, gq: LeafQuery<GroupRow>, nodes: seq<Account>,
                                        byID: map<int, Account>,
      rows: seq<(int, GroupRow)>, neighbors: seq<Leaf<GroupRow>>, nids: map<int, set<Account>>, i: nat, g: GroupRow)
    requires db.Valid() && Indexed(nodes, byID) && i < |nodes|
    requires JoinedRows(db, gq, Ids(nodes), rows)
    requires forall k :: 0 <= k < |rows| ==> rows[k].0 in byID
    requires Scanned(rows, byID, LeafColumns(gq.fields, db.groupColumns), neighbors, nids)
    requires g in db.groups && gq.where(g) && db.Joined(nodes[i].fields.id, g.id)
    ensures g in LeafRows(Keep(neighbors, WaitedBy(nids, nodes[i])))
  {
    var p := WaitedBy(nids, nodes[i]);
    var mine := Keep(neighbors, p);
    var j := GroupAppears(db, gq, nodes, rows, i, g);
    assert LeafRows(neighbors)[j] == g;
    NeighborJoined(db, gq, nodes, byID, rows, neighbors, nids, i, j);
    KeepMembers(neighbors, p);
    assert neighbors[j] in mine;
    var m :| 0 <= m < |mine| && mine[m] == neighbors[j];
    assert LeafRows(mine)[m] == g;
  }

  /** Scattering one joined result over the accounts gives each account what its own query would. */
  lemma {:induction false} GroupsNavigate(db: Database, gq: LeafQuery<GroupRow>, nodes: seq<Account>,
                                          byID: map<int, Account>,
      rows: seq<(int, GroupRow)>, neighbors: seq<Leaf<GroupRow>>, nids: map<int, set<Account>>, i: nat)
    requires db.Valid() && Indexed(nodes, byID) && i < |nodes|
    requires JoinedRows(db, gq, Ids(nodes), rows)
    requires forall k :: 0 <= k < |rows| ==> rows[k].0 in byID
    requires Scanned(rows, byID, LeafColumns(gq.fields, db.groupColumns), neighbors, nids)
    ensures GroupsNav(db, Some(gq), nodes[i].fields.id, Keep(neighbors, WaitedBy(nids, nodes[i])))
  {
    var p := WaitedBy(nids, nodes[i]);
    var mine, id := Keep(neighbors, p), nodes[i].fields.id;
    FirstsInOrder(rows, |rows|, gq.order);
    KeptRows(neighbors, p, gq.order);
    KeptAreJoined(db, gq, nodes, byID, rows, neighbors, nids, i);
    forall g | g in db.groups && gq.where(g) && db.Joined(id, g.id)
      ensures g in LeafRows(mine)
    {
      JoinedIsKept(db, gq, nodes, byID, rows, neighbors, nids, i, g);
    }
    forall m | 0 <= m < |mine|
      ensures mine[m].fields == ScanGroup(mine[m].origin, LeafColumns(gq.fields, db.groupColumns))
    {
      KeepMembers(neighbors, p);
      var j :| 0 <= j < |neighbors| && neighbors[j] == mine[m];
    }
  }

  lemma {:induction false} AllExpected(db: Database, gq: LeafQuery<GroupRow>, nodes: seq<Account>,
                                       byID: map<int, Account>,
      rows: seq<(int, GroupRow)>, neighbors: seq<Leaf<GroupRow>>, nids: map<int, set<Account>>, i: nat)
    requires db.Valid() && Indexed(nodes, byID) && i < |nodes|
    requires JoinedRows(db, gq, Ids(nodes), rows)
    requires forall k :: 0 <= k < |rows| ==> rows[k].0 in byID
    requires Scanned(rows, byID, LeafColumns(gq.fields, db.groupColumns), neighbors, nids)
    ensures forall j :: 0 <= j < |neighbors| ==> neighbors[j].fields.id in nids
  {
    forall j | 0 <= j < |neighbors|
      ensures neighbors[j].fields.id in nids
    {
      NeighborJoined(db, gq, nodes, byID, rows, neighbors, nids, i, j);
    }
  }

  /** A group joined to an account appears among the first appearances. */
  lemma {:induction false} GroupAppears(db: Database, gq: LeafQuery<GroupRow>, nodes: seq<Account>, rows: seq<(int,
                                        GroupRow)>, i: nat,
                     g: GroupRow) returns (j: nat)
    requires db.Valid() && i < |nodes| && JoinedRows(db, gq, Ids(nodes), rows)
    requires g in db.groups && gq.where(g) && db.Joined(nodes[i].fields.id, g.id)
    ensures j < |Firsts(rows, |rows|)| && Firsts(rows, |rows|)[j] == g
  {
    var gs := Firsts(rows, |rows|);
    FirstsComplete(rows, |rows|);
    assert Ids(nodes)[i] == nodes[i].fields.id;
    assert (nodes[i].fields.id, g) in rows;
    var k :| 0 <= k < |rows| && rows[k] == (nodes[i].fields.id, g);
    assert Knows(gs, rows[k].1.id);
    j :| 0 <= j < |gs| && gs[j].id == g.id;
    var from := FirstsFrom(rows, |rows|, j);
    SameGroup(db, gs[j], g);
  }

  lemma {:induction false} SameGroup(db: Database, g: GroupRow, h: GroupRow)
    requires db.Valid() && g in db.groups && h in db.groups && g.id == h.id
    ensures g == h
  {
  }

  /** Keeping some leaves keeps the order of their rows and adds no repetition. */
  lemma {:induction false} KeptRows(ls: seq<Leaf<GroupRow>>, p: Leaf<GroupRow> -> bool, order: GroupRow -> int)
    requires DistinctGroups(LeafRows(ls)) && Sorted(order, LeafRows(ls))
    ensures NoDup(LeafRows(Keep(ls, p))) && Sorted(order, LeafRows(Keep(ls, p)))
  {
    var rows, key := LeafRows(ls), (l: Leaf<GroupRow>) => order(l.origin);
    forall i, j | 0 <= i < j < |ls|
      ensures ls[i] != ls[j] && key(ls[i]) <= key(ls[j])
    {
      assert rows[i].id != rows[j].id && order(rows[i]) <= order(rows[j]);
    }
    KeepNoDup(ls, p);
    KeepSorted(ls, p, key);
    KeepMembers(ls, p);
    var kept := Keep(ls, p);
    forall i, j | 0 <= i < j < |kept|
      ensures kept[i].origin != kept[j].origin && order(kept[i].origin) <= order(kept[j].origin)
    {
      var a :| 0 <= a < |ls| && ls[a] == kept[i];
      var b :| 0 <= b < |ls| && ls[b] == kept[j];
      assert a != b;
      assert rows[a].id != rows[b].id;
      assert key(kept[i]) <= key(kept[j]);
    }
  }

  /** The groups an account is joined to. */
  ghost function JoinedTo(db: Database, id: int): Leaf<GroupRow> -> bool {
    (l: Leaf<GroupRow>) => db.Joined(id, l.origin.id)
  }

  lemma {:induction false} KeepAgrees<T>(s: seq<T>, p: T -> bool, q: T -> bool)
    requires forall j :: 0 <= j < |s| ==> p(s[j]) == q(s[j])
    ensures Keep(s, p) == Keep(s, q)
  {
    if s != [] {
      KeepAgrees(s[..|s| - 1], p, q);
    }
  }

  /** Waiting for a neighbour is being joined to it. */
  lemma {:induction false} KeepJoined(db: Database, gq: LeafQuery<GroupRow>, nodes: seq<Account>,
                                      byID: map<int, Account>,
      rows: seq<(int, GroupRow)>, neighbors: seq<Leaf<GroupRow>>, nids: map<int, set<Account>>, i: nat)
    requires db.Valid() && Indexed(nodes, byID) && i < |nodes|
    requires JoinedRows(db, gq, Ids(nodes), rows)
    requires forall k :: 0 <= k < |rows| ==> rows[k].0 in byID
    requires Scanned(rows, byID, LeafColumns(gq.fields, db.groupColumns), neighbors, nids)
    ensures Keep(neighbors, WaitedBy(nids, nodes[i])) == Keep(neighbors, JoinedTo(db, nodes[i].fields.id))
  {
    var p, q := WaitedBy(nids, nodes[i]), JoinedTo(db, nodes[i].fields.id);
    forall j | 0 <= j < |neighbors|
      ensures p(neighbors[j]) == q(neighbors[j])
    {
      NeighborJoined(db, gq, nodes, byID, rows, neighbors, nids, i, j);
    }
    KeepAgrees(neighbors, p, q);
  }

  /** loadGroups: all accounts share one list of groups, each at its first appearance among the joined
      rows, and each account keeps from that list the groups it is joined to. */
  method LoadGroups(db: Database, gq: LeafQuery<GroupRow>, nodes: seq<Account>)
    returns (err: Option<string>, ghost rows: seq<(int, GroupRow)>, ghost neighbors: seq<Leaf<GroupRow>>)
    requires db.Valid() && NoDup(Ids(nodes))
    requires forall i :: 0 <= i < |nodes| ==> nodes[i].groups == []
    modifies nodes`groups
    ensures err.Some? <==> InvalidField(gq.fields, db.groupColumns).Some?
    ensures err.None? ==> JoinedRows(db, gq, Ids(nodes), rows) && LeafRows(neighbors) == Firsts(rows, |rows|)
    ensures err.None? ==> forall i :: 0 <= i < |nodes| ==>
              && nodes[i].groups == Keep(neighbors, JoinedTo(db, nodes[i].fields.id))
              && GroupsNav(db, Some(gq), nodes[i].fields.id, nodes[i].groups)
  {
    rows, neighbors := [], [];
    var edgeIDs, byID := IndexAccounts(nodes);
    err := InvalidField(gq.fields, db.groupColumns);
    if err.Some? {
      return;
    }
    var joined := SelectJoined(db, gq, edgeIDs);
    var found, nids := ScanJoined(joined, byID, LeafColumns(gq.fields, db.groupColumns));
    rows, neighbors := joined, found;
    assert LeafRows(neighbors) == Firsts(rows, |rows|);
    hide JoinedRows, Holders, Firsts, Indexed, Scanned, GroupsNav, Keep, Waits, WaitedBy, JoinedTo;
    RowsIndexed(db, gq, nodes, byID, rows);
    HoldersAreNodes(nodes, byID, rows, LeafColumns(gq.fields, db.groupColumns), neighbors, nids);
    var ok := AttachGroups(nodes, found, nids);
    forall i | 0 <= i < |nodes|
      ensures GroupsNav(db, Some(gq), nodes[i].fields.id, Keep(neighbors, WaitedBy(nids, nodes[i])))
      ensures Keep(neighbors, WaitedBy(nids, nodes[i])) == Keep(neighbors, JoinedTo(db, nodes[i].fields.id))
      ensures ok
    {
      AllExpected(db, gq, nodes, byID, rows, neighbors, nids, i);
      GroupsNavigate(db, gq, nodes, byID, rows, neighbors, nids, i);
      KeepJoined(db, gq, nodes, byID, rows, neighbors, nids, i);
    }
  }

  lemma {:induction false} RowsIndexed(db: Database, gq: LeafQuery<GroupRow>, nodes: seq<Account>,
                                       byID: map<int, Account>, rows: seq<(int, GroupRow)>)
    requires JoinedRows(db, gq, Ids(nodes), rows) && byID.Keys == Members(Ids(nodes))
    ensures forall k :: 0 <= k < |rows| ==> rows[k].0 in byID
  {
    forall k | 0 <= k < |rows|
      ensures rows[k].0 in byID
    {
      assert rows[k].0 in Members(Ids(nodes));
    }
  }

  lemma {:induction false} HoldersAreNodes(nodes: seq<Account>, byID: map<int, Account>, rows: seq<(int, GroupRow)>,
                                           columns: seq<string>, neighbors: seq<Leaf<GroupRow>>,
                                           nids: map<int, set<Account>>)
    requires Indexed(nodes, byID) && forall k :: 0 <= k < |rows| ==> rows[k].0 in byID
    requires Scanned(rows, byID, columns, neighbors, nids)
    ensures forall g, a :: g in nids && a in nids[g] ==> a in nodes
  {
    forall g, a | g in nids && a in nids[g]
      ensures a in nodes
    {
      HoldersFacts(rows, byID, g, |rows|, a);
      var k :| 0 <= k < |rows| && rows[k].1.id == g && byID[rows[k].0] == a;
      var id := rows[k].0;
      assert id in byID && byID[id] in nodes;
    }
  }
}
