/** The nodes a query builds, linked through their edges and changed in place. */
module EagerNodes {
  import opened Results
  import opened EagerSpec

  datatype EdgeError = NotLoaded | NotFound

  /** Which edges a query asked for. */
  datatype Loaded = Loaded(groups: bool, parent: bool, children: bool, accountGroups: bool)

  function LoadedFor(q: AccountQuery): Loaded {
    Loaded(q.withGroups.Some?, q.withParent.Some?, q.withChildren.Some?, q.withAccountGroups.Some?)
  }

  class Account {
    ghost const origin: AccountRow
    const fields: AccountRow
    const loaded: Loaded
    var groups: seq<Leaf<GroupRow>>
    var parent: Account?
    var children: seq<Account>
    var accountGroups: seq<AccountGroup>
    /** The structure hanging off this node, fixed when its own edges are complete. */
    ghost var tree: AccountTree

    constructor (row: AccountRow, columns: seq<string>, loaded: Loaded)
      ensures origin == row && fields == ScanAccount(row, columns) && this.loaded == loaded
      ensures Bare()
    {
      origin, fields, this.loaded := row, ScanAccount(row, columns), loaded;
      groups, parent, children, accountGroups := [], null, [], [];
    }

    /** No edge has been attached yet. */
    ghost predicate Bare()
      reads this
    {
      groups == [] && parent == null && children == [] && accountGroups == []
    }

    /** `tree` says what the node's pointers say, one level down. */
    ghost predicate Mirrors()
      reads this, parent, children, accountGroups
    {
      && tree.origin == origin && tree.fields == fields
      && tree.groups == groups
      && tree.parent == TreeOf(parent)
      && tree.children == Trees(children)
      && tree.accountGroups == JoinTrees(accountGroups)
    }

    function GroupsOrErr(): Result<seq<Leaf<GroupRow>>, EdgeError>
      reads this
    {
      if loaded.groups then Success(groups) else Failure(NotLoaded)
    }

    function ParentOrErr(): Result<Account, EdgeError>
      reads this
    {
      if parent != null then Success(parent)
      else if loaded.parent then Failure(NotFound)
      else Failure(NotLoaded)
    }

    function ChildrenOrErr(): Result<seq<Account>, EdgeError>
      reads this
    {
      if loaded.children then Success(children) else Failure(NotLoaded)
    }

    function AccountGroupsOrErr(): Result<seq<AccountGroup>, EdgeError>
      reads this
    {
      if loaded.accountGroups then Success(accountGroups) else Failure(NotLoaded)
    }
  }

  class AccountGroup {
    ghost const origin: JoinRow
    const fields: JoinRow
    var account: Account?
    var group: Option<Leaf<GroupRow>>
    ghost var tree: JoinTree

    constructor (row: JoinRow, columns: seq<string>)
      ensures origin == row && fields == ScanJoin(row, columns)
      ensures account == null && group == None
    {
      origin, fields := row, ScanJoin(row, columns);
      account, group := null, None;
    }

    ghost predicate Mirrors()
      reads this, account
    {
      && tree.origin == origin && tree.fields == fields
      && tree.account == TreeOf(account)
      && tree.group == group
    }
  }

  ghost function TreeOf(a: Account?): Option<AccountTree>
    reads a
  {
    if a == null then None else Some(a.tree)
  }

  ghost function Trees(cs: seq<Account>): (ts: seq<AccountTree>)
    reads cs
    ensures |ts| == |cs| && forall i :: 0 <= i < |cs| ==> ts[i] == cs[i].tree
  {
    if cs == [] then [] else Trees(cs[..|cs| - 1]) + [cs[|cs| - 1].tree]
  }

  ghost function JoinTrees(gs: seq<AccountGroup>): (ts: seq<JoinTree>)
    reads gs
    ensures |ts| == |gs| && forall i :: 0 <= i < |gs| ==> ts[i] == gs[i].tree
  {
    if gs == [] then [] else JoinTrees(gs[..|gs| - 1]) + [gs[|gs| - 1].tree]
  }

  /** Every node's `tree` agrees with its pointers, and the pointers stay inside the two sets: the
      trees are the real shape of the heap. */
  ghost predicate Closed(S: set<Account>, T: set<AccountGroup>)
    reads S, T
  {
    && (forall a :: a in S ==>
          && (a.parent != null ==> a.parent in S)
          && (forall c :: c in a.children ==> c in S)
          && (forall g :: g in a.accountGroups ==> g in T)
          && a.Mirrors())
    && (forall g :: g in T ==>
          && (g.account != null ==> g.account in S)
          && g.Mirrors())
  }

  lemma {:induction false} ClosedEmpty()
    ensures Closed({}, {})
  {
  }

  lemma {:induction false} ClosedMirrors(S: set<Account>, T: set<AccountGroup>, ns: seq<Account>)
    requires Closed(S, T) && forall n :: n in ns ==> n in S
    ensures forall j :: 0 <= j < |ns| ==> ns[j].tree.fields == ns[j].fields
  {
    forall j | 0 <= j < |ns|
      ensures ns[j].tree.fields == ns[j].fields
    {
      assert ns[j] in ns;
      assert ns[j].Mirrors();
    }
  }

  lemma {:induction false} ClosedMirrorsJoins(S: set<Account>, T: set<AccountGroup>, ns: seq<AccountGroup>)
    requires Closed(S, T) && forall n :: n in ns ==> n in T
    ensures forall j :: 0 <= j < |ns| ==> ns[j].tree.fields == ns[j].fields
  {
    forall j | 0 <= j < |ns|
      ensures ns[j].tree.fields == ns[j].fields
    {
      assert ns[j] in ns;
      assert ns[j].Mirrors();
    }
  }

  lemma {:induction false} ClosedUnion(S: set<Account>, T: set<AccountGroup>, S': set<Account>, T': set<AccountGroup>)
    requires Closed(S, T) && Closed(S', T')
    ensures Closed(S + S', T + T')
  {
    hide Account.Mirrors, AccountGroup.Mirrors;
  }
}
