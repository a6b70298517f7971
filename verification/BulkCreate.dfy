/** Creating many accounts with one insert: a chain of mutators, each wrapped in its builder's hooks,
    the last of which runs the batch. */
module BulkCreate {
  import opened Results
  import opened Selections
  import opened AccountRecord
  import opened AccountCreate

  // ---------- Hooks, the store, and the state a run changes ----------

  datatype Error =
    | InvalidRow(cause: Invalid) | NoDefault(column: Column) | StoreError(text: string) | HookError(text: string)
    | UnexpectedNode

  /** A mutator's value may be anything: the node created, another account, or no account at all. */
  datatype Reply = Node(index: nat) | OtherAccount(account: Entity) | Foreign(text: string)

  /** What a mutator returns. */
  datatype Outcome = Ok(value: Reply) | Err(error: Error)

  /** A hook that calls its continuation at most once: it may answer by itself, edit the mutation,
      pass on another mutation object with the edited fields, and rewrite the answer. */
  datatype Hook = Hook(gate: Fields -> Option<Outcome>, edit: Fields -> Fields, swaps: bool, after: Outcome -> Outcome)

  /** A mutation object; `nodeAt` is where its id pointer points. */
  datatype Mutation = Mutation(fields: Fields, nodeAt: Option<nat>, done: bool)

  datatype Entity = Entity(fields: Fields, id: int)
  datatype Insert = Insert(spec: Spec, id: Option<int>)
  datatype Stored = Stored(id: int, spec: Spec)

  /** The database: it refuses a batch or assigns ids to all of it, and may or may not report them. */
  datatype Db = Db(
    refuse: (seq<Stored>, seq<Spec>) -> Option<string>, ids: (seq<Stored>, nat) -> seq<int>, reports: bool)
  {
    /** The database promises one new id per row. */
    ghost predicate AssignsFreshIds() {
      forall rows: seq<Stored>, n: nat ::
        && |ids(rows, n)| == n && NoDup(ids(rows, n))
        && forall r :: r in rows ==> r.id !in ids(rows, n)
    }
  }

  datatype Event = Enter(builder: nat, hook: nat) | Exit(builder: nat, hook: nat) | Batch(accepted: bool)

  /** The environment of a bulk create; builder `i` has the hooks `hooks[i]`. */
  datatype Config = Config(env: Env, db: Db, hooks: seq<seq<Hook>>)

  /** Mutation objects by number, the mutation each builder holds, the slices shared by the chain, the
      table, and what has happened. */
  datatype State = State(
    mutations: seq<Mutation>, held: seq<nat>, nodes: seq<Option<Entity>>, specs: seq<Option<Insert>>,
    rows: seq<Stored>, trace: seq<Event>)

  /** The links before `i` have run their `createSpec`. */
  ghost predicate Ready(c: Config, s: State, i: nat) {
    && |s.held| == |s.nodes| == |s.specs| == |c.hooks|
    && i <= |c.hooks|
    && (forall j :: 0 <= j < |s.held| ==> s.held[j] < |s.mutations|)
    && (forall j :: 0 <= j < i ==> s.nodes[j].Some? && s.specs[j].Some?)
  }

  // ---------- The chain ----------

  function Log(s: State, e: Event): State {
    s.(trace := s.trace + [e])
  }

  /** A hook's effect on the mutation it was given, and the mutation it passes on. */
  function Passed(s: State, hook: Hook, m: nat): (State, nat)
    requires m < |s.mutations|
  {
    var edited := hook.edit(s.mutations[m].fields);
    if hook.swaps then (s.(mutations := s.mutations + [Mutation(edited, None, false)]), |s.mutations|)
    else (s.(mutations := s.mutations[m := s.mutations[m].(fields := edited)]), m)
  }

  /** The builder takes the mutation it was given and compiles it. */
  function Compiled(s: State, i: nat, m: nat): State
    requires i < |s.held| == |s.nodes| == |s.specs| && m < |s.mutations|
  {
    var f := s.mutations[m].fields;
    s.(held := s.held[i := m],
       nodes := s.nodes[i := Some(Entity(f, 0))],
       specs := s.specs[i := Some(Insert(SpecOf(f), None))])
  }

  function Specs(specs: seq<Option<Insert>>): (r: seq<Spec>)
    requires forall j :: 0 <= j < |specs| ==> specs[j].Some?
    ensures |r| == |specs| && forall j :: 0 <= j < |r| ==> r[j] == specs[j].value.spec
  {
    seq(|specs|, j requires 0 <= j < |specs| => specs[j].value.spec)
  }

  /** The rows a batch adds. */
  function NewRows(db: Db, rows: seq<Stored>, specs: seq<Spec>): (r: seq<Stored>)
    requires |db.ids(rows, |specs|)| == |specs|
    ensures |r| == |specs| && forall j :: 0 <= j < |r| ==> r[j] == Stored(db.ids(rows, |specs|)[j], specs[j])
  {
    seq(|specs|, j requires 0 <= j < |specs| => Stored(db.ids(rows, |specs|)[j], specs[j]))
  }

  /** The specifications after the batch has reported the ids. */
  function Reported(specs: seq<Option<Insert>>, ids: seq<int>): (r: seq<Option<Insert>>)
    requires |ids| == |specs| && forall j :: 0 <= j < |specs| ==> specs[j].Some?
    ensures |r| == |specs| && forall j :: 0 <= j < |r| ==> r[j] == Some(Insert(specs[j].value.spec, Some(ids[j])))
  {
    seq(|specs|, j requires 0 <= j < |specs| => Some(Insert(specs[j].value.spec, Some(ids[j]))))
  }

  /** The single insert of all rows: everything or nothing. */
  function BatchCreate(c: Config, s: State): (r: (State, Option<Error>))
    requires Ready(c, s, |c.hooks|) && c.db.AssignsFreshIds()
    ensures Ready(c, r.0, |c.hooks|) && r.0.mutations == s.mutations && r.0.held == s.held && r.0.nodes == s.nodes
  {
    var specs := Specs(s.specs);
    match c.db.refuse(s.rows, specs)
    case Some(text) => (Log(s, Batch(false)), Some(StoreError(text)))
    case None =>
      var s' := Log(s, Batch(true)).(rows := s.rows + NewRows(c.db, s.rows, specs));
      (if c.db.reports then s'.(specs := Reported(s.specs, c.db.ids(s.rows, |specs|))) else s', None)
  }

  /** On the way back: the id of the node, the mutation's pointer to it, and `done`. */
  function Finished(s: State, i: nat, m: nat): State
    requires i < |s.nodes| == |s.specs| && m < |s.mutations| && s.nodes[i].Some? && s.specs[i].Some?
  {
    var node, id := s.nodes[i].value, s.specs[i].value.id;
    var named := if id.Some? then node.(id := id.value) else node;
    s.(nodes := s.nodes[i := Some(named)],
       mutations := s.mutations[m := s.mutations[m].(nodeAt := Some(i), done := true)])
  }

  /** Calling mutator `i` from its hook `h` on with mutation `m`. */
  function Run(c: Config, s: State, i: nat, h: nat, m: nat): (r: (State, Outcome))
    requires Ready(c, s, i) && c.db.AssignsFreshIds()
    requires i < |c.hooks| && h <= |c.hooks[i]| && m < |s.mutations|
    ensures Ready(c, r.0, i) && |r.0.mutations| >= |s.mutations|
    decreases |c.hooks| - i, if i < |c.hooks| then |c.hooks[i]| - h + 1 else 0
  {
    if h < |c.hooks[i]| then
      var hook := c.hooks[i][h];
      var entered := Log(s, Enter(i, h));
      match hook.gate(s.mutations[m].fields)
      case Some(answer) => (Log(entered, Exit(i, h)), answer)
      case None =>
        var (s', m') := Passed(entered, hook, m);
        var (t, answer) := Run(c, s', i, h + 1, m');
        (Log(t, Exit(i, h)), hook.after(answer))
    else
      match Check(c.env, s.mutations[s.held[i]].fields)
      case Some(cause) => (s, Err(InvalidRow(cause)))
      case None =>
        var (t, err) := Rest(c, Compiled(s, i, m), i);
        if err.Some? then (t, Err(err.value)) else (Finished(t, i, m), Ok(Node(i)))
  }

  /** What link `i` does after compiling: call the next mutator, or insert. */
  function Rest(c: Config, s: State, i: nat): (r: (State, Option<Error>))
    requires i < |c.hooks| && Ready(c, s, i + 1) && c.db.AssignsFreshIds()
    ensures Ready(c, r.0, i + 1) && |r.0.mutations| >= |s.mutations|
    decreases |c.hooks| - i, 0
  {
    if i < |c.hooks| - 1 then
      var (t, answer) := Run(c, s, i + 1, 0, s.held[i + 1]);
      (t, if answer.Ok? then None else Some(answer.error))
    else BatchCreate(c, s)
  }

  // ---------- Save ----------

  /** The mutation objects after the first `n` builders have run `defaults`; errors are dropped. */
  function DefaultedFirst(env: Env, mutations: seq<Mutation>, held: seq<nat>, n: nat): (r: seq<Mutation>)
    requires n <= |held| && forall j :: 0 <= j < |held| ==> held[j] < |mutations|
    ensures |r| == |mutations|
  {
    if n == 0 then mutations
    else
      var before, m := DefaultedFirst(env, mutations, held, n - 1), held[n - 1];
      before[m := before[m].(fields := Defaulted(env, before[m].fields).0)]
  }

  /** Where the chain starts: defaults filled in, nothing compiled. */
  function Start(c: Config, mutations: seq<Mutation>, held: seq<nat>, rows: seq<Stored>): (s: State)
    requires |held| == |c.hooks| && forall j :: 0 <= j < |held| ==> held[j] < |mutations|
    ensures Ready(c, s, 0)
  {
    var defaulted := DefaultedFirst(c.env, mutations, held, |held|);
    State(defaulted, held, seq(|held|, _ => None), seq(|held|, _ => None), rows, [])
  }

  function Save(c: Config, mutations: seq<Mutation>, held: seq<nat>, rows: seq<Stored>): (State, Option<Error>)
    requires |held| == |c.hooks| && forall j :: 0 <= j < |held| ==> held[j] < |mutations|
    requires c.db.AssignsFreshIds()
  {
    var s := Start(c, mutations, held, rows);
    if held == [] then (s, None)
    else
      var (t, answer) := Run(c, s, 0, 0, held[0]);
      (t, if answer.Err? then Some(answer.error) else None)
  }

  class AccountCreateBulk {
    const c: Config
    var mutations: seq<Mutation>
    /** The mutation object of each builder. */
    var held: seq<nat>
    var nodes: array<Option<Entity>>
    var specs: array<Option<Insert>>
    var rows: seq<Stored>
    ghost var trace: seq<Event>

    constructor (c: Config, mutations: seq<Mutation>, held: seq<nat>, rows: seq<Stored>)
      ensures this.c == c && this.mutations == mutations && this.held == held && this.rows == rows
    {
      this.c, this.mutations, this.held, this.rows, trace := c, mutations, held, rows, [];
      nodes := new Option<Entity>[0];
      specs := new Option<Insert>[0];
    }

    ghost function Snapshot(): State
      reads this, nodes, specs
    {
      State(mutations, held, nodes[..], specs[..], rows, trace)
    }

    /** The mutator of builder `i`, seen from its hook `h`. */
    method Mutate(i: nat, h: nat, m: nat) returns (answer: Outcome)
      requires Ready(c, Snapshot(), i) && c.db.AssignsFreshIds()
      requires i < |c.hooks| && h <= |c.hooks[i]| && m < |mutations|
      modifies `mutations, `held, `rows, `trace, nodes, specs
      ensures (Snapshot(), answer) == Run(c, old(Snapshot()), i, h, m)
      decreases |c.hooks| - i, |c.hooks[i]| - h + 1
    {
      hide Check, SpecOf, BatchCreate;
      if h < |c.hooks[i]| {
        var hook := c.hooks[i][h];
        trace := trace + [Enter(i, h)];
        var own := hook.gate(mutations[m].fields);
        if own.Some? {
          trace := trace + [Exit(i, h)];
          return own.value;
        }
        var passed := m;
        var edited := hook.edit(mutations[m].fields);
        if hook.swaps {
          passed := |mutations|;
          mutations := mutations + [Mutation(edited, None, false)];
        } else {
          mutations := mutations[m := mutations[m].(fields := edited)];
        }
        answer := Mutate(i, h + 1, passed);
        trace := trace + [Exit(i, h)];
        return hook.after(answer);
      }
      var cause := Check(c.env, mutations[held[i]].fields);
      if cause.Some? {
        return Err(InvalidRow(cause.value));
      }
      ghost var s := Snapshot();
      held := held[i := m];
      nodes[i], specs[i] := Some(Entity(mutations[m].fields, 0)), Some(Insert(SpecOf(mutations[m].fields), None));
      assert Snapshot() == Compiled(s, i, m);
      var err := Continue(i);
      ghost var t := Snapshot();
      if err.Some? {
        return Err(err.value);
      }
      if specs[i].value.id.Some? {
        nodes[i] := Some(nodes[i].value.(id := specs[i].value.id.value));
      }
      mutations := mutations[m := mutations[m].(nodeAt := Some(i), done := true)];
      assert Snapshot() == Finished(t, i, m);
      return Ok(Node(i));
    }

    /** What follows compilation: the next mutator, or the batch. */
    method Continue(i: nat) returns (err: Option<Error>)
      requires i < |c.hooks| && Ready(c, Snapshot(), i + 1) && c.db.AssignsFreshIds()
      modifies `mutations, `held, `rows, `trace, nodes, specs
      ensures (Snapshot(), err) == Rest(c, old(Snapshot()), i)
      decreases |c.hooks| - i, 0
    {
      hide Run, BatchCreate;
      if i < |c.hooks| - 1 {
        var answer := Mutate(i + 1, 0, held[i + 1]);
        return if answer.Ok? then None else Some(answer.error);
      }
      err := RunBatch();
    }

    /** The database's side of the batch. */
    method RunBatch() returns (err: Option<Error>)
      requires Ready(c, Snapshot(), |c.hooks|) && c.db.AssignsFreshIds()
      modifies `rows, `trace, specs
      ensures (Snapshot(), err) == BatchCreate(c, old(Snapshot()))
    {
      ghost var s := Snapshot();
      var batch := Specs(specs[..]);
      var refused := c.db.refuse(rows, batch);
      if refused.Some? {
        trace := trace + [Batch(false)];
        return Some(StoreError(refused.value));
      }
      var ids := c.db.ids(rows, |batch|);
      trace := trace + [Batch(true)];
      rows := rows + NewRows(c.db, rows, batch);
      if c.db.reports {
        for j := 0 to specs.Length
          invariant rows == s.rows + NewRows(c.db, s.rows, batch) && trace == s.trace + [Batch(true)]
          invariant forall k :: 0 <= k < j ==> specs[k] == Some(Insert(s.specs[k].value.spec, Some(ids[k])))
          invariant forall k :: j <= k < specs.Length ==> specs[k] == s.specs[k]
        {
          specs[j] := Some(Insert(specs[j].value.spec, Some(ids[j])));
        }
        assert specs[..] == Reported(s.specs, ids);
      }
      return None;
    }

    /** Runs `defaults` on every builder, dropping errors, and then the chain. */
    method SaveAll() returns (err: Option<Error>)
      requires |held| == |c.hooks| && forall j :: 0 <= j < |held| ==> held[j] < |mutations|
      requires c.db.AssignsFreshIds()
      modifies this
      ensures fresh(nodes) && fresh(specs)
      ensures (Snapshot(), err) == Save(c, old(mutations), old(held), old(rows))
    {
      hide Run;
      nodes := new Option<Entity>[|held|](_ => None);
      specs := new Option<Insert>[|held|](_ => None);
      trace := [];
      for i := 0 to |held|
        invariant held == old(held) && rows == old(rows) && trace == []
        invariant mutations == DefaultedFirst(c.env, old(mutations), old(held), i)
        invariant fresh(nodes) && fresh(specs) && nodes.Length == specs.Length == |held|
        invariant forall j :: 0 <= j < |held| ==> nodes[j] == None && specs[j] == None
      {
        var m := held[i];
        mutations := mutations[m := mutations[m].(fields := Defaulted(c.env, mutations[m].fields).0)];
      }
      assert Snapshot() == Start(c, old(mutations), held, rows);
      err := None;
      if held != [] {
        var answer := Mutate(0, 0, held[0]);
        err := if answer.Err? then Some(answer.error) else None;
      }
    }
  }
}
