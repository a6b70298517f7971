/** Laws of the bulk-create chain, over every way hooks can behave. */
module BulkLaws {
  import opened Results
  import opened Selections
  import opened AccountCreate
  import opened BulkCreate

  /** Mutator `i` may be called from hook `h` on with mutation `m`. */
  ghost predicate Callable(c: Config, s: State, i: nat, h: nat, m: nat) {
    && Ready(c, s, i) && c.db.AssignsFreshIds()
    && i < |c.hooks| && h <= |c.hooks[i]| && m < |s.mutations|
  }

  // ---------- The steps of a run ----------

  /** What hook `h` of builder `i` answers by itself, if it does. */
  function Answer(c: Config, s: State, i: nat, h: nat, m: nat): Option<Outcome>
    requires i < |c.hooks| && h < |c.hooks[i]| && m < |s.mutations|
  {
    c.hooks[i][h].gate(s.mutations[m].fields)
  }

  function Reject(c: Config, s: State, i: nat): Option<Invalid>
    requires i < |s.held| && s.held[i] < |s.mutations|
  {
    Check(c.env, s.mutations[s.held[i]].fields)
  }

  lemma {:induction false} AnswerStep(c: Config, s: State, i: nat, h: nat, m: nat)
    requires Callable(c, s, i, h, m) && h < |c.hooks[i]| && Answer(c, s, i, h, m).Some?
    ensures Run(c, s, i, h, m) == (Log(Log(s, Enter(i, h)), Exit(i, h)), Answer(c, s, i, h, m).value)
  {
  }

  lemma {:induction false} PassStep(c: Config, s: State, i: nat, h: nat, m: nat)
    returns (s': State, m': nat, t: State, answer: Outcome)
    requires Callable(c, s, i, h, m) && h < |c.hooks[i]| && Answer(c, s, i, h, m).None?
    ensures (s', m') == Passed(Log(s, Enter(i, h)), c.hooks[i][h], m) && Callable(c, s', i, h + 1, m')
    ensures (t, answer) == Run(c, s', i, h + 1, m')
    ensures Run(c, s, i, h, m) == (Log(t, Exit(i, h)), c.hooks[i][h].after(answer))
  {
    hide Check, SpecOf;
    var passed := Passed(Log(s, Enter(i, h)), c.hooks[i][h], m);
    s', m' := passed.0, passed.1;
    var r := Run(c, s', i, h + 1, m');
    t, answer := r.0, r.1;
  }

  lemma {:induction false} RejectStep(c: Config, s: State, i: nat, m: nat)
    requires i < |c.hooks| && Callable(c, s, i, |c.hooks[i]|, m) && Reject(c, s, i).Some?
    ensures Run(c, s, i, |c.hooks[i]|, m) == (s, Err(InvalidRow(Reject(c, s, i).value)))
  {
    hide Check, SpecOf;
  }

  lemma {:induction false} LinkStep(c: Config, s: State, i: nat, m: nat) returns (t: State, answer: Outcome)
    requires i < |c.hooks| && Callable(c, s, i, |c.hooks[i]|, m) && Reject(c, s, i).None? && i < |c.hooks| - 1
    ensures var next := Compiled(s, i, m);
            && Callable(c, next, i + 1, 0, s.held[i + 1])
            && (t, answer) == Run(c, next, i + 1, 0, s.held[i + 1])
    ensures Ready(c, t, i + 1) && |t.mutations| >= |s.mutations|
    ensures Run(c, s, i, |c.hooks[i]|, m) == if answer.Err? then (t, answer) else (Finished(t, i, m), Ok(Node(i)))
  {
    hide Check, SpecOf;
    var next := Compiled(s, i, m);
    var r := Run(c, next, i + 1, 0, s.held[i + 1]);
    t, answer := r.0, r.1;
    assert (t, if answer.Ok? then None else Some(answer.error)) == Rest(c, next, i);
  }

  lemma {:induction false} BatchStep(c: Config, s: State, i: nat, m: nat) returns (t: State, err: Option<Error>)
    requires i < |c.hooks| && Callable(c, s, i, |c.hooks[i]|, m) && Reject(c, s, i).None? && i == |c.hooks| - 1
    ensures var full := Compiled(s, i, m);
            && Ready(c, full, |c.hooks|) && (t, err) == BatchCreate(c, full)
    ensures Ready(c, t, |c.hooks|) && t.mutations == s.mutations
    ensures Run(c, s, i, |c.hooks[i]|, m) == if err.Some? then (t, Err(err.value)) else (Finished(t, i, m), Ok(Node(i)))
  {
    hide Check, SpecOf, BatchCreate;
    var full := Compiled(s, i, m);
    var r := BatchCreate(c, full);
    t, err := r.0, r.1;
    assert (t, err) == Rest(c, full, i);
  }

  /** The way back touches neither the table nor the log. */
  lemma {:induction false} FinishedKeeps(s: State, i: nat, m: nat)
    requires i < |s.nodes| == |s.specs| && m < |s.mutations| && s.nodes[i].Some? && s.specs[i].Some?
    ensures Finished(s, i, m).trace == s.trace && Finished(s, i, m).rows == s.rows
    ensures Finished(s, i, m).specs == s.specs && Finished(s, i, m).held == s.held
  {
  }

  // ---------- Hooks nest ----------

  /** The hooks a complete run passes, from hook `h` of builder `i` on. */
  function Path(c: Config, i: nat, h: nat): seq<(nat, nat)>
    decreases |c.hooks| - i, if i < |c.hooks| then |c.hooks[i]| - h else 0
  {
    if i >= |c.hooks| then []
    else if h < |c.hooks[i]| then [(i, h)] + Path(c, i, h + 1)
    else Path(c, i + 1, 0)
  }

  function Enters(p: seq<(nat, nat)>): seq<Event> {
    if p == [] then [] else [Enter(p[0].0, p[0].1)] + Enters(p[1..])
  }

  /** The exits in reverse order. */
  function Exits(p: seq<(nat, nat)>): seq<Event> {
    if p == [] then [] else Exits(p[1..]) + [Exit(p[0].0, p[0].1)]
  }

  /** What one run logs: it enters the first `depth` hooks of the path, attempts the batch at most once
      and only at the very end of the path, and leaves the same hooks in reverse. */
  ghost predicate Nested(c: Config, i: nat, h: nat, depth: nat, core: seq<Event>, log: seq<Event>) {
    && depth <= |Path(c, i, h)|
    && log == Enters(Path(c, i, h)[..depth]) + core + Exits(Path(c, i, h)[..depth])
    && (core == [] || (depth == |Path(c, i, h)| && (core == [Batch(true)] || core == [Batch(false)])))
  }

  /** Under any hooks that call their continuation at most once. */
  lemma {:induction false} HooksNest(c: Config, s: State, i: nat, h: nat, m: nat)
    returns (depth: nat, core: seq<Event>, log: seq<Event>)
    requires Callable(c, s, i, h, m)
    ensures Run(c, s, i, h, m).0.trace == s.trace + log
    ensures Nested(c, i, h, depth, core, log)
    ensures Run(c, s, i, h, m).0.rows == s.rows <==> core != [Batch(true)]
    decreases |c.hooks| - i, |c.hooks[i]| - h
  {
    hide Run, Reject, SpecOf, Nested, Path, Enters, Exits, Finished;
    if h < |c.hooks[i]| {
      if Answer(c, s, i, h, m).Some? {
        AnswerStep(c, s, i, h, m);
        depth, core, log := 1, [], [Enter(i, h), Exit(i, h)];
        OneHook(c, i, h);
      } else {
        var s', m', t, answer := PassStep(c, s, i, h, m);
        depth, core, log := HooksNest(c, s', i, h + 1, m');
        depth, log := WrapHook(c, i, h, depth, core, log);
      }
    } else if Reject(c, s, i).Some? {
      RejectStep(c, s, i, m);
      depth, core, log := 0, [], [];
      NoHook(c, i, h);
    } else if i < |c.hooks| - 1 {
      var t, answer := LinkStep(c, s, i, m);
      depth, core, log := HooksNest(c, Compiled(s, i, m), i + 1, 0, s.held[i + 1]);
      NextLink(c, i, depth, core, log);
      FinishedKeeps(t, i, m);
    } else {
      var t, err := BatchStep(c, s, i, m);
      depth, core := 0, [Batch(err.None?)];
      log := core;
      LastLink(c, i, err.None?);
      FinishedKeeps(t, i, m);
    }
  }

  lemma {:induction false} NoHook(c: Config, i: nat, h: nat)
    ensures Nested(c, i, h, 0, [], [])
  {
  }

  lemma {:induction false} NextLink(c: Config, i: nat, depth: nat, core: seq<Event>, log: seq<Event>)
    requires i < |c.hooks| && Nested(c, i + 1, 0, depth, core, log)
    ensures Nested(c, i, |c.hooks[i]|, depth, core, log)
  {
  }

  lemma {:induction false} LastLink(c: Config, i: nat, accepted: bool)
    requires i == |c.hooks| - 1
    ensures Nested(c, i, |c.hooks[i]|, 0, [Batch(accepted)], [Batch(accepted)])
  {
    assert Path(c, i + 1, 0) == [];
  }

  lemma {:induction false} OneHook(c: Config, i: nat, h: nat)
    requires i < |c.hooks| && h < |c.hooks[i]|
    ensures Nested(c, i, h, 1, [], [Enter(i, h), Exit(i, h)])
  {
    assert Path(c, i, h)[..1] == [(i, h)];
    assert Enters([(i, h)]) == [Enter(i, h)] && Exits([(i, h)]) == [Exit(i, h)];
  }

  lemma {:induction false} WrapHook(c: Config, i: nat, h: nat, depth: nat, core: seq<Event>, log: seq<Event>)
    returns (depth': nat, log': seq<Event>)
    requires i < |c.hooks| && h < |c.hooks[i]| && Nested(c, i, h + 1, depth, core, log)
    ensures depth' == depth + 1 && log' == [Enter(i, h)] + log + [Exit(i, h)]
    ensures Nested(c, i, h, depth', core, log')
  {
    depth', log' := depth + 1, [Enter(i, h)] + log + [Exit(i, h)];
    var p, q := Path(c, i, h)[..depth'], Path(c, i, h + 1)[..depth];
    assert p == [(i, h)] + q && p[1..] == q;
  }

  /** The path lists the hooks from `(i, h)` on, builder by builder, each exactly where it belongs. */
  lemma {:induction false} PathIsInOrder(c: Config, i: nat, h: nat, x: nat)
    requires i < |c.hooks| ==> h <= |c.hooks[i]|
    requires x < |Path(c, i, h)|
    ensures var (j, k) := Path(c, i, h)[x];
            && i <= j < |c.hooks| && k < |c.hooks[j]| && (j == i ==> h <= k)
            && (x + 1 < |Path(c, i, h)| ==>
                  var (j', k') := Path(c, i, h)[x + 1]; j < j' || (j == j' && k' == k + 1))
    decreases |c.hooks| - i, if i < |c.hooks| then |c.hooks[i]| - h else 0
  {
    if i < |c.hooks| {
      if h < |c.hooks[i]| {
        var rest := Path(c, i, h + 1);
        assert Path(c, i, h) == [(i, h)] + rest;
        if x > 0 {
          PathIsInOrder(c, i, h + 1, x - 1);
        } else if rest != [] {
          PathIsInOrder(c, i, h + 1, 0);
          PathStarts(c, i, h + 1);
        }
      } else {
        PathIsInOrder(c, i + 1, 0, x);
      }
    }
  }

  /** A path that has hooks of its first builder left starts with the next of them. */
  lemma {:induction false} PathStarts(c: Config, i: nat, h: nat)
    requires i < |c.hooks|
    ensures h < |c.hooks[i]| ==> Path(c, i, h) != [] && Path(c, i, h)[0] == (i, h)
  {
  }

  lemma {:induction false} PathIsComplete(c: Config, i: nat, h: nat, j: nat, k: nat)
    requires i <= j < |c.hooks| && k < |c.hooks[j]| && (j == i ==> h <= k)
    ensures (j, k) in Path(c, i, h)
    decreases |c.hooks| - i, |c.hooks[i]| - h
  {
    if h < |c.hooks[i]| {
      assert Path(c, i, h) == [(i, h)] + Path(c, i, h + 1);
      if (i, h) != (j, k) {
        PathIsComplete(c, i, h + 1, j, k);
      }
    } else {
      PathIsComplete(c, i + 1, 0, j, k);
    }
  }

  // ---------- Who owns what ----------

  /** Builders hold different mutation objects, and `m` is nobody's but builder `i`'s. */
  ghost predicate Own(s: State, i: nat, m: nat) {
    NoDup(s.held) && forall j :: 0 <= j < |s.held| && j != i ==> s.held[j] != m
  }

  /** A call of mutator `i` leaves the earlier links alone, and every mutation object except the one it
      is given and those of later builders. */
  ghost predicate Framed(c: Config, s: State, i: nat, m: nat, r: State)
    requires Ready(c, s, i) && Ready(c, r, i)
  {
    && NoDup(r.held) && |s.mutations| <= |r.mutations|
    && (forall j :: 0 <= j < i ==> r.held[j] == s.held[j] && r.nodes[j] == s.nodes[j])
    && (forall j :: 0 <= j < i ==> r.specs[j].value.spec == s.specs[j].value.spec)
    && (forall x :: 0 <= x < |s.mutations| && x != m && (forall j :: i < j < |s.held| ==> s.held[j] != x) ==>
          r.mutations[x] == s.mutations[x])
  }

  lemma {:induction false} RunIsFramed(c: Config, s: State, i: nat, h: nat, m: nat)
    requires Callable(c, s, i, h, m) && Own(s, i, m)
    ensures Framed(c, s, i, m, Run(c, s, i, h, m).0)
    decreases |c.hooks| - i, |c.hooks[i]| - h
  {
    hide Run, Reject, SpecOf, BatchCreate;
    if h < |c.hooks[i]| {
      if Answer(c, s, i, h, m).Some? {
        AnswerStep(c, s, i, h, m);
      } else {
        var s', m', t, answer := PassStep(c, s, i, h, m);
        RunIsFramed(c, s', i, h + 1, m');
      }
    } else if Reject(c, s, i).Some? {
      RejectStep(c, s, i, m);
    } else if i < |c.hooks| - 1 {
      var t, answer := LinkStep(c, s, i, m);
      RunIsFramed(c, Compiled(s, i, m), i + 1, 0, s.held[i + 1]);
    } else {
      var t, err := BatchStep(c, s, i, m);
      BatchKeepsSpecs(c, Compiled(s, i, m));
    }
  }

  /** A batch changes only the table, the log, and the ids in the specifications. */
  lemma {:induction false} BatchKeepsSpecs(c: Config, s: State)
    requires Ready(c, s, |c.hooks|) && c.db.AssignsFreshIds()
    ensures var r := BatchCreate(c, s).0;
            && r.mutations == s.mutations && r.held == s.held && r.nodes == s.nodes
            && forall j :: 0 <= j < |c.hooks| ==> r.specs[j].value.spec == s.specs[j].value.spec
  {
  }
}
