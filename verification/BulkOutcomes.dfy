/** What a bulk create achieves: all rows or none, and who hears about it. */
module BulkOutcomes {
  import opened Results
  import opened AccountCreate
  import opened BulkCreate
  import opened BulkLaws

  // ---------- All rows or none, under any hooks ----------

  /** The table has gained one row per builder, in builder order, with the ids the database chose. */
  ghost predicate AllInserted(c: Config, rows: seq<Stored>, r: State)
    requires c.db.AssignsFreshIds()
  {
    && Ready(c, r, |c.hooks|)
    && r.rows == rows + NewRows(c.db, rows, Specs(r.specs))
    && (c.db.reports ==>
          forall j :: 0 <= j < |c.hooks| ==> r.specs[j].value.id == Some(c.db.ids(rows, |c.hooks|)[j]))
  }

  lemma {:induction false} AllOrNothing(c: Config, s: State, i: nat, h: nat, m: nat)
    requires Callable(c, s, i, h, m)
    ensures var r := Run(c, s, i, h, m).0;
            r.rows == s.rows || AllInserted(c, s.rows, r)
    decreases |c.hooks| - i, |c.hooks[i]| - h
  {
    hide Run, Reject, SpecOf, BatchCreate;
    if h < |c.hooks[i]| {
      if Answer(c, s, i, h, m).Some? {
        AnswerStep(c, s, i, h, m);
      } else {
        var s', m', t, answer := PassStep(c, s, i, h, m);
        AllOrNothing(c, s', i, h + 1, m');
      }
    } else if Reject(c, s, i).Some? {
      RejectStep(c, s, i, m);
    } else if i < |c.hooks| - 1 {
      var t, answer := LinkStep(c, s, i, m);
      AllOrNothing(c, Compiled(s, i, m), i + 1, 0, s.held[i + 1]);
    } else {
      var t, err := BatchStep(c, s, i, m);
      BatchInsertsAll(c, Compiled(s, i, m));
    }
  }

  lemma {:induction false} InsertedStays(c: Config, rows: seq<Stored>, r: State, e: Event)
    requires c.db.AssignsFreshIds() && AllInserted(c, rows, r)
    ensures AllInserted(c, rows, Log(r, e))
    ensures forall i, m :: 0 <= i < |c.hooks| && 0 <= m < |r.mutations| ==> AllInserted(c, rows, Finished(r, i, m))
  {
  }

  lemma {:induction false} BatchInsertsAll(c: Config, s: State)
    requires Ready(c, s, |c.hooks|) && c.db.AssignsFreshIds()
    ensures var (r, err) := BatchCreate(c, s);
            if err.Some? then r.rows == s.rows else AllInserted(c, s.rows, r)
  {
    hide SpecOf;
    var (r, err) := BatchCreate(c, s);
    if err.None? {
      assert Specs(r.specs) == Specs(s.specs);
    }
  }

  // ---------- What was inserted ----------

  /** From link `i` on, node and row say what the mutation the builder ended up with says. */
  ghost predicate Faithful(c: Config, i: nat, r: State)
    requires Ready(c, r, |c.hooks|)
  {
    forall j :: i <= j < |c.hooks| ==>
      && r.nodes[j].value.fields == r.mutations[r.held[j]].fields
      && r.specs[j].value.spec == SpecOf(r.mutations[r.held[j]].fields)
  }

  ghost predicate NoSwaps(c: Config) {
    forall i, h :: 0 <= i < |c.hooks| && 0 <= h < |c.hooks[i]| ==> !c.hooks[i][h].swaps
  }

  /** From link `i` on, builders still hold their own mutations, and these pass `check`. */
  ghost predicate Checked(c: Config, s: State, i: nat, r: State)
    requires Ready(c, s, i) && Ready(c, r, |c.hooks|)
  {
    forall j :: i <= j < |c.hooks| ==>
      r.held[j] == s.held[j] && Check(c.env, r.mutations[r.held[j]].fields).None?
  }

  /** If a call of mutator `i` with mutation `m` has inserted rows, they are faithful, and checked unless
      there are swaps. */
  ghost predicate RowsFaithful(c: Config, s: State, i: nat, m: nat, r: State)
    requires i < |c.hooks| && Ready(c, s, i)
  {
    r.rows != s.rows ==>
      && Ready(c, r, |c.hooks|) && Faithful(c, i, r)
      && (NoSwaps(c) && m == s.held[i] ==> Checked(c, s, i, r))
  }

  lemma {:induction false} FaithfulHook(c: Config, s: State, i: nat, h: nat, m: nat, s': State, m': nat, t: State)
    requires Callable(c, s, i, h, m) && h < |c.hooks[i]|
    requires (s', m') == Passed(Log(s, Enter(i, h)), c.hooks[i][h], m) && Callable(c, s', i, h + 1, m')
    requires RowsFaithful(c, s', i, m', t)
    ensures RowsFaithful(c, s, i, m, Log(t, Exit(i, h)))
  {
    hide SpecOf, Check;
    assert NoSwaps(c) ==> m' == m;
    assert s'.held == s.held && s'.rows == s.rows;
  }

  lemma {:induction false} FaithfulLink(c: Config, s: State, i: nat, m: nat, t: State)
    requires i < |c.hooks| - 1 && Callable(c, s, i, |c.hooks[i]|, m) && Own(s, i, m) && Reject(c, s, i).None?
    requires Ready(c, t, i + 1) && |t.mutations| >= |s.mutations|
    requires var next := Compiled(s, i, m);
             && Callable(c, next, i + 1, 0, s.held[i + 1])
             && RowsFaithful(c, next, i + 1, s.held[i + 1], t) && Framed(c, next, i + 1, s.held[i + 1], t)
    requires t.rows != s.rows ==> Ready(c, t, |c.hooks|)
    ensures RowsFaithful(c, s, i, m, t) && RowsFaithful(c, s, i, m, Finished(t, i, m))
  {
    hide SpecOf, Check, NoSwaps;
  }

  lemma {:induction false} FaithfulBatch(c: Config, s: State, i: nat, m: nat)
    requires i == |c.hooks| - 1 && Callable(c, s, i, |c.hooks[i]|, m) && Reject(c, s, i).None?
    ensures var t := BatchCreate(c, Compiled(s, i, m)).0;
            RowsFaithful(c, s, i, m, t) && RowsFaithful(c, s, i, m, Finished(t, i, m))
  {
    hide SpecOf, Check, NoSwaps, BatchCreate;
    BatchKeepsSpecs(c, Compiled(s, i, m));
  }

  /** Inserted rows describe the builders' final mutations; when no hook swaps mutation objects, they
      are the builders' own and have passed `check`. */
  lemma {:induction false} InsertedRowsAreFaithful(c: Config, s: State, i: nat, h: nat, m: nat)
    requires Callable(c, s, i, h, m) && Own(s, i, m)
    ensures RowsFaithful(c, s, i, m, Run(c, s, i, h, m).0)
    decreases |c.hooks| - i, |c.hooks[i]| - h
  {
    hide Run, SpecOf, BatchCreate, Check, AllInserted, Faithful, Checked, NoSwaps, Framed, Reject;
    if h < |c.hooks[i]| {
      if Answer(c, s, i, h, m).Some? {
        AnswerStep(c, s, i, h, m);
      } else {
        var s', m', t, answer := PassStep(c, s, i, h, m);
        InsertedRowsAreFaithful(c, s', i, h + 1, m');
        hide RowsFaithful;
        FaithfulHook(c, s, i, h, m, s', m', t);
      }
    } else if Reject(c, s, i).Some? {
      RejectStep(c, s, i, m);
    } else if i < |c.hooks| - 1 {
      var t, answer := LinkStep(c, s, i, m);
      var next := Compiled(s, i, m);
      InsertedRowsAreFaithful(c, next, i + 1, 0, s.held[i + 1]);
      RunIsFramed(c, next, i + 1, 0, s.held[i + 1]);
      hide RowsFaithful;
      FaithfulLink(c, s, i, m, t);
    } else {
      var t, err := BatchStep(c, s, i, m);
      hide RowsFaithful;
      FaithfulBatch(c, s, i, m);
    }
  }

  // ---------- Hooks that neither invent nor hide success ----------

  ghost predicate Honest(hook: Hook) {
    && (forall f :: hook.gate(f).Some? ==> hook.gate(f).value.Err?)
    && (forall o :: hook.after(o).Ok? <==> o.Ok?)
  }

  ghost predicate AllHonest(c: Config) {
    forall i, h :: 0 <= i < |c.hooks| && 0 <= h < |c.hooks[i]| ==> Honest(c.hooks[i][h])
  }

  /** Every link from `i` on is finished: its node carries the reported id and its mutation is done and
      points at that node. */
  ghost predicate AllDone(c: Config, i: nat, r: State)
    requires Ready(c, r, |c.hooks|)
  {
    forall j :: i <= j < |c.hooks| ==>
      && r.mutations[r.held[j]].done && r.mutations[r.held[j]].nodeAt == Some(j)
      && r.nodes[j].value.id == (if r.specs[j].value.id.Some? then r.specs[j].value.id.value else 0)
  }

  /** No mutation has become done, and none points at a node that it did not point at before. */
  ghost predicate NoneDone(s: State, r: State) {
    && |s.mutations| <= |r.mutations|
    && (forall x :: 0 <= x < |s.mutations| ==>
          r.mutations[x].done == s.mutations[x].done && r.mutations[x].nodeAt == s.mutations[x].nodeAt)
    && (forall x :: |s.mutations| <= x < |r.mutations| ==> !r.mutations[x].done && r.mutations[x].nodeAt.None?)
  }

  /** Success: all rows are in, and the links from `i` on are finished. Failure: nothing happened. */
  ghost predicate Told(c: Config, s: State, i: nat, r: State, answer: Outcome)
    requires c.db.AssignsFreshIds()
  {
    if answer.Ok? then AllInserted(c, s.rows, r) && AllDone(c, i, r)
    else r.rows == s.rows && NoneDone(s, r)
  }

  lemma {:induction false} ToldHook(c: Config, s: State, i: nat, h: nat, m: nat, s': State, m': nat, t: State,
                                    answer: Outcome)
    requires Callable(c, s, i, h, m) && h < |c.hooks[i]| && Honest(c.hooks[i][h])
    requires (s', m') == Passed(Log(s, Enter(i, h)), c.hooks[i][h], m) && Told(c, s', i, t, answer)
    ensures Told(c, s, i, Log(t, Exit(i, h)), c.hooks[i][h].after(answer))
  {
    hide AllInserted;
    if answer.Ok? {
      InsertedStays(c, s.rows, t, Exit(i, h));
    }
  }

  lemma {:induction false} ToldLink(c: Config, s: State, i: nat, m: nat, t: State, answer: Outcome)
    requires i < |c.hooks| - 1 && Callable(c, s, i, |c.hooks[i]|, m) && Own(s, i, m)
    requires Ready(c, t, i + 1) && |t.mutations| >= |s.mutations|
    requires var next := Compiled(s, i, m);
             && Callable(c, next, i + 1, 0, s.held[i + 1])
             && Told(c, next, i + 1, t, answer) && Framed(c, next, i + 1, s.held[i + 1], t)
    ensures if answer.Err? then Told(c, s, i, t, answer) else Told(c, s, i, Finished(t, i, m), Ok(Node(i)))
  {
    hide SpecOf, AllInserted;
    if answer.Ok? {
      InsertedStays(c, s.rows, t, Batch(true));
      assert AllInserted(c, s.rows, Finished(t, i, m));
    }
  }

  lemma {:induction false} ToldBatch(c: Config, s: State, i: nat, m: nat)
    requires i == |c.hooks| - 1 && Callable(c, s, i, |c.hooks[i]|, m)
    ensures var (t, err) := BatchCreate(c, Compiled(s, i, m));
            if err.Some? then Told(c, s, i, t, Err(err.value)) else Told(c, s, i, Finished(t, i, m), Ok(Node(i)))
  {
    hide SpecOf, AllInserted, BatchCreate;
    var (t, err) := BatchCreate(c, Compiled(s, i, m));
    BatchInsertsAll(c, Compiled(s, i, m));
    if err.None? {
      InsertedStays(c, s.rows, t, Batch(true));
      assert AllInserted(c, s.rows, Finished(t, i, m));
    }
  }

  /** With honest hooks success means inserted and everybody told; failure means nothing happened. */
  lemma {:induction false} HonestRun(c: Config, s: State, i: nat, h: nat, m: nat)
    requires Callable(c, s, i, h, m) && Own(s, i, m) && AllHonest(c)
    ensures var (r, answer) := Run(c, s, i, h, m);
            Told(c, s, i, r, answer)
    decreases |c.hooks| - i, |c.hooks[i]| - h
  {
    hide Run, SpecOf, BatchCreate, Reject, AllInserted, AllDone, Framed;
    if h < |c.hooks[i]| {
      assert Honest(c.hooks[i][h]);
      if Answer(c, s, i, h, m).Some? {
        AnswerStep(c, s, i, h, m);
      } else {
        var s', m', t, answer := PassStep(c, s, i, h, m);
        HonestRun(c, s', i, h + 1, m');
        hide Told;
        ToldHook(c, s, i, h, m, s', m', t, answer);
      }
    } else if Reject(c, s, i).Some? {
      RejectStep(c, s, i, m);
    } else if i < |c.hooks| - 1 {
      var t, answer := LinkStep(c, s, i, m);
      HonestRun(c, Compiled(s, i, m), i + 1, 0, s.held[i + 1]);
      RunIsFramed(c, Compiled(s, i, m), i + 1, 0, s.held[i + 1]);
      hide Told;
      ToldLink(c, s, i, m, t, answer);
    } else {
      var t, err := BatchStep(c, s, i, m);
      hide Told;
      ToldBatch(c, s, i, m);
    }
  }
}
