/** Laws of `Save` for a whole bulk, and its relation to creating one account. */
module BulkSave {
  import opened Results
  import opened Selections
  import opened AccountRecord
  import opened AccountCreate
  import opened BulkCreate
  import opened BulkLaws
  import opened BulkOutcomes
  import opened BulkVerdicts

  /** Builders with their own mutation objects and a database that assigns fresh ids. */
  ghost predicate Bulk(c: Config, mutations: seq<Mutation>, held: seq<nat>) {
    && |held| == |c.hooks| && NoDup(held) && c.db.AssignsFreshIds()
    && forall j :: 0 <= j < |held| ==> held[j] < |mutations|
  }

  /** Every builder's mutation has had its own defaults filled in. */
  lemma {:induction false} StartIsDefaulted(c: Config, mutations: seq<Mutation>, held: seq<nat>, n: nat)
    requires Bulk(c, mutations, held) && n <= |held|
    ensures var r := DefaultedFirst(c.env, mutations, held, n);
            && (forall j :: 0 <= j < |held| ==>
                  r[held[j]].fields ==
                  if j < n then Defaulted(c.env, mutations[held[j]].fields).0 else mutations[held[j]].fields)
            && (forall x :: 0 <= x < |mutations| ==>
                  r[x].done == mutations[x].done && r[x].nodeAt == mutations[x].nodeAt)
  {
    hide Defaulted;
    if n > 0 {
      StartIsDefaulted(c, mutations, held, n - 1);
    }
  }

  /** The batch a whole bulk sends: the fields each builder was given, in builder order, if all proceed. */
  function BatchOf(c: Config, s: State): Option<seq<Spec>>
    requires Ready(c, s, 0)
  {
    if AllProceed(c, s, 0) then Some(Planned(c, s, 0)) else None
  }

  /** The exact outcome of `Save`, under any hooks: the database is asked once or not at all, for one row
      per builder; nothing else changes the table; and the error is what the hooks make of what happened. */
  lemma {:induction false} SaveExactly(c: Config, mutations: seq<Mutation>, held: seq<nat>, rows: seq<Stored>)
    requires Bulk(c, mutations, held) && held != []
    ensures var s := Start(c, mutations, held, rows);
            var (r, err) := Save(c, mutations, held, rows);
            Asked(c, s, BatchOf(c, s), r) && err == ErrorFrom(c, s, 0, Refused(c, rows, BatchOf(c, s)))
  {
    hide Run, SpecOf, DefaultedFirst, Arrive, Answered, CoreAnswer, Asked;
    var s := Start(c, mutations, held, rows);
    RunExactly(c, s, 0, 0, held[0]);
    var arrival := ArrivalAt(c, s, 0);
    if AllProceed(c, s, 0) {
      assert Before(s, 0) + [SpecOf(arrival.value.given)] + Planned(c, s, 1) == Planned(c, s, 0);
    }
    assert Batched(c, s, 0, arrival) == BatchOf(c, s);
  }

  /** The builder's row is in the table afterwards and would not have passed `check`. */
  ghost predicate Unchecked(c: Config, s: State, r: State, j: nat)
    requires j < |c.hooks| && Ready(c, s, 0)
  {
    && r.rows != s.rows && ArrivalAt(c, s, j).Some?
    && |s.rows| + j < |r.rows| && r.rows[|s.rows| + j].spec == SpecOf(ArrivalAt(c, s, j).value.given)
    && Check(c.env, ArrivalAt(c, s, j).value.given).Some?
  }

  /** Exactly when a bulk inserts a row that `check` rejects: all builders' own mutations pass, the
      database accepts, and the mutation this builder was given does not pass. */
  lemma {:induction false} UncheckedExactly(c: Config, mutations: seq<Mutation>, held: seq<nat>, rows: seq<Stored>,
                                            j: nat)
    requires Bulk(c, mutations, held) && j < |held|
    ensures var s := Start(c, mutations, held, rows);
            var r := Save(c, mutations, held, rows).0;
            Unchecked(c, s, r, j) <==>
            && AllProceed(c, s, 0) && Refusal(c, rows, Planned(c, s, 0)).None?
            && ArrivalAt(c, s, j).Some? && Check(c.env, ArrivalAt(c, s, j).value.given).Some?
  {
    hide Run, SpecOf, DefaultedFirst, Arrive, Answered, CoreAnswer, Check, Batches;
    var s := Start(c, mutations, held, rows);
    SaveExactly(c, mutations, held, rows);
    if AllProceed(c, s, 0) {
      PlannedAt(c, s, 0, j);
    }
  }

  lemma {:induction false} PlannedAt(c: Config, s: State, i: nat, j: nat)
    requires i <= j < |c.hooks| && Ready(c, s, 0) && AllProceed(c, s, i)
    ensures ArrivalAt(c, s, j).Some? && Check(c.env, ArrivalAt(c, s, j).value.own).None?
    ensures Planned(c, s, i)[j - i] == SpecOf(ArrivalAt(c, s, j).value.given)
    decreases j - i
  {
    hide Arrive, SpecOf, Check;
    if i < j {
      PlannedAt(c, s, i + 1, j);
    }
  }

  /** Without swaps a builder is given its own mutation, so nothing unchecked is inserted. */
  lemma {:induction false} NoSwapsNoStranger(c: Config, i: nat, h: nat, f: Fields)
    requires NoSwaps(c) && i < |c.hooks| && h <= |c.hooks[i]|
    ensures var arrival := Arrive(c, i, h, f, f, false);
            arrival.Some? ==> arrival.value.own == arrival.value.given
    decreases |c.hooks[i]| - h
  {
    if h < |c.hooks[i]| && c.hooks[i][h].gate(f).None? {
      assert !c.hooks[i][h].swaps;
      NoSwapsNoStranger(c, i, h + 1, c.hooks[i][h].edit(f));
    }
  }

  // ---------- Hooks that only pass on, such as the soft-delete hook on a create ----------

  ghost predicate PassThrough(hook: Hook) {
    && !hook.swaps
    && (forall f :: hook.gate(f) == None && hook.edit(f) == f)
    && forall o :: hook.after(o) == o
  }

  ghost predicate AllPassThrough(c: Config) {
    forall i, h :: 0 <= i < |c.hooks| && 0 <= h < |c.hooks[i]| ==> PassThrough(c.hooks[i][h])
  }

  lemma {:induction false} PassThroughArrives(c: Config, i: nat, h: nat, f: Fields, core: Outcome)
    requires AllPassThrough(c) && i < |c.hooks| && h <= |c.hooks[i]|
    ensures Arrive(c, i, h, f, f, false) == Some(Arrival(f, f)) && Answered(c, i, h, f, core) == core
    decreases |c.hooks[i]| - h
  {
    if h < |c.hooks[i]| {
      assert PassThrough(c.hooks[i][h]);
      PassThroughArrives(c, i, h + 1, f, core);
    }
  }

  /** What `check` says about builder `j` once its defaults are filled in. */
  function Fault(c: Config, mutations: seq<Mutation>, held: seq<nat>, j: nat): Option<Invalid>
    requires j < |held| && held[j] < |mutations|
  {
    Check(c.env, Defaulted(c.env, mutations[held[j]].fields).0)
  }

  lemma {:induction false} StopAtFault(c: Config, mutations: seq<Mutation>, held: seq<nat>, rows: seq<Stored>, j: nat,
                                       k: nat, refused: Option<Error>)
    requires Bulk(c, mutations, held) && AllPassThrough(c) && j <= k <= |held|
    requires forall x :: j <= x < k ==> Fault(c, mutations, held, x).None?
    ensures var s := Start(c, mutations, held, rows);
            && (k < |held| && Fault(c, mutations, held, k).Some? ==>
                  && !AllProceed(c, s, j)
                  && ErrorFrom(c, s, j, refused) == Some(InvalidRow(Fault(c, mutations, held, k).value)))
            && (k == |held| ==>
                  && AllProceed(c, s, j) && ErrorFrom(c, s, j, refused) == refused
                  && forall x :: 0 <= x < |held| - j ==>
                       Planned(c, s, j)[x] == SpecOf(Defaulted(c.env, mutations[held[j + x]].fields).0))
    decreases k - j
  {
    hide Check, Defaulted, DefaultedFirst, Arrive, Answered, SpecOf;
    var s := Start(c, mutations, held, rows);
    StartIsDefaulted(c, mutations, held, |held|);
    if j < |held| {
      assert Of(s, j) == Defaulted(c.env, mutations[held[j]].fields).0;
      PassThroughArrives(c, j, 0, Of(s, j), CoreAnswer(c, j, ArrivalAt(c, s, j), ErrorFrom(c, s, j + 1, refused)));
      assert Fault(c, mutations, held, j) == Check(c.env, Of(s, j));
    }
    if j < k {
      assert Fault(c, mutations, held, j).None?;
      StopAtFault(c, mutations, held, rows, j + 1, k, refused);
      if k == |held| {
        var rest := Planned(c, s, j + 1);
        assert Planned(c, s, j) == [SpecOf(Of(s, j))] + rest;
        assert forall x :: 0 <= x < |rest| ==> rest[x] == SpecOf(Defaulted(c.env, mutations[held[j + 1 + x]].fields).0);
      }
    }
  }

  /** A builder that fails `check` stops the bulk: the error is that of the lowest such builder, the
      database is not asked, and no mutation becomes done. */
  lemma {:induction false} LowestFaultStopsAll(c: Config, mutations: seq<Mutation>, held: seq<nat>, rows: seq<Stored>,
                                               k: nat)
    requires Bulk(c, mutations, held) && AllPassThrough(c) && k < |held|
    requires Fault(c, mutations, held, k).Some? && forall x :: 0 <= x < k ==> Fault(c, mutations, held, x).None?
    ensures var (r, err) := Save(c, mutations, held, rows);
            && err == Some(InvalidRow(Fault(c, mutations, held, k).value))
            && r.rows == rows && Batches(r.trace) == 0
            && forall x :: 0 <= x < |mutations| ==>
                 r.mutations[x].done == mutations[x].done && r.mutations[x].nodeAt == mutations[x].nodeAt
  {
    hide Run, DefaultedFirst, AllProceed, ErrorFrom, Planned, Fault, Batches;
    var s := Start(c, mutations, held, rows);
    StopAtFault(c, mutations, held, rows, 0, k, Refused(c, rows, BatchOf(c, s)));
    SaveExactly(c, mutations, held, rows);
    assert Batches([]) == 0 by { NoBatchYet(); }
    PassThroughIsHonest(c);
    StartIsDefaulted(c, mutations, held, |held|);
    HonestRun(c, s, 0, 0, held[0]);
  }

  lemma {:induction false} NoBatchYet()
    ensures Batches([]) == 0
  {
  }

  lemma {:induction false} PassThroughIsHonest(c: Config)
    requires AllPassThrough(c)
    ensures AllHonest(c) && NoSwaps(c)
  {
    forall i, h | 0 <= i < |c.hooks| && 0 <= h < |c.hooks[i]|
      ensures Honest(c.hooks[i][h])
    {
      assert PassThrough(c.hooks[i][h]);
    }
  }

  /** When every builder passes `check`, the database is asked exactly once, for the builders' rows in
      order, and its answer is the bulk's; on success every node has the id of its row and every
      mutation is done and points at its node. */
  lemma {:induction false} ValidBulkAsksOnce(c: Config, mutations: seq<Mutation>, held: seq<nat>, rows: seq<Stored>)
    requires Bulk(c, mutations, held) && AllPassThrough(c) && held != []
    requires forall x :: 0 <= x < |held| ==> Fault(c, mutations, held, x).None?
    ensures var batch := seq(|held|, j requires 0 <= j < |held| =>
                                       SpecOf(Defaulted(c.env, mutations[held[j]].fields).0));
            var (r, err) := Save(c, mutations, held, rows);
            && Batches(r.trace) == 1
            && match c.db.refuse(rows, batch)
               case Some(text) => err == Some(StoreError(text)) && r.rows == rows
               case None =>
                 && err == None && r.rows == rows + NewRows(c.db, rows, batch)
                 && AllInserted(c, rows, r) && AllDone(c, 0, r) && Faithful(c, 0, r)
                 && Checked(c, Start(c, mutations, held, rows), 0, r)
  {
    hide Run, DefaultedFirst, AllProceed, ErrorFrom, Planned, Fault, Batches, SpecOf, Defaulted;
    var s := Start(c, mutations, held, rows);
    StopAtFault(c, mutations, held, rows, 0, |held|, Refused(c, rows, BatchOf(c, s)));
    SaveExactly(c, mutations, held, rows);
    assert Batches([]) == 0 by { NoBatchYet(); }
    PassThroughIsHonest(c);
    HonestRun(c, s, 0, 0, held[0]);
    InsertedRowsAreFaithful(c, s, 0, 0, held[0]);
    var batch := seq(|held|, j requires 0 <= j < |held| => SpecOf(Defaulted(c.env, mutations[held[j]].fields).0));
    assert Planned(c, s, 0) == batch;
  }

  // ---------- Exactly when a save succeeds, and when it has then inserted nothing ----------

  /** `Save` reports success and the table is as it was. */
  ghost predicate SilentSuccess(c: Config, mutations: seq<Mutation>, held: seq<nat>, rows: seq<Stored>)
    requires Bulk(c, mutations, held)
  {
    var (r, err) := Save(c, mutations, held, rows);
    err == None && r.rows == rows
  }

  lemma RowsGrow(db: Db, rows: seq<Stored>, batch: seq<Spec>)
    requires |db.ids(rows, |batch|)| == |batch| && batch != []
    ensures rows + NewRows(db, rows, batch) != rows
  {
    assert |rows + NewRows(db, rows, batch)| > |rows|;
  }

  /** Under any hooks: nothing reached the database or it refused, and the hooks made a success of that. */
  lemma {:induction false} SilentSuccessExactly(c: Config, mutations: seq<Mutation>, held: seq<nat>, rows: seq<Stored>)
    requires Bulk(c, mutations, held) && held != []
    ensures var s := Start(c, mutations, held, rows);
            SilentSuccess(c, mutations, held, rows) <==>
            && (AllProceed(c, s, 0) ==> Refusal(c, rows, Planned(c, s, 0)).Some?)
            && ErrorFrom(c, s, 0, Refused(c, rows, BatchOf(c, s))) == None
  {
    hide Run, Save, SpecOf, DefaultedFirst, Arrive, Answered, CoreAnswer, Check, Batches, AllProceed, Planned;
    hide ErrorFrom, NewRows;
    var s := Start(c, mutations, held, rows);
    SaveExactly(c, mutations, held, rows);
    if AllProceed(c, s, 0) {
      RowsGrow(c.db, rows, Planned(c, s, 0));
    }
  }

  ghost predicate NoRewrites(c: Config) {
    forall i, h, o :: 0 <= i < |c.hooks| && 0 <= h < |c.hooks[i]| ==> c.hooks[i][h].after(o) == o
  }

  lemma {:induction false} UnrewrittenAnswer(c: Config, i: nat, h: nat, own: Fields, f: Fields, swapped: bool,
                                             core: Outcome)
    requires NoRewrites(c) && i < |c.hooks| && h <= |c.hooks[i]| && Arrive(c, i, h, own, f, swapped).Some?
    ensures Answered(c, i, h, f, core) == core
    decreases |c.hooks[i]| - h
  {
    if h < |c.hooks[i]| {
      var hook := c.hooks[i][h];
      var edited := hook.edit(f);
      var held := if hook.swaps || swapped then own else edited;
      UnrewrittenAnswer(c, i, h + 1, held, edited, swapped || hook.swaps, core);
    }
  }

  /** The first answer a hook gives by itself, from hook `h` on with fields `f`. */
  function FirstAnswer(c: Config, i: nat, h: nat, f: Fields): Option<Outcome>
    requires i < |c.hooks| && h <= |c.hooks[i]|
    decreases |c.hooks[i]| - h
  {
    if h == |c.hooks[i]| then None
    else
      match c.hooks[i][h].gate(f)
      case Some(answer) => Some(answer)
      case None => FirstAnswer(c, i, h + 1, c.hooks[i][h].edit(f))
  }

  lemma {:induction false} FirstAnswerStands(c: Config, i: nat, h: nat, own: Fields, f: Fields, swapped: bool,
                                             core: Outcome)
    requires NoRewrites(c) && i < |c.hooks| && h <= |c.hooks[i]|
    ensures FirstAnswer(c, i, h, f).None? <==> Arrive(c, i, h, own, f, swapped).Some?
    ensures FirstAnswer(c, i, h, f).Some? ==> Answered(c, i, h, f, core) == FirstAnswer(c, i, h, f).value
    decreases |c.hooks[i]| - h
  {
    if h < |c.hooks[i]| {
      var hook := c.hooks[i][h];
      var edited := hook.edit(f);
      var held := if hook.swaps || swapped then own else edited;
      FirstAnswerStands(c, i, h + 1, held, edited, swapped || hook.swaps, core);
    }
  }

  /** A hook of builder `k` answers success, and no builder from `j` up to it stops the chain. */
  ghost predicate Hushed(c: Config, s: State, j: nat, k: nat)
    requires j <= k < |c.hooks| && Ready(c, s, 0)
  {
    && (forall i :: j <= i < k ==> Proceeds(c, ArrivalAt(c, s, i)))
    && FirstAnswer(c, k, 0, Of(s, k)).Some? && FirstAnswer(c, k, 0, Of(s, k)).value.Ok?
  }

  ghost predicate HushedFrom(c: Config, s: State, j: nat)
    requires j <= |c.hooks| && Ready(c, s, 0)
  {
    exists k :: j <= k < |c.hooks| && Hushed(c, s, j, k)
  }

  lemma {:induction false} NoErrorFrom(c: Config, s: State, j: nat, refused: Option<Error>)
    requires NoRewrites(c) && j <= |c.hooks| && Ready(c, s, 0)
    ensures ErrorFrom(c, s, j, refused) == None <==>
            (AllProceed(c, s, j) && refused == None) || HushedFrom(c, s, j)
    ensures AllProceed(c, s, j) ==> !HushedFrom(c, s, j)
    decreases |c.hooks| - j
  {
    hide Arrive, Answered, FirstAnswer, Check, Hushed;
    if j < |c.hooks| {
      NoErrorFrom(c, s, j + 1, refused);
      var core := CoreAnswer(c, j, ArrivalAt(c, s, j), ErrorFrom(c, s, j + 1, refused));
      FirstAnswerStands(c, j, 0, Of(s, j), Of(s, j), false, core);
      if ArrivalAt(c, s, j).Some? {
        UnrewrittenAnswer(c, j, 0, Of(s, j), Of(s, j), false, core);
      }
      HushedStep(c, s, j);
    }
  }

  lemma {:induction false} HushedStep(c: Config, s: State, j: nat)
    requires j < |c.hooks| && Ready(c, s, 0)
    requires FirstAnswer(c, j, 0, Of(s, j)).None? <==> ArrivalAt(c, s, j).Some?
    ensures HushedFrom(c, s, j) <==>
            || (FirstAnswer(c, j, 0, Of(s, j)).Some? && FirstAnswer(c, j, 0, Of(s, j)).value.Ok?)
            || (Proceeds(c, ArrivalAt(c, s, j)) && HushedFrom(c, s, j + 1))
  {
    hide Arrive, FirstAnswer, Check;
    if HushedFrom(c, s, j) {
      var k :| j <= k < |c.hooks| && Hushed(c, s, j, k);
      if k > j {
        assert Hushed(c, s, j + 1, k);
      }
    }
    if FirstAnswer(c, j, 0, Of(s, j)).Some? && FirstAnswer(c, j, 0, Of(s, j)).value.Ok? {
      assert Hushed(c, s, j, j);
    }
    var next := j + 1;
    if Proceeds(c, ArrivalAt(c, s, j)) && HushedFrom(c, s, next) {
      var k :| next <= k < |c.hooks| && Hushed(c, s, next, k);
      assert Hushed(c, s, j, k);
    }
  }

  /** For hooks that rewrite no answers, a success without a row is exactly an empty bulk, or a hook that
      answers success at a builder before which all others proceed. */
  lemma {:induction false} HushedExactly(c: Config, mutations: seq<Mutation>, held: seq<nat>, rows: seq<Stored>)
    requires Bulk(c, mutations, held) && NoRewrites(c)
    ensures SilentSuccess(c, mutations, held, rows) <==>
            held == [] || exists k :: 0 <= k < |held| && Hushed(c, Start(c, mutations, held, rows), 0, k)
  {
    if held != [] {
      hide ErrorFrom, AllProceed, Planned, Hushed, SilentSuccess, Refusal, Start;
      SilentSuccessExactly(c, mutations, held, rows);
      var s := Start(c, mutations, held, rows);
      NoErrorFrom(c, s, 0, Refused(c, rows, BatchOf(c, s)));
      assert HushedFrom(c, s, 0) <==> exists k :: 0 <= k < |held| && Hushed(c, s, 0, k);
    }
  }

  /** And it succeeds with all rows exactly when all builders proceed and the database accepts. */
  lemma {:induction false} SuccessExactly(c: Config, mutations: seq<Mutation>, held: seq<nat>, rows: seq<Stored>)
    requires Bulk(c, mutations, held) && held != [] && NoRewrites(c)
    ensures var s := Start(c, mutations, held, rows);
            Save(c, mutations, held, rows).1 == None && !SilentSuccess(c, mutations, held, rows) <==>
            AllProceed(c, s, 0) && Refusal(c, rows, Planned(c, s, 0)).None?
  {
    hide ErrorFrom, AllProceed, Planned, Hushed, SilentSuccess, Refusal, Start, Save, Asked;
    SilentSuccessExactly(c, mutations, held, rows);
    var s := Start(c, mutations, held, rows);
    SaveExactly(c, mutations, held, rows);
    NoErrorFrom(c, s, 0, Refused(c, rows, BatchOf(c, s)));
  }

  /** A first hook that answers success by itself makes the bulk succeed with nothing inserted and no
      node. */
  lemma {:induction false} AnsweredBulkInsertsNothing(c: Config, mutations: seq<Mutation>, held: seq<nat>,
                                                      rows: seq<Stored>)
    requires Bulk(c, mutations, held) && held != [] && c.hooks[0] != []
    requires var f := Defaulted(c.env, mutations[held[0]].fields).0;
             c.hooks[0][0].gate(f).Some? && c.hooks[0][0].gate(f).value.Ok?
    ensures var (r, err) := Save(c, mutations, held, rows);
            err == None && r.rows == rows && forall j :: 0 <= j < |held| ==> r.nodes[j] == None
  {
    hide Run, Defaulted, DefaultedFirst;
    StartIsDefaulted(c, mutations, held, |held|);
    AnswerStep(c, Start(c, mutations, held, rows), 0, 0, held[0]);
  }
}
