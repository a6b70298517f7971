/** Creating one account, and where a bulk of one does the same and where it does not. */
module SingleCreate {
  import opened Results
  import opened AccountRecord
  import opened AccountCreate
  import opened BulkCreate
  import opened BulkLaws
  import opened BulkOutcomes
  import opened BulkVerdicts
  import opened BulkSave

  /** The state with room for one node and its specification, and one builder. */
  ghost predicate One(c: Config, s: State, h: nat, m: nat) {
    Callable(c, s, 0, h, m) && |c.hooks| == 1 && c.db.reports
  }

  /** `sqlSave`: check, compile and insert the builder's own mutation. */
  function Inserted(c: Config, s: State): (State, Outcome)
    requires Ready(c, s, 0) && |c.hooks| == 1 && c.db.AssignsFreshIds()
  {
    var own := s.held[0];
    match Check(c.env, s.mutations[own].fields)
    case Some(cause) => (s, Err(InvalidRow(cause)))
    case None =>
      var (t, err) := BatchCreate(c, Compiled(s, 0, own));
      if err.Some? then (t, Err(err.value)) else (Finished(t, 0, own), Ok(Node(0)))
  }

  lemma {:induction false} IdsReported(c: Config, s: State)
    requires Ready(c, s, |c.hooks|) && c.db.AssignsFreshIds() && c.db.reports
    ensures var (r, err) := BatchCreate(c, s);
            err.None? ==> forall j :: 0 <= j < |c.hooks| ==> r.specs[j].value.id.Some?
  {
  }

  /** `sqlSave` under the hooks from `h` on: the mutation passed in is copied over the builder's own, and
      the copy is checked, compiled and inserted. */
  function SingleRun(c: Config, s: State, h: nat, m: nat): (State, Outcome)
    requires One(c, s, h, m)
    decreases |c.hooks[0]| - h
  {
    if h < |c.hooks[0]| then
      var hook, entered := c.hooks[0][h], Log(s, Enter(0, h));
      match hook.gate(s.mutations[m].fields)
      case Some(answer) => (Log(entered, Exit(0, h)), answer)
      case None =>
        var (s', m') := Passed(entered, hook, m);
        var (t, answer) := SingleRun(c, s', h + 1, m');
        (Log(t, Exit(0, h)), hook.after(answer))
    else
      Inserted(c, s.(mutations := s.mutations[s.held[0] := s.mutations[m]]))
  }

  /** `withHooks` insists that the last answer is an account; without hooks there is nothing to check. */
  function Final(c: Config, answer: Outcome): Result<Reply, Error>
    requires |c.hooks| == 1
  {
    match answer
    case Err(e) => Failure(e)
    case Ok(v) => if c.hooks[0] != [] && v.Foreign? then Failure(UnexpectedNode) else Success(v)
  }

  /** One builder and its mutation object. */
  ghost predicate Sole(c: Config, mutations: seq<Mutation>, own: nat) {
    |c.hooks| == 1 && own < |mutations| && Bulk(c, mutations, [own]) && c.db.reports
  }

  /** `AccountCreate.Save` for the builder with mutation object `own`. */
  function SaveOne(c: Config, mutations: seq<Mutation>, own: nat, rows: seq<Stored>): (State, Result<Reply, Error>)
    requires Sole(c, mutations, own)
  {
    var s := Start(c, mutations, [own], rows);
    match Defaulted(c.env, mutations[own].fields).1
    case Some(column) => (s, Failure(NoDefault(column)))
    case None =>
      var (t, answer) := SingleRun(c, s, 0, own);
      (t, Final(c, answer))
  }

  // ---------- The exact outcome ----------

  /** The batch a single create sends: the fields it was given, if these pass `check`. */
  function OneBatch(c: Config, arrival: Option<Arrival>): Option<seq<Spec>> {
    if arrival.Some? && Check(c.env, arrival.value.given).None? then Some([SpecOf(arrival.value.given)]) else None
  }

  function OneAnswer(c: Config, arrival: Option<Arrival>, refused: Option<Error>): Outcome {
    if arrival.Some? && Check(c.env, arrival.value.given).Some?
    then Err(InvalidRow(Check(c.env, arrival.value.given).value))
    else if refused.Some? then Err(refused.value)
    else Ok(Node(0))
  }

  /** What a run of the single create's chain comes to. */
  ghost predicate OneVerdict(c: Config, s: State, h: nat, f: Fields, arrival: Option<Arrival>, r: State,
                             answer: Outcome)
    requires |c.hooks| == 1 && h <= |c.hooks[0]| && c.db.AssignsFreshIds()
  {
    && Asked(c, s, OneBatch(c, arrival), r)
    && answer == Answered(c, 0, h, f, OneAnswer(c, arrival, Refused(c, s.rows, OneBatch(c, arrival))))
  }

  /** Under any hooks, the single create inserts exactly when the fields it is given pass `check` and the
      database accepts. */
  lemma {:induction false} SingleExactly(c: Config, s: State, h: nat, m: nat)
    requires One(c, s, h, m)
    ensures var (r, answer) := SingleRun(c, s, h, m);
            OneVerdict(c, s, h, s.mutations[m].fields, ArrivalWith(c, s, 0, h, m), r, answer)
    decreases |c.hooks[0]| - h
  {
    hide SpecOf, Check, Batches, Inserted, Asked, OneBatch, OneAnswer;
    if h == |c.hooks[0]| {
      CopiedExactly(c, s, m, Of(s, 0));
      AtCore(c, s, 0, m);
    } else {
      var hook, entered := c.hooks[0][h], Log(s, Enter(0, h));
      var arrival := ArrivalWith(c, s, 0, h, m);
      if hook.gate(s.mutations[m].fields).Some? {
        AskedLogged(c, s, arrival, s, Enter(0, h), Exit(0, h));
      } else {
        var (s', m') := Passed(entered, hook, m);
        SingleExactly(c, s', h + 1, m');
        var r := SingleRun(c, s', h + 1, m').0;
        assert arrival == ArrivalWith(c, s', 0, h + 1, m');
        HookAsked(c, s, s', OneBatch(c, arrival), r, Enter(0, h), Exit(0, h));
      }
    }
  }

  /** Nothing is asked when a hook answers. */
  lemma {:induction false} AskedLogged(c: Config, s: State, arrival: Option<Arrival>, r: State, e: Event, x: Event)
    requires c.db.AssignsFreshIds() && !e.Batch? && !x.Batch? && arrival.None? && r == s
    ensures Asked(c, s, OneBatch(c, arrival), Log(Log(r, e), x))
  {
    hide Batches;
    LogCounts(s, e);
    LogCounts(Log(s, e), x);
  }

  lemma {:induction false} HookAsked(c: Config, s: State, s': State, batch: Option<seq<Spec>>, r: State, e: Event,
                                     x: Event)
    requires c.db.AssignsFreshIds() && !e.Batch? && !x.Batch?
    requires s'.trace == Log(s, e).trace && s'.rows == s.rows && Asked(c, s', batch, r)
    ensures Asked(c, s, batch, Log(r, x))
  {
    hide Batches, NewRows;
    LogCounts(s, e);
    LogCounts(r, x);
  }

  /** `sqlSave` after copying: whatever the builder's own fields were, those given count. */
  lemma {:induction false} CopiedExactly(c: Config, s: State, m: nat, own: Fields)
    requires |c.hooks| == 1 && One(c, s, |c.hooks[0]|, m)
    ensures var (r, answer) := Inserted(c, s.(mutations := s.mutations[s.held[0] := s.mutations[m]]));
            var arrival := Some(Arrival(own, s.mutations[m].fields));
            && Asked(c, s, OneBatch(c, arrival), r)
            && answer == OneAnswer(c, arrival, Refused(c, s.rows, OneBatch(c, arrival)))
  {
    hide SpecOf, Check, Batches, Inserted;
    InsertedExactly(c, s.(mutations := s.mutations[s.held[0] := s.mutations[m]]));
  }

  lemma {:induction false} InsertedExactly(c: Config, s: State)
    requires Ready(c, s, 0) && |c.hooks| == 1 && c.db.AssignsFreshIds()
    ensures var (r, answer) := Inserted(c, s);
            var arrival := Some(Arrival(Of(s, 0), Of(s, 0)));
            && Asked(c, s, OneBatch(c, arrival), r)
            && answer == OneAnswer(c, arrival, Refused(c, s.rows, OneBatch(c, arrival)))
  {
    hide SpecOf, Check, Batches;
    var full := Compiled(s, 0, s.held[0]);
    LogCounts(full, Batch(true));
    LogCounts(full, Batch(false));
    assert Specs(full.specs) == [SpecOf(Of(s, 0))];
  }

  /** A single create that has inserted leaves the builder's own mutation done and pointing at a node with the
      fields that arrived and the id of the row, whatever the hooks. */
  lemma {:induction false} SingleFinishes(c: Config, s: State, h: nat, m: nat)
    requires One(c, s, h, m)
    ensures var (r, arrival) := (SingleRun(c, s, h, m).0, ArrivalWith(c, s, 0, h, m));
            r.rows != s.rows ==>
              && arrival.Some?
              && r.nodes == [Some(Entity(arrival.value.given, c.db.ids(s.rows, 1)[0]))]
              && r.held == s.held && |r.mutations| > s.held[0]
              && r.mutations[s.held[0]] == Mutation(arrival.value.given, Some(0), true)
    decreases |c.hooks[0]| - h
  {
    hide SpecOf, Check, Inserted;
    if h == |c.hooks[0]| {
      AtCore(c, s, 0, m);
      InsertedFinishes(c, s.(mutations := s.mutations[s.held[0] := s.mutations[m]]));
    } else if c.hooks[0][h].gate(s.mutations[m].fields).None? {
      var (s', m') := Passed(Log(s, Enter(0, h)), c.hooks[0][h], m);
      SingleFinishes(c, s', h + 1, m');
      assert ArrivalWith(c, s, 0, h, m) == ArrivalWith(c, s', 0, h + 1, m');
    }
  }

  lemma {:induction false} InsertedFinishes(c: Config, s: State)
    requires Ready(c, s, 0) && |c.hooks| == 1 && c.db.AssignsFreshIds() && c.db.reports
    ensures var (r, answer) := Inserted(c, s);
            r.rows != s.rows ==>
              && r.nodes == [Some(Entity(Of(s, 0), c.db.ids(s.rows, 1)[0]))]
              && r.held == s.held && r.mutations == s.mutations[s.held[0] := Mutation(Of(s, 0), Some(0), true)]
  {
    hide SpecOf, Check;
    var own := s.held[0];
    var full := Compiled(s, 0, own);
    assert full.held == s.held;
    var (t, err) := BatchCreate(c, full);
    IdsReported(c, full);
  }

  // ---------- Agreement ----------

  /** While no hook swaps mutation objects, the two chains do the same, step by step. */
  lemma {:induction false} ChainsAgree(c: Config, s: State, h: nat)
    requires NoSwaps(c) && |c.hooks| == 1 && 0 < |s.held| && One(c, s, h, s.held[0])
    ensures SingleRun(c, s, h, s.held[0]) == Run(c, s, 0, h, s.held[0])
    decreases |c.hooks[0]| - h
  {
    hide Run, SpecOf, BatchCreate, Check;
    var m := s.held[0];
    if h < |c.hooks[0]| {
      if Answer(c, s, 0, h, m).Some? {
        AnswerStep(c, s, 0, h, m);
      } else {
        assert !c.hooks[0][h].swaps;
        var s', m', t, answer := PassStep(c, s, 0, h, m);
        ChainsAgree(c, s', h + 1);
      }
    } else {
      assert s.mutations[m := s.mutations[m]] == s.mutations;
      if Reject(c, s, 0).Some? {
        RejectStep(c, s, 0, m);
      } else {
        var t, err := BatchStep(c, s, 0, m);
      }
    }
  }

  /** What reaches the builder's own code once its defaults have been tried. */
  function SoleArrival(c: Config, mutations: seq<Mutation>, own: nat): Option<Arrival>
    requires |c.hooks| == 1 && own < |mutations|
  {
    var f := Defaulted(c.env, mutations[own].fields).0;
    Arrive(c, 0, 0, f, f, false)
  }

  /** The answer of the bulk's chain. */
  function BulkAnswer(c: Config, mutations: seq<Mutation>, own: nat, rows: seq<Stored>): Outcome
    requires |c.hooks| == 1 && own < |mutations|
  {
    var f, arrival := Defaulted(c.env, mutations[own].fields).0, SoleArrival(c, mutations, own);
    Answered(c, 0, 0, f, CoreAnswer(c, 0, arrival, Refused(c, rows, BulkBatch(c, arrival))))
  }

  /** The batch a bulk of one sends: the fields it was given, if the builder's own pass `check`. */
  function BulkBatch(c: Config, arrival: Option<Arrival>): Option<seq<Spec>> {
    if Proceeds(c, arrival) then Some([SpecOf(arrival.value.given)]) else None
  }

  /** The answer of the single create's chain. */
  function SoleAnswer(c: Config, mutations: seq<Mutation>, own: nat, rows: seq<Stored>): Outcome
    requires |c.hooks| == 1 && own < |mutations|
  {
    var f, arrival := Defaulted(c.env, mutations[own].fields).0, SoleArrival(c, mutations, own);
    Answered(c, 0, 0, f, OneAnswer(c, arrival, Refused(c, rows, OneBatch(c, arrival))))
  }

  /** The database would take the fields that arrive. */
  predicate Takes(c: Config, rows: seq<Stored>, arrival: Option<Arrival>) {
    arrival.Some? && Refusal(c, rows, [SpecOf(arrival.value.given)]).None?
  }

  lemma {:induction false} SoleStart(c: Config, mutations: seq<Mutation>, own: nat, rows: seq<Stored>)
    requires Sole(c, mutations, own)
    ensures var s := Start(c, mutations, [own], rows);
            && Of(s, 0) == Defaulted(c.env, mutations[own].fields).0
            && ArrivalAt(c, s, 0) == SoleArrival(c, mutations, own) == ArrivalWith(c, s, 0, 0, own)
            && BatchOf(c, s) == BulkBatch(c, SoleArrival(c, mutations, own))
  {
    hide Defaulted, DefaultedFirst, Arrive, SpecOf, Check;
    StartIsDefaulted(c, mutations, [own], 1);
    var s := Start(c, mutations, [own], rows);
    assert s.held[0] == own && |s.held| == 1;
    assert Of(s, 0) == Defaulted(c.env, mutations[own].fields).0 == s.mutations[own].fields;
    assert AllProceed(c, s, 1) && Planned(c, s, 1) == [];
    if Proceeds(c, ArrivalAt(c, s, 0)) {
      var spec := SpecOf(ArrivalAt(c, s, 0).value.given);
      assert Planned(c, s, 0) == [spec] + Planned(c, s, 1) == [spec];
    }
  }

  /** A bulk of one, under any hooks, also when defaults have failed: it inserts exactly when the builder's
      own fields pass `check` and the database takes the fields that arrive. */
  lemma {:induction false} BulkOfOneExactly(c: Config, mutations: seq<Mutation>, own: nat, rows: seq<Stored>)
    requires Sole(c, mutations, own)
    ensures var (b, err) := Save(c, mutations, [own], rows);
            var arrival, answer := SoleArrival(c, mutations, own), BulkAnswer(c, mutations, own, rows);
            && (b.rows != rows <==> Proceeds(c, arrival) && Takes(c, rows, arrival))
            && (b.rows != rows ==> b.rows == rows + NewRows(c.db, rows, [SpecOf(arrival.value.given)]))
            && err == if answer.Err? then Some(answer.error) else None
  {
    hide Run, SpecOf, Defaulted, DefaultedFirst, Arrive, Answered, CoreAnswer, Batches, Save;
    var s := Start(c, mutations, [own], rows);
    SaveExactly(c, mutations, [own], rows);
    SoleStart(c, mutations, own, rows);
  }

  /** The single create, under any hooks: it fails at once when defaults fail; otherwise it inserts exactly
      when the fields that arrive pass `check` and the database takes them, and an answer that is no
      account makes it fail even so. */
  lemma {:induction false} SingleSaveExactly(c: Config, mutations: seq<Mutation>, own: nat, rows: seq<Stored>)
    requires Sole(c, mutations, own)
    ensures var (o, res) := SaveOne(c, mutations, own, rows);
            var arrival, missing := SoleArrival(c, mutations, own), Defaulted(c.env, mutations[own].fields).1;
            && (missing.Some? ==> o.rows == rows && res == Failure(NoDefault(missing.value)))
            && (missing.None? ==>
                  && (o.rows != rows <==>
                        Takes(c, rows, arrival) && Check(c.env, arrival.value.given).None?)
                  && (o.rows != rows ==> o.rows == rows + NewRows(c.db, rows, [SpecOf(arrival.value.given)]))
                  && res == Final(c, SoleAnswer(c, mutations, own, rows)))
  {
    hide SingleRun, SpecOf, Defaulted, DefaultedFirst, Arrive, Answered, Batches, Check, Final;
    var s := Start(c, mutations, [own], rows);
    SoleStart(c, mutations, own, rows);
    SingleExactly(c, s, 0, own);
  }

  /** Exactly when the two leave different tables, defaults being available: the database takes what
      arrives, and exactly one of the builder's own fields and the fields that arrive passes `check`. */
  lemma {:induction false} TablesDifferExactly(c: Config, mutations: seq<Mutation>, own: nat, rows: seq<Stored>)
    requires Sole(c, mutations, own) && Defaulted(c.env, mutations[own].fields).1.None?
    ensures var arrival := SoleArrival(c, mutations, own);
            Save(c, mutations, [own], rows).0.rows != SaveOne(c, mutations, own, rows).0.rows <==>
            && Takes(c, rows, arrival)
            && (Check(c.env, arrival.value.own).None? <==> Check(c.env, arrival.value.given).Some?)
  {
    hide Save, SaveOne, SpecOf, Defaulted, SoleArrival, Final, BulkAnswer, SoleAnswer, Check;
    BulkOfOneExactly(c, mutations, own, rows);
    SingleSaveExactly(c, mutations, own, rows);
  }

  /** When defaults have failed the single create inserts nothing and fails; the bulk inserts all the same
      exactly when hooks bring the builder's own fields past `check` and the database takes what arrives. */
  lemma {:induction false} RescuedExactly(c: Config, mutations: seq<Mutation>, own: nat, rows: seq<Stored>)
    requires Sole(c, mutations, own) && Defaulted(c.env, mutations[own].fields).1.Some?
    ensures var arrival := SoleArrival(c, mutations, own);
            && SaveOne(c, mutations, own, rows).1.Failure? && SaveOne(c, mutations, own, rows).0.rows == rows
            && (Save(c, mutations, [own], rows).0.rows != rows <==> Proceeds(c, arrival) && Takes(c, rows, arrival))
  {
    hide Save, SaveOne, SpecOf, Defaulted, SoleArrival, Final, BulkAnswer, SoleAnswer, Check;
    BulkOfOneExactly(c, mutations, own, rows);
    SingleSaveExactly(c, mutations, own, rows);
  }

  /** The same table and the same error, if any. */
  ghost predicate Agree(b: (State, Option<Error>), o: (State, Result<Reply, Error>)) {
    b.0.rows == o.0.rows && b.1 == match o.1 case Success(_) => None case Failure(e) => Some(e)
  }

  /** `check` says the same of the builder's own fields and of the fields that arrive. */
  predicate SameCheck(c: Config, arrival: Option<Arrival>) {
    arrival.Some? ==> Check(c.env, arrival.value.own) == Check(c.env, arrival.value.given)
  }

  /** Without an arrival the core's answer does not matter. */
  lemma {:induction false} UnreachedCore(c: Config, i: nat, h: nat, own: Fields, f: Fields, swapped: bool, a: Outcome,
                                         b: Outcome)
    requires i < |c.hooks| && h <= |c.hooks[i]| && Arrive(c, i, h, own, f, swapped).None?
    ensures Answered(c, i, h, f, a) == Answered(c, i, h, f, b)
    decreases |c.hooks[i]| - h
  {
    var hook := c.hooks[i][h];
    if hook.gate(f).None? {
      var edited := hook.edit(f);
      UnreachedCore(c, i, h + 1, if hook.swaps || swapped then own else edited, edited, swapped || hook.swaps, a, b);
    }
  }

  lemma {:induction false} SameAnswers(c: Config, mutations: seq<Mutation>, own: nat, rows: seq<Stored>)
    requires |c.hooks| == 1 && own < |mutations| && SameCheck(c, SoleArrival(c, mutations, own))
    ensures BulkAnswer(c, mutations, own, rows) == SoleAnswer(c, mutations, own, rows)
  {
    hide SpecOf, Defaulted, Check, Arrive, Answered;
    var f, arrival := Defaulted(c.env, mutations[own].fields).0, SoleArrival(c, mutations, own);
    if arrival.None? {
      UnreachedCore(c, 0, 0, f, f, false, CoreAnswer(c, 0, arrival, None), OneAnswer(c, arrival, None));
    }
  }

  /** When `check` says the same of the builder's own fields and of the fields that arrive, the two agree
      exactly unless the hooks end up answering something that is no account. */
  lemma {:induction false} AgreeUnlessForeign(c: Config, mutations: seq<Mutation>, own: nat, rows: seq<Stored>)
    requires Sole(c, mutations, own) && Defaulted(c.env, mutations[own].fields).1.None?
    requires SameCheck(c, SoleArrival(c, mutations, own))
    ensures var answer := SoleAnswer(c, mutations, own, rows);
            Agree(Save(c, mutations, [own], rows), SaveOne(c, mutations, own, rows)) <==>
            !(answer.Ok? && answer.value.Foreign?)
  {
    hide Save, SaveOne, SpecOf, Defaulted, SoleArrival, BulkAnswer, SoleAnswer, Check;
    BulkOfOneExactly(c, mutations, own, rows);
    SingleSaveExactly(c, mutations, own, rows);
    SameAnswers(c, mutations, own, rows);
    if c.hooks[0] == [] {
      NoHooksNoForeign(c, mutations, own, rows);
    }
  }

  lemma {:induction false} NoHooksNoForeign(c: Config, mutations: seq<Mutation>, own: nat, rows: seq<Stored>)
    requires |c.hooks| == 1 && own < |mutations| && c.hooks[0] == []
    ensures var answer := SoleAnswer(c, mutations, own, rows);
            !(answer.Ok? && answer.value.Foreign?)
  {
    hide Defaulted, Check;
  }

  /** Exactly when a bulk of one and a single create agree, for hooks that rewrite no answers: if a hook
      answers, its answer must not be a value that is no account; if none does, `check` must say the same
      of the builder's own fields and of the fields that arrive. */
  lemma {:induction false} AgreeExactly(c: Config, mutations: seq<Mutation>, own: nat, rows: seq<Stored>)
    requires Sole(c, mutations, own) && Defaulted(c.env, mutations[own].fields).1.None? && NoRewrites(c)
    ensures var arrival, answer := SoleArrival(c, mutations, own), SoleAnswer(c, mutations, own, rows);
            Agree(Save(c, mutations, [own], rows), SaveOne(c, mutations, own, rows)) <==>
            if arrival.Some? then SameCheck(c, arrival) else !(answer.Ok? && answer.value.Foreign?)
  {
    hide Save, SaveOne, SpecOf, Defaulted, Check, Arrive, Answered;
    var f, arrival := Defaulted(c.env, mutations[own].fields).0, SoleArrival(c, mutations, own);
    if SameCheck(c, arrival) {
      AgreeUnlessForeign(c, mutations, own, rows);
    }
    if arrival.Some? {
      var bulkCore := CoreAnswer(c, 0, arrival, Refused(c, rows, BulkBatch(c, arrival)));
      var oneCore := OneAnswer(c, arrival, Refused(c, rows, OneBatch(c, arrival)));
      UnrewrittenAnswer(c, 0, 0, f, f, false, bulkCore);
      UnrewrittenAnswer(c, 0, 0, f, f, false, oneCore);
      BulkOfOneExactly(c, mutations, own, rows);
      SingleSaveExactly(c, mutations, own, rows);
    }
  }

  /** What the bulk's, or the single create's, own code reports when it inserts nothing: what `check` says
      of the fields it looks at, or the database's refusal. */
  function InnerError(c: Config, rows: seq<Stored>, arrival: Arrival, checked: Fields): Error
    requires Check(c.env, checked).Some? || !Takes(c, rows, Some(arrival))
  {
    match Check(c.env, checked)
    case Some(cause) => InvalidRow(cause)
    case None => Refusal(c, rows, [SpecOf(arrival.given)]).value
  }

  /** The error of a save, if any. */
  function BulkError(answer: Outcome): Option<Error> {
    if answer.Err? then Some(answer.error) else None
  }

  function OneError(c: Config, answer: Outcome): Option<Error>
    requires |c.hooks| == 1
  {
    match Final(c, answer)
    case Success(_) => None
    case Failure(e) => Some(e)
  }

  /** Agreement under any hooks. When defaults have failed, the bulk must not insert and the hooks must come
      up with that very error. Otherwise, where `check` tells the builder's own fields and the fields that
      arrive apart, neither may insert, and the hooks must make the same error, or none, of the two that they
      are given. */
  lemma {:induction false} AgreeUnderAnyHooks(c: Config, mutations: seq<Mutation>, own: nat, rows: seq<Stored>)
    requires Sole(c, mutations, own)
    ensures var arrival, answer := SoleArrival(c, mutations, own), SoleAnswer(c, mutations, own, rows);
            var (f, missing) := Defaulted(c.env, mutations[own].fields);
            Agree(Save(c, mutations, [own], rows), SaveOne(c, mutations, own, rows)) <==>
            if missing.Some? then
              && !(Proceeds(c, arrival) && Takes(c, rows, arrival))
              && BulkError(BulkAnswer(c, mutations, own, rows)) == Some(NoDefault(missing.value))
            else if SameCheck(c, arrival) then !(answer.Ok? && answer.value.Foreign?)
            else
              && (Takes(c, rows, arrival) ==>
                    Check(c.env, arrival.value.own).Some? && Check(c.env, arrival.value.given).Some?)
              && BulkError(Answered(c, 0, 0, f, Err(InnerError(c, rows, arrival.value, arrival.value.own)))) ==
                 OneError(c, Answered(c, 0, 0, f, Err(InnerError(c, rows, arrival.value, arrival.value.given))))
  {
    hide Save, SaveOne, SpecOf, Defaulted, Check, Arrive, Answered;
    if SameCheck(c, SoleArrival(c, mutations, own)) && Defaulted(c.env, mutations[own].fields).1.None? {
      AgreeUnlessForeign(c, mutations, own, rows);
    } else {
      BulkOfOneExactly(c, mutations, own, rows);
      SingleSaveExactly(c, mutations, own, rows);
    }
  }

  /** Without swaps and with defaults available, the two leave the same state whatever the hooks answer,
      edit or rewrite, and they agree exactly unless the answer is no account. */
  lemma {:induction false} BulkOfOneIsSingle(c: Config, mutations: seq<Mutation>, own: nat, rows: seq<Stored>)
    requires Sole(c, mutations, own) && NoSwaps(c) && Defaulted(c.env, mutations[own].fields).1.None?
    ensures Save(c, mutations, [own], rows).0 == SaveOne(c, mutations, own, rows).0
    ensures var answer := SoleAnswer(c, mutations, own, rows);
            Agree(Save(c, mutations, [own], rows), SaveOne(c, mutations, own, rows)) <==>
            !(answer.Ok? && answer.value.Foreign?)
  {
    hide Run, SingleRun, SpecOf, Defaulted, Arrive, SoleAnswer;
    var f := Defaulted(c.env, mutations[own].fields).0;
    NoSwapsNoStranger(c, 0, 0, f);
    AgreeUnlessForeign(c, mutations, own, rows);
    ChainsAgree(c, Start(c, mutations, [own], rows), 0);
  }

  /** When defaults have failed and hooks only pass on, both fail and nothing is inserted. */
  lemma {:induction false} FailedDefaultsFailBoth(c: Config, mutations: seq<Mutation>, own: nat, rows: seq<Stored>)
    requires Sole(c, mutations, own) && AllPassThrough(c) && Defaulted(c.env, mutations[own].fields).1.Some?
    ensures var (b, err) := Save(c, mutations, [own], rows);
            var (o, res) := SaveOne(c, mutations, own, rows);
            err.Some? && res.Failure? && b.rows == rows && o.rows == rows
  {
    hide Run, SingleRun, SpecOf, Defaulted;
    FailedDefaultsAreRejected(c.env, mutations[own].fields);
    LowestFaultStopsAll(c, mutations, [own], rows, 0);
  }

  // ---------- Disagreement at concrete inputs ----------

  /** One builder with one hook. */
  function OneHook(env: Env, db: Db, hook: Hook): Config {
    Config(env, db, [[hook]])
  }

  lemma {:induction false} OneHookArrives(env: Env, db: Db, hook: Hook, f: Fields, core: Outcome)
    ensures var c := OneHook(env, db, hook);
            && Arrive(c, 0, 0, f, f, false) ==
               (if hook.gate(f).Some? then None
                else Some(Arrival(if hook.swaps then f else hook.edit(f), hook.edit(f))))
            && Answered(c, 0, 0, f, core) == (if hook.gate(f).Some? then hook.gate(f).value else hook.after(core))
  {
    var c := OneHook(env, db, hook);
    assert c.hooks[0] == [hook];
    assert forall own, g, swapped :: Arrive(c, 0, 1, own, g, swapped) == Some(Arrival(own, g));
    assert forall g :: Answered(c, 0, 1, g, core) == core;
  }

  /** A hook that answers something that is no account: the bulk succeeds, the single create fails. */
  lemma {:induction false} ForeignAnswerFailsAlone(env: Env, db: Db, mine: Fields, text: string, rows: seq<Stored>)
    requires db.AssignsFreshIds() && db.reports && Defaulted(env, mine).1.None?
    ensures var (c, mutations) := (OneHook(env, db, Hook(_ => Some(Ok(Foreign(text))), f => f, false, o => o)),
                                   [Mutation(mine, None, false)]);
            && Sole(c, mutations, 0)
            && Save(c, mutations, [0], rows).1 == None && Save(c, mutations, [0], rows).0.rows == rows
            && SaveOne(c, mutations, 0, rows).1 == Failure(UnexpectedNode)
            && SaveOne(c, mutations, 0, rows).0.rows == rows
  {
    hide Save, SaveOne, SpecOf, Check, Defaulted, Arrive, Answered;
    var hook := Hook(_ => Some(Ok(Foreign(text))), f => f, false, o => o);
    var c, mutations := OneHook(env, db, hook), [Mutation(mine, None, false)];
    var f := Defaulted(env, mine).0;
    assert Sole(c, mutations, 0);
    BulkOfOneExactly(c, mutations, 0, rows);
    SingleSaveExactly(c, mutations, 0, rows);
    var arrival := SoleArrival(c, mutations, 0);
    OneHookArrives(env, db, hook, f, CoreAnswer(c, 0, arrival, Refused(c, rows, BulkBatch(c, arrival))));
    OneHookArrives(env, db, hook, f, OneAnswer(c, arrival, Refused(c, rows, OneBatch(c, arrival))));
  }

  /** A hook that rewrites the answer to something that is no account: both insert the row, and the single
      create reports failure. */
  lemma {:induction false} RewrittenAnswerFailsAlone(env: Env, db: Db, mine: Fields, text: string, rows: seq<Stored>)
    requires db.AssignsFreshIds() && db.reports && db.refuse(rows, [SpecOf(mine)]).None?
    requires Defaulted(env, mine) == (mine, None) && Check(env, mine).None?
    ensures var (c, mutations) := (OneHook(env, db, Hook(_ => None, f => f, false, _ => Ok(Foreign(text)))),
                                   [Mutation(mine, None, false)]);
            && Sole(c, mutations, 0)
            && Save(c, mutations, [0], rows).1 == None && Save(c, mutations, [0], rows).0.rows != rows
            && SaveOne(c, mutations, 0, rows).1 == Failure(UnexpectedNode)
            && SaveOne(c, mutations, 0, rows).0.rows != rows
  {
    hide Save, SaveOne, SpecOf, Check, Defaulted, Arrive, Answered;
    var hook := Hook(_ => None, f => f, false, _ => Ok(Foreign(text)));
    var c, mutations := OneHook(env, db, hook), [Mutation(mine, None, false)];
    var f := Defaulted(env, mine).0;
    assert Sole(c, mutations, 0);
    BulkOfOneExactly(c, mutations, 0, rows);
    SingleSaveExactly(c, mutations, 0, rows);
    var arrival := SoleArrival(c, mutations, 0);
    OneHookArrives(env, db, hook, f, CoreAnswer(c, 0, arrival, Refused(c, rows, BulkBatch(c, arrival))));
    OneHookArrives(env, db, hook, f, OneAnswer(c, arrival, Refused(c, rows, OneBatch(c, arrival))));
  }

  /** A hook that passes on another mutation object gets it inserted by the bulk unchecked: the bulk
      checks the builder's own mutation, the single create the one passed on. */
  lemma {:induction false} SwappedMutationEscapesCheck(env: Env, db: Db, mine: Fields, other: Fields, rows: seq<Stored>)
    requires db.AssignsFreshIds() && db.reports && db.refuse(rows, [SpecOf(other)]).None?
    requires Defaulted(env, mine) == (mine, None) && Check(env, mine).None? && Check(env, other).Some?
    ensures var c := OneHook(env, db, Hook(_ => None, _ => other, true, o => o));
            var mutations := [Mutation(mine, None, false)];
            && Sole(c, mutations, 0)
            && Save(c, mutations, [0], rows).1 == None
            && Save(c, mutations, [0], rows).0.rows == rows + NewRows(db, rows, [SpecOf(other)])
            && SaveOne(c, mutations, 0, rows).1 == Failure(InvalidRow(Check(env, other).value))
  {
    hide Save, SaveOne, SpecOf, Check, Defaulted, Arrive, Answered;
    var hook := Hook(_ => None, _ => other, true, o => o);
    var c, mutations := OneHook(env, db, hook), [Mutation(mine, None, false)];
    var f := Defaulted(env, mine).0;
    assert Sole(c, mutations, 0);
    BulkOfOneExactly(c, mutations, 0, rows);
    SingleSaveExactly(c, mutations, 0, rows);
    var arrival := SoleArrival(c, mutations, 0);
    OneHookArrives(env, db, hook, f, CoreAnswer(c, 0, arrival, Refused(c, rows, BulkBatch(c, arrival))));
    OneHookArrives(env, db, hook, f, OneAnswer(c, arrival, Refused(c, rows, OneBatch(c, arrival))));
  }

  /** A hook that supplies what `defaults` could not lets the bulk succeed where the single create has
      already given up. */
  lemma {:induction false} RepairedDefaultsSucceedOnlyInBulk(env: Env, db: Db, mine: Fields, whole: Fields,
                                                             rows: seq<Stored>)
    requires db.AssignsFreshIds() && db.reports && db.refuse(rows, [SpecOf(whole)]).None?
    requires Defaulted(env, mine).1.Some? && Check(env, whole).None?
    ensures var c := OneHook(env, db, Hook(_ => None, _ => whole, false, o => o));
            var mutations := [Mutation(mine, None, false)];
            && Sole(c, mutations, 0)
            && Save(c, mutations, [0], rows).1 == None
            && Save(c, mutations, [0], rows).0.rows == rows + NewRows(db, rows, [SpecOf(whole)])
            && SaveOne(c, mutations, 0, rows).1 == Failure(NoDefault(Defaulted(env, mine).1.value))
  {
    hide Save, SaveOne, SpecOf, Check, Defaulted, Arrive, Answered;
    var hook := Hook(_ => None, _ => whole, false, o => o);
    var c, mutations := OneHook(env, db, hook), [Mutation(mine, None, false)];
    var f := Defaulted(env, mine).0;
    assert Sole(c, mutations, 0);
    BulkOfOneExactly(c, mutations, 0, rows);
    SingleSaveExactly(c, mutations, 0, rows);
    var arrival := SoleArrival(c, mutations, 0);
    OneHookArrives(env, db, hook, f, CoreAnswer(c, 0, arrival, Refused(c, rows, BulkBatch(c, arrival))));
    OneHookArrives(env, db, hook, f, OneAnswer(c, arrival, Refused(c, rows, OneBatch(c, arrival))));
  }

  // ---------- The builder ----------

  class AccountCreateOne {
    const c: Config
    var mutations: seq<Mutation>
    const own: nat
    var node: Option<Entity>
    var spec: Option<Insert>
    var rows: seq<Stored>
    ghost var trace: seq<Event>

    constructor (c: Config, mutations: seq<Mutation>, own: nat, rows: seq<Stored>)
      ensures this.c == c && this.mutations == mutations && this.own == own && this.rows == rows
      ensures node == None && spec == None && trace == []
    {
      this.c, this.mutations, this.own, this.rows, trace := c, mutations, own, rows, [];
      node, spec := None, None;
    }

    ghost function Snapshot(): State
      reads this
    {
      State(mutations, [own], [node], [spec], rows, trace)
    }

    /** The hooks from `h` on, around `sqlSave`. */
    method Mutate(h: nat, m: nat) returns (answer: Outcome)
      requires One(c, Snapshot(), h, m)
      modifies this
      ensures (Snapshot(), answer) == SingleRun(c, old(Snapshot()), h, m)
      decreases |c.hooks[0]| - h
    {
      hide Check, SpecOf, BatchCreate;
      if h == |c.hooks[0]| {
        ghost var s := Snapshot();
        assert s.held[0] == own;
        mutations := mutations[own := mutations[m]];
        assert Snapshot() == s.(mutations := s.mutations[s.held[0] := s.mutations[m]]);
        answer := SqlSave();
        return;
      }
      var hook := c.hooks[0][h];
      trace := trace + [Enter(0, h)];
      var gated := hook.gate(mutations[m].fields);
      if gated.Some? {
        trace := trace + [Exit(0, h)];
        return gated.value;
      }
      var passed, edited := m, hook.edit(mutations[m].fields);
      if hook.swaps {
        passed := |mutations|;
        mutations := mutations + [Mutation(edited, None, false)];
      } else {
        mutations := mutations[m := mutations[m].(fields := edited)];
      }
      answer := Mutate(h + 1, passed);
      trace := trace + [Exit(0, h)];
      return hook.after(answer);
    }

    /** Checks, compiles and inserts the builder's own mutation. */
    method SqlSave() returns (answer: Outcome)
      requires |c.hooks| == 1 && One(c, Snapshot(), |c.hooks[0]|, own)
      modifies this
      ensures (Snapshot(), answer) == Inserted(c, old(Snapshot()))
    {
      hide Check, SpecOf, BatchCreate;
      ghost var s := Snapshot();
      var cause := Check(c.env, mutations[own].fields);
      if cause.Some? {
        return Err(InvalidRow(cause.value));
      }
      node, spec := Some(Entity(mutations[own].fields, 0)), Some(Insert(SpecOf(mutations[own].fields), None));
      assert Snapshot() == Compiled(s, 0, own);
      var err := CreateNode();
      ghost var t := Snapshot();
      if err.Some? {
        return Err(err.value);
      }
      IdsReported(c, Compiled(s, 0, own));
      assert t.specs[0] == spec && t.nodes[0] == node;
      node := Some(node.value.(id := spec.value.id.value));
      mutations := mutations[own := mutations[own].(nodeAt := Some(0), done := true)];
      assert Snapshot() == Finished(t, 0, own);
      return Ok(Node(0));
    }

    /** The database's side of one insert. */
    method CreateNode() returns (err: Option<Error>)
      requires Ready(c, Snapshot(), 1) && |c.hooks| == 1 && c.db.AssignsFreshIds() && c.db.reports
      modifies `rows, `trace, `spec
      ensures (Snapshot(), err) == BatchCreate(c, old(Snapshot()))
    {
      ghost var s := Snapshot();
      assert s.specs[0] == spec;
      var batch := [spec.value.spec];
      assert batch == Specs(s.specs);
      var refused := c.db.refuse(rows, batch);
      if refused.Some? {
        trace := trace + [Batch(false)];
        return Some(StoreError(refused.value));
      }
      var ids := c.db.ids(rows, 1);
      trace := trace + [Batch(true)];
      rows := rows + NewRows(c.db, rows, batch);
      spec := Some(Insert(spec.value.spec, Some(ids[0])));
      assert [spec] == Reported(s.specs, ids);
      return None;
    }

    /** Returns the last hook's answer if it is an account. */
    method Save() returns (res: Result<Reply, Error>)
      requires Sole(c, mutations, own)
      requires node == None && spec == None && trace == []
      modifies this
      ensures (Snapshot(), res) == SaveOne(c, old(mutations), own, old(rows))
    {
      hide SingleRun, Defaulted;
      var (defaulted, column) := Defaulted(c.env, mutations[own].fields);
      mutations := mutations[own := mutations[own].(fields := defaulted)];
      assert Snapshot() == Start(c, old(mutations), [own], rows) by {
        assert DefaultedFirst(c.env, old(mutations), [own], 0) == old(mutations);
      }
      if column.Some? {
        return Failure(NoDefault(column.value));
      }
      var answer := Mutate(0, own);
      if answer.Err? {
        return Failure(answer.error);
      }
      if c.hooks[0] != [] && answer.value.Foreign? {
        return Failure(UnexpectedNode);
      }
      return Success(answer.value);
    }
  }
}
