/** The exact outcome of a bulk create, whatever its hooks do: what reaches the database, whether it is
    asked, and what the chain answers. */
module BulkVerdicts {
  import opened Results
  import opened AccountRecord
  import opened AccountCreate
  import opened BulkCreate
  import opened BulkLaws

  // ---------- One builder by itself ----------

  /** What reaches a builder's own code: the fields of the mutation it holds, which `check` looks at, and
      the fields of the mutation it is given. */
  datatype Arrival = Arrival(own: Fields, given: Fields)

  /** Passing the hooks from `h` on with fields `f`; `swapped` once a hook has passed on another mutation
      object. None if a hook answers by itself. */
  function Arrive(c: Config, i: nat, h: nat, own: Fields, f: Fields, swapped: bool): Option<Arrival>
    requires i < |c.hooks| && h <= |c.hooks[i]|
    decreases |c.hooks[i]| - h
  {
    if h == |c.hooks[i]| then Some(Arrival(own, f))
    else
      var hook := c.hooks[i][h];
      if hook.gate(f).Some? then None
      else
        var edited := hook.edit(f);
        if hook.swaps then Arrive(c, i, h + 1, own, edited, true)
        else Arrive(c, i, h + 1, if swapped then own else edited, edited, swapped)
  }

  /** What the hooks from `h` on make of the answer `core` of the builder's own code. */
  function Answered(c: Config, i: nat, h: nat, f: Fields, core: Outcome): Outcome
    requires i < |c.hooks| && h <= |c.hooks[i]|
    decreases |c.hooks[i]| - h
  {
    if h == |c.hooks[i]| then core
    else
      var hook := c.hooks[i][h];
      match hook.gate(f)
      case Some(answer) => answer
      case None => hook.after(Answered(c, i, h + 1, hook.edit(f), core))
  }

  /** The builder lets the chain go on. */
  predicate Proceeds(c: Config, arrival: Option<Arrival>) {
    arrival.Some? && Check(c.env, arrival.value.own).None?
  }

  /** The answer of the builder's own code, given the error of what comes after it. */
  function CoreAnswer(c: Config, i: nat, arrival: Option<Arrival>, later: Option<Error>): Outcome {
    if arrival.Some? && Check(c.env, arrival.value.own).Some? then
      Err(InvalidRow(Check(c.env, arrival.value.own).value))
    else if later.Some? then Err(later.value)
    else Ok(Node(i))
  }

  // ---------- The builders after one ----------

  /** The fields of builder `j`'s mutation. */
  function Of(s: State, j: nat): Fields
    requires j < |s.held| && s.held[j] < |s.mutations|
  {
    s.mutations[s.held[j]].fields
  }

  function ArrivalAt(c: Config, s: State, j: nat): Option<Arrival>
    requires j < |c.hooks| && Ready(c, s, 0)
  {
    Arrive(c, j, 0, Of(s, j), Of(s, j), false)
  }

  /** Builder `j` and all later ones proceed. */
  predicate AllProceed(c: Config, s: State, j: nat)
    requires j <= |c.hooks| && Ready(c, s, 0)
    decreases |c.hooks| - j
  {
    j == |c.hooks| || (Proceeds(c, ArrivalAt(c, s, j)) && AllProceed(c, s, j + 1))
  }

  /** The specifications that reach the database from builder `j` on. */
  function Planned(c: Config, s: State, j: nat): (r: seq<Spec>)
    requires j <= |c.hooks| && Ready(c, s, 0) && AllProceed(c, s, j)
    ensures |r| == |c.hooks| - j
    decreases |c.hooks| - j
  {
    if j == |c.hooks| then [] else [SpecOf(ArrivalAt(c, s, j).value.given)] + Planned(c, s, j + 1)
  }

  /** The error builder `j`'s mutator returns, if the database would answer `refused`. */
  function ErrorFrom(c: Config, s: State, j: nat, refused: Option<Error>): Option<Error>
    requires j <= |c.hooks| && Ready(c, s, 0)
    decreases |c.hooks| - j
  {
    if j == |c.hooks| then refused
    else
      var answer := Answered(c, j, 0, Of(s, j), CoreAnswer(c, j, ArrivalAt(c, s, j), ErrorFrom(c, s, j + 1, refused)));
      if answer.Err? then Some(answer.error) else None
  }

  /** The same fields from builder `j` on in both states. */
  ghost predicate SameLater(c: Config, s: State, t: State, j: nat)
    requires Ready(c, s, 0) && Ready(c, t, 0)
  {
    forall k :: j <= k < |c.hooks| ==> Of(s, k) == Of(t, k)
  }

  lemma {:induction false} LaterAgree(c: Config, s: State, t: State, j: nat, refused: Option<Error>)
    requires j <= |c.hooks| && Ready(c, s, 0) && Ready(c, t, 0) && SameLater(c, s, t, j)
    ensures AllProceed(c, s, j) == AllProceed(c, t, j)
    ensures AllProceed(c, s, j) ==> Planned(c, s, j) == Planned(c, t, j)
    ensures ErrorFrom(c, s, j, refused) == ErrorFrom(c, t, j, refused)
    decreases |c.hooks| - j
  {
    hide Arrive, Answered, CoreAnswer, Proceeds, SpecOf;
    if j < |c.hooks| {
      assert Of(s, j) == Of(t, j);
      LaterAgree(c, s, t, j + 1, refused);
    }
  }

  // ---------- Asking the database ----------

  /** How often the database has been asked to run a batch. */
  function Batches(trace: seq<Event>): nat {
    if trace == [] then 0 else Batches(trace[..|trace| - 1]) + if trace[|trace| - 1].Batch? then 1 else 0
  }

  lemma {:induction false} LogCounts(s: State, e: Event)
    ensures Batches(Log(s, e).trace) == Batches(s.trace) + if e.Batch? then 1 else 0
  {
    assert (s.trace + [e])[..|s.trace|] == s.trace;
  }

  /** The database's answer to a batch. */
  function Refusal(c: Config, rows: seq<Stored>, batch: seq<Spec>): Option<Error> {
    match c.db.refuse(rows, batch)
    case Some(text) => Some(StoreError(text))
    case None => None
  }

  /** The specifications compiled before link `i`. */
  function Before(s: State, i: nat): seq<Spec>
    requires i <= |s.specs| && forall j :: 0 <= j < i ==> s.specs[j].Some?
  {
    seq(i, j requires 0 <= j < i => s.specs[j].value.spec)
  }

  /** The batch that reaches the database, if every builder from `i` on proceeds. */
  function Batched(c: Config, s: State, i: nat, arrival: Option<Arrival>): Option<seq<Spec>>
    requires i < |c.hooks| && Ready(c, s, i)
  {
    if Proceeds(c, arrival) && AllProceed(c, s, i + 1)
    then Some(Before(s, i) + [SpecOf(arrival.value.given)] + Planned(c, s, i + 1))
    else None
  }

  function Refused(c: Config, rows: seq<Stored>, batch: Option<seq<Spec>>): Option<Error> {
    if batch.Some? then Refusal(c, rows, batch.value) else None
  }

  /** The table and the number of batches afterwards. */
  ghost predicate Asked(c: Config, s: State, batch: Option<seq<Spec>>, r: State)
    requires c.db.AssignsFreshIds()
  {
    if batch.None? then r.rows == s.rows && Batches(r.trace) == Batches(s.trace)
    else
      && Batches(r.trace) == Batches(s.trace) + 1
      && r.rows == if Refusal(c, s.rows, batch.value).Some? then s.rows
                   else s.rows + NewRows(c.db, s.rows, batch.value)
  }

  /** What a call of mutator `i` comes to, given what reaches builder `i`. */
  ghost predicate Verdict(c: Config, s: State, i: nat, h: nat, f: Fields, arrival: Option<Arrival>, r: State,
                          answer: Outcome)
    requires i < |c.hooks| && h <= |c.hooks[i]| && Ready(c, s, i) && c.db.AssignsFreshIds()
  {
    var batch := Batched(c, s, i, arrival);
    && Asked(c, s, batch, r)
    && answer == Answered(c, i, h, f, CoreAnswer(c, i, arrival, ErrorFrom(c, s, i + 1, Refused(c, s.rows, batch))))
  }

  /** What reaches builder `i` from hook `h` on with mutation `m`. */
  function ArrivalWith(c: Config, s: State, i: nat, h: nat, m: nat): Option<Arrival>
    requires i < |c.hooks| && h <= |c.hooks[i]| && i < |s.held| && s.held[i] < |s.mutations| && m < |s.mutations|
  {
    Arrive(c, i, h, s.mutations[s.held[i]].fields, s.mutations[m].fields, m != s.held[i])
  }

  /** The exact outcome of a run, under any hooks. */
  lemma {:induction false} RunExactly(c: Config, s: State, i: nat, h: nat, m: nat)
    requires Callable(c, s, i, h, m) && Own(s, i, m)
    ensures var (r, answer) := Run(c, s, i, h, m);
            Verdict(c, s, i, h, s.mutations[m].fields, ArrivalWith(c, s, i, h, m), r, answer)
    decreases |c.hooks| - i, |c.hooks[i]| - h
  {
    hide Run, SpecOf, BatchCreate, AllProceed, Planned, ErrorFrom, Check, Batches, Verdict;
    if h < |c.hooks[i]| {
      if Answer(c, s, i, h, m).Some? {
        AnswerStep(c, s, i, h, m);
        GateVerdict(c, s, i, h, m);
      } else {
        var s', m', t, answer := PassStep(c, s, i, h, m);
        RunExactly(c, s', i, h + 1, m');
        HookVerdict(c, s, i, h, m, s', m', t, answer);
      }
    } else if Reject(c, s, i).Some? {
      RejectStep(c, s, i, m);
      RejectVerdict(c, s, i, m);
    } else if i < |c.hooks| - 1 {
      var t, answer := LinkStep(c, s, i, m);
      var next := Compiled(s, i, m);
      RunExactly(c, next, i + 1, 0, s.held[i + 1]);
      LinkVerdict(c, s, i, m, t, answer);
    } else {
      var t, err := BatchStep(c, s, i, m);
      BatchVerdict(c, s, i, m);
    }
  }

  lemma {:induction false} GateVerdict(c: Config, s: State, i: nat, h: nat, m: nat)
    requires Callable(c, s, i, h, m) && h < |c.hooks[i]| && Answer(c, s, i, h, m).Some?
    ensures Verdict(c, s, i, h, s.mutations[m].fields, ArrivalWith(c, s, i, h, m),
                    Log(Log(s, Enter(i, h)), Exit(i, h)), Answer(c, s, i, h, m).value)
  {
    hide Batches, SpecOf, Check, AllProceed, ErrorFrom, Planned;
    LogCounts(s, Enter(i, h));
    LogCounts(Log(s, Enter(i, h)), Exit(i, h));
  }

  lemma {:induction false} RejectVerdict(c: Config, s: State, i: nat, m: nat)
    requires i < |c.hooks| && Callable(c, s, i, |c.hooks[i]|, m) && Reject(c, s, i).Some?
    ensures Verdict(c, s, i, |c.hooks[i]|, s.mutations[m].fields, ArrivalWith(c, s, i, |c.hooks[i]|, m),
                    s, Err(InvalidRow(Reject(c, s, i).value)))
  {
    hide Batches, SpecOf, Check, AllProceed, ErrorFrom, Planned;
  }

  lemma {:induction false} HookVerdict(c: Config, s: State, i: nat, h: nat, m: nat, s': State, m': nat, t: State,
                                       answer: Outcome)
    requires Callable(c, s, i, h, m) && Own(s, i, m) && h < |c.hooks[i]| && Answer(c, s, i, h, m).None?
    requires (s', m') == Passed(Log(s, Enter(i, h)), c.hooks[i][h], m) && Callable(c, s', i, h + 1, m')
    requires Verdict(c, s', i, h + 1, s'.mutations[m'].fields, ArrivalWith(c, s', i, h + 1, m'), t, answer)
    ensures Verdict(c, s, i, h, s.mutations[m].fields, ArrivalWith(c, s, i, h, m),
                    Log(t, Exit(i, h)), c.hooks[i][h].after(answer))
  {
    hide Batches, SpecOf, Check, AllProceed, ErrorFrom, Planned, CoreAnswer, Proceeds, NewRows;
    LogCounts(s, Enter(i, h));
    LogCounts(t, Exit(i, h));
    assert ArrivalWith(c, s, i, h, m) == ArrivalWith(c, s', i, h + 1, m');
    assert Before(s', i) == Before(s, i);
    LaterAgree(c, s, s', i + 1, Refused(c, s.rows, Batched(c, s, i, ArrivalWith(c, s, i, h, m))));
  }

  /** From the verdict on the next link to the verdict on this one. */
  lemma {:induction false} LinkVerdict(c: Config, s: State, i: nat, m: nat, t: State, answer: Outcome)
    requires i < |c.hooks| - 1 && Callable(c, s, i, |c.hooks[i]|, m) && Own(s, i, m) && Reject(c, s, i).None?
    requires Ready(c, t, i + 1) && |s.mutations| <= |t.mutations|
    requires var next := Compiled(s, i, m);
             Ready(c, next, i + 1) &&
             Verdict(c, next, i + 1, 0, Of(next, i + 1), ArrivalAt(c, next, i + 1), t, answer)
    ensures var (r, o) := if answer.Err? then (t, answer) else (Finished(t, i, m), Ok(Node(i)));
            Verdict(c, s, i, |c.hooks[i]|, s.mutations[m].fields, ArrivalWith(c, s, i, |c.hooks[i]|, m), r, o)
  {
    hide SpecOf, Check, Batches, NewRows, Arrive, Answered;
    var next, f := Compiled(s, i, m), s.mutations[m].fields;
    assert ArrivalWith(c, s, i, |c.hooks[i]|, m) == Some(Arrival(Of(s, i), f)) by {
      AtCore(c, s, i, m);
    }
    var batch := Batched(c, s, i, Some(Arrival(Of(s, i), f)));
    LaterAgree(c, s, next, i + 1, Refused(c, s.rows, batch));
    LaterAgree(c, s, next, i + 2, Refused(c, s.rows, batch));
    assert Before(next, i + 1) == Before(s, i) + [SpecOf(f)];
    if AllProceed(c, next, i + 1) {
      var given := ArrivalAt(c, next, i + 1).value.given;
      assert Before(next, i + 1) + [SpecOf(given)] + Planned(c, next, i + 2) ==
             Before(s, i) + [SpecOf(f)] + Planned(c, s, i + 1);
    }
    assert batch == Batched(c, next, i + 1, ArrivalAt(c, next, i + 1));
    AnsweredAtCore(c, i, f);
  }

  lemma {:induction false} AtCore(c: Config, s: State, i: nat, m: nat)
    requires i < |c.hooks| && i < |s.held| && s.held[i] < |s.mutations| && m < |s.mutations|
    ensures ArrivalWith(c, s, i, |c.hooks[i]|, m) == Some(Arrival(Of(s, i), s.mutations[m].fields))
  {
  }

  lemma {:induction false} AnsweredAtCore(c: Config, i: nat, f: Fields)
    requires i < |c.hooks|
    ensures forall core :: Answered(c, i, |c.hooks[i]|, f, core) == core
  {
  }

  lemma {:induction false} BatchVerdict(c: Config, s: State, i: nat, m: nat)
    requires i == |c.hooks| - 1 && Callable(c, s, i, |c.hooks[i]|, m) && Reject(c, s, i).None?
    ensures var (t, err) := BatchCreate(c, Compiled(s, i, m));
            var (r, o) := if err.Some? then (t, Err(err.value)) else (Finished(t, i, m), Ok(Node(i)));
            Verdict(c, s, i, |c.hooks[i]|, s.mutations[m].fields, ArrivalWith(c, s, i, |c.hooks[i]|, m), r, o)
  {
    hide SpecOf, Check, Batches;
    var full := Compiled(s, i, m);
    AtCore(c, s, i, m);
    LogCounts(full, Batch(true));
    LogCounts(full, Batch(false));
    assert Specs(full.specs) == Before(s, i) + [SpecOf(s.mutations[m].fields)] + Planned(c, s, i + 1);
  }
}
