/** The disagreements between a bulk of one and a single create, at concrete inputs. */
module SingleWitness {
  import opened Results
  import opened Selections
  import opened AccountRecord
  import opened AccountCreate
  import opened BulkCreate
  import opened SingleCreate

  // ---------- A database ----------

  function Top(rows: seq<Stored>): (t: int)
    ensures forall r :: r in rows ==> r.id <= t
  {
    if rows == [] then 0
    else
      var t := Top(rows[..|rows| - 1]);
      assert rows == rows[..|rows| - 1] + [rows[|rows| - 1]];
      if rows[|rows| - 1].id > t then rows[|rows| - 1].id else t
  }

  function NextIds(rows: seq<Stored>, n: nat): (ids: seq<int>)
    ensures |ids| == n && forall j :: 0 <= j < n ==> ids[j] == Top(rows) + 1 + j
  {
    seq(n, j => Top(rows) + 1 + j)
  }

  /** Accepts everything and counts ids upwards. */
  const OPEN_DB := Db((_, _) => None, (rows: seq<Stored>, n: nat) => NextIds(rows, n), true)

  lemma {:induction false} OpenDbAssigns()
    ensures OPEN_DB.AssignsFreshIds()
  {
    forall rows: seq<Stored>, n: nat
      ensures |OPEN_DB.ids(rows, n)| == n && NoDup(OPEN_DB.ids(rows, n))
      ensures forall r :: r in rows ==> r.id !in OPEN_DB.ids(rows, n)
    {
      assert OPEN_DB.ids(rows, n) == NextIds(rows, n);
    }
  }

  // ---------- Mutations ----------

  /** Defaults uninitialized, as without the runtime package, and validators that accept everything. */
  const BARE := Env(None, None, None, None, 3, 50, 1.0, "active", true, true,
                    _ => true, _ => true, _ => true, _ => true, _ => true)

  const WHOLE: Fields := map[
    CREATED_AT := Time(1), UPDATED_AT := Time(1), NAME := Str("main"), PLATFORM := Str("openai"), TYPE := Str("oauth"),
    CREDENTIALS := Document(None), EXTRA := Document(None), CONCURRENCY := Int(3), PRIORITY := Int(50),
    RATE_MULTIPLIER := Float(1.0), STATUS := Str("active"), AUTO_PAUSE_ON_EXPIRED := Bool(true),
    SCHEDULABLE := Bool(true), QUOTA_DIMENSION := Str("global")]

  lemma {:induction false} WholeIsSet()
    ensures forall c :: c in NOT_NULL && c != ID ==> c in WHOLE
    ensures forall c :: !IllText(BARE, WHOLE, c)
  {
  }

  lemma {:induction false} WholeIsValid()
    ensures Check(BARE, WHOLE).None?
  {
    WholeIsSet();
    var err := Check(BARE, WHOLE);
    hide Check, IllText;
    CheckReportsFirst(BARE, WHOLE, if err.Some? then err.value else Missing(NAME));
  }

  lemma {:induction false} WholeIsDefaulted()
    ensures Defaulted(BARE, WHOLE) == (WHOLE, None)
  {
    WholeIsSet();
    hide IllText;
  }

  lemma {:induction false} NothingIsInvalid()
    ensures Check(BARE, map[]) == Some(Missing(CREATED_AT))
    ensures Defaulted(BARE, map[]) == (map[], Some(CREATED_AT))
  {
  }

  // ---------- The disagreements ----------

  lemma {:induction false} ForeignAnswerWitness()
    ensures var c := OneHook(BARE, OPEN_DB, Hook(_ => Some(Ok(Foreign("cached"))), f => f, false, o => o));
            var mutations := [Mutation(WHOLE, None, false)];
            && Sole(c, mutations, 0)
            && Save(c, mutations, [0], []).1 == None && SaveOne(c, mutations, 0, []).1 == Failure(UnexpectedNode)
  {
    OpenDbAssigns();
    WholeIsValid();
    WholeIsDefaulted();
    NothingIsInvalid();
    hide Save, SaveOne, Defaulted, Check;
    ForeignAnswerFailsAlone(BARE, OPEN_DB, WHOLE, "cached", []);
  }

  lemma {:induction false} SwapWitness()
    ensures var (c, mutations) := (OneHook(BARE, OPEN_DB, Hook(_ => None, _ => map[], true, o => o)),
                                   [Mutation(WHOLE, None, false)]);
            && Sole(c, mutations, 0)
            && Save(c, mutations, [0], []).1 == None && |Save(c, mutations, [0], []).0.rows| == 1
            && SaveOne(c, mutations, 0, []).1 == Failure(InvalidRow(Missing(CREATED_AT)))
  {
    OpenDbAssigns();
    WholeIsValid();
    WholeIsDefaulted();
    NothingIsInvalid();
    hide Save, SaveOne, Defaulted, Check, SpecOf;
    SwappedMutationEscapesCheck(BARE, OPEN_DB, WHOLE, map[], []);
  }

  lemma {:induction false} RepairWitness()
    ensures var (c, mutations) := (OneHook(BARE, OPEN_DB, Hook(_ => None, _ => WHOLE, false, o => o)),
                                   [Mutation(map[], None, false)]);
            && Sole(c, mutations, 0)
            && Save(c, mutations, [0], []).1 == None && |Save(c, mutations, [0], []).0.rows| == 1
            && SaveOne(c, mutations, 0, []).1 == Failure(NoDefault(CREATED_AT))
  {
    OpenDbAssigns();
    WholeIsValid();
    WholeIsDefaulted();
    NothingIsInvalid();
    hide Save, SaveOne, Defaulted, Check, SpecOf;
    RepairedDefaultsSucceedOnlyInBulk(BARE, OPEN_DB, map[], WHOLE, []);
  }

  lemma {:induction false} RewriteWitness()
    ensures var (c, mutations) := (OneHook(BARE, OPEN_DB, Hook(_ => None, f => f, false, _ => Ok(Foreign("done")))),
                                   [Mutation(WHOLE, None, false)]);
            && Sole(c, mutations, 0)
            && Save(c, mutations, [0], []).1 == None && SaveOne(c, mutations, 0, []).0.rows != []
            && SaveOne(c, mutations, 0, []).1 == Failure(UnexpectedNode)
  {
    OpenDbAssigns();
    WholeIsValid();
    WholeIsDefaulted();
    NothingIsInvalid();
    hide Save, SaveOne, Defaulted, Check, SpecOf;
    RewrittenAnswerFailsAlone(BARE, OPEN_DB, WHOLE, "done", []);
  }
}
