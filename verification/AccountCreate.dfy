/** Building one account: defaults, validation, and the insert specification. */
module AccountCreate {
  import opened Results
  import opened AccountRecord

  // ---------- defaults ----------

  function DefaultFor(env: Env, c: Column): Option<Value> {
    if c == CREATED_AT then if env.createdAt.Some? then Some(Time(env.createdAt.value)) else None
    else if c == UPDATED_AT then if env.updatedAt.Some? then Some(Time(env.updatedAt.value)) else None
    else if c == CREDENTIALS then if env.credentials.Some? then Some(Document(env.credentials.value)) else None
    else if c == EXTRA then if env.extra.Some? then Some(Document(env.extra.value)) else None
    else if c == CONCURRENCY then Some(Int(env.concurrency))
    else if c == PRIORITY then Some(Int(env.priority))
    else if c == RATE_MULTIPLIER then Some(Float(env.rateMultiplier))
    else if c == STATUS then Some(Str(env.status))
    else if c == AUTO_PAUSE_ON_EXPIRED then Some(Bool(env.autoPause))
    else if c == SCHEDULABLE then Some(Bool(env.schedulable))
    else if c == QUOTA_DIMENSION then Some(Str("global"))
    else None
  }

  /** The columns whose default is a function. */
  predicate HasFunctionDefault(c: Column) {
    c == CREATED_AT || c == UPDATED_AT || c == CREDENTIALS || c == EXTRA
  }

  predicate Unavailable(env: Env, m: Fields, c: Column) {
    c !in m && DefaultFor(env, c).None?
  }

  /** Sets a key unless it is set. */
  function Unless<K, V>(m: map<K, V>, k: K, v: V): map<K, V> {
    if k in m then m else m[k := v]
  }

  lemma {:induction false} UnlessAt<K, V>(m: map<K, V>, k: K, v: V, x: K) returns (r: map<K, V>)
    ensures r == Unless(m, k, v)
    ensures x in r <==> x in m || x == k
    ensures x in r ==> r[x] == if x in m then m[x] else v
  {
    r := Unless(m, k, v);
  }

  function FunctionDefaults(env: Env, m: Fields): (Fields, Option<Column>) {
    if CREATED_AT !in m && env.createdAt.None? then (m, Some(CREATED_AT))
    else
      var m := if CREATED_AT in m then m else m[CREATED_AT := Time(env.createdAt.value)];
      if UPDATED_AT !in m && env.updatedAt.None? then (m, Some(UPDATED_AT))
      else
        var m := if UPDATED_AT in m then m else m[UPDATED_AT := Time(env.updatedAt.value)];
        if CREDENTIALS !in m && env.credentials.None? then (m, Some(CREDENTIALS))
        else
          var m := if CREDENTIALS in m then m else m[CREDENTIALS := Document(env.credentials.value)];
          if EXTRA !in m && env.extra.None? then (m, Some(EXTRA))
          else (if EXTRA in m then m else m[EXTRA := Document(env.extra.value)], None)
  }

  function PlainDefaults(env: Env, m: Fields): Fields {
    var m := Unless(m, CONCURRENCY, Int(env.concurrency));
    var m := Unless(m, PRIORITY, Int(env.priority));
    var m := Unless(m, RATE_MULTIPLIER, Float(env.rateMultiplier));
    var m := Unless(m, STATUS, Str(env.status));
    var m := Unless(m, AUTO_PAUSE_ON_EXPIRED, Bool(env.autoPause));
    var m := Unless(m, SCHEDULABLE, Bool(env.schedulable));
    Unless(m, QUOTA_DIMENSION, Str("global"))
  }

  /** The mutation `defaults` leaves behind, and the column it could not fill in. */
  function Defaulted(env: Env, m: Fields): (Fields, Option<Column>) {
    var (f, err) := FunctionDefaults(env, m);
    if err.Some? then (f, err) else (PlainDefaults(env, f), None)
  }

  lemma {:induction false} FunctionDefaultsExactly(env: Env, m: Fields, c: Column)
    ensures var (r, err) := FunctionDefaults(env, m);
            && (c in m ==> c in r && r[c] == m[c])
            && (c !in m && c in r ==> DefaultFor(env, c) == Some(r[c]))
            && (HasFunctionDefault(c) && c !in r ==> err.Some?)
            && (err == Some(c) ==> HasFunctionDefault(c) && Unavailable(env, m, c) && c !in r)
            && (HasFunctionDefault(c) && Unavailable(env, m, c) ==> err.Some? && c !in r && err.value <= c)
  {
  }

  lemma {:induction false} PlainDefaultsExactly(env: Env, m: Fields, c: Column)
    ensures var r := PlainDefaults(env, m);
            && (c in m ==> c in r && r[c] == m[c])
            && (c !in m && c in r ==> DefaultFor(env, c) == Some(r[c]))
            && (c !in r ==> HasFunctionDefault(c) || DefaultFor(env, c).None?)
  {
    hide Unless;
    var m1 := UnlessAt(m, CONCURRENCY, Int(env.concurrency), c);
    var m2 := UnlessAt(m1, PRIORITY, Int(env.priority), c);
    var m3 := UnlessAt(m2, RATE_MULTIPLIER, Float(env.rateMultiplier), c);
    var m4 := UnlessAt(m3, STATUS, Str(env.status), c);
    var m5 := UnlessAt(m4, AUTO_PAUSE_ON_EXPIRED, Bool(env.autoPause), c);
    var m6 := UnlessAt(m5, SCHEDULABLE, Bool(env.schedulable), c);
    var m7 := UnlessAt(m6, QUOTA_DIMENSION, Str("global"), c);
  }

  /** Everything `defaults` does to one column: a set value stays, an unset one becomes its default,
      and an error names the first of four columns that was neither set nor has a default. */
  lemma {:induction false} DefaultedExactly(env: Env, m: Fields, c: Column)
    ensures var (r, err) := Defaulted(env, m);
            && (c in m ==> c in r && r[c] == m[c])
            && (c !in m && c in r ==> DefaultFor(env, c) == Some(r[c]))
            && (err.None? && c !in r ==> Unavailable(env, m, c))
            && (err == Some(c) ==> HasFunctionDefault(c) && Unavailable(env, m, c) && c !in r)
            && (HasFunctionDefault(c) && Unavailable(env, m, c) ==> err.Some? && c !in r && err.value <= c)
  {
    hide FunctionDefaults, PlainDefaults, DefaultFor, HasFunctionDefault;
    FunctionDefaultsExactly(env, m, c);
    PlainDefaultsExactly(env, FunctionDefaults(env, m).0, c);
  }

  // ---------- check ----------

  datatype Invalid = Missing(column: Column) | Rejected(column: Column)

  /** The text a column is set to; a value of another type cannot be set. */
  function TextOf(m: Fields, c: Column): string
    requires c in m
  {
    if m[c].Str? then m[c].text else ""
  }

  /** `account.QuotaDimensionValidator`. */
  predicate QuotaDimensionOk(text: string) {
    text == "global" || text == "spark"
  }

  function Check(env: Env, m: Fields): Option<Invalid> {
    if CREATED_AT !in m then Some(Missing(CREATED_AT))
    else if UPDATED_AT !in m then Some(Missing(UPDATED_AT))
    else if NAME !in m then Some(Missing(NAME))
    else if !env.nameOk(TextOf(m, NAME)) then Some(Rejected(NAME))
    else if PLATFORM !in m then Some(Missing(PLATFORM))
    else if !env.platformOk(TextOf(m, PLATFORM)) then Some(Rejected(PLATFORM))
    else if TYPE !in m then Some(Missing(TYPE))
    else if !env.typeOk(TextOf(m, TYPE)) then Some(Rejected(TYPE))
    else CheckRest(env, m)
  }

  function CheckRest(env: Env, m: Fields): Option<Invalid> {
    if CREDENTIALS !in m then Some(Missing(CREDENTIALS))
    else if EXTRA !in m then Some(Missing(EXTRA))
    else if CONCURRENCY !in m then Some(Missing(CONCURRENCY))
    else if PRIORITY !in m then Some(Missing(PRIORITY))
    else if RATE_MULTIPLIER !in m then Some(Missing(RATE_MULTIPLIER))
    else if STATUS !in m then Some(Missing(STATUS))
    else if !env.statusOk(TextOf(m, STATUS)) then Some(Rejected(STATUS))
    else if AUTO_PAUSE_ON_EXPIRED !in m then Some(Missing(AUTO_PAUSE_ON_EXPIRED))
    else if SCHEDULABLE !in m then Some(Missing(SCHEDULABLE))
    else if SESSION_WINDOW_STATUS in m && !env.windowStatusOk(TextOf(m, SESSION_WINDOW_STATUS))
    then Some(Rejected(SESSION_WINDOW_STATUS))
    else if QUOTA_DIMENSION !in m then Some(Missing(QUOTA_DIMENSION))
    else if !QuotaDimensionOk(TextOf(m, QUOTA_DIMENSION)) then Some(Rejected(QUOTA_DIMENSION))
    else None
  }

  /** The column holds a text that its own validator refuses. */
  predicate IllText(env: Env, m: Fields, c: Column) {
    && c in m
    && (|| (c == NAME && !env.nameOk(TextOf(m, c)))
        || (c == PLATFORM && !env.platformOk(TextOf(m, c)))
        || (c == TYPE && !env.typeOk(TextOf(m, c)))
        || (c == STATUS && !env.statusOk(TextOf(m, c)))
        || (c == SESSION_WINDOW_STATUS && !env.windowStatusOk(TextOf(m, c)))
        || (c == QUOTA_DIMENSION && TextOf(m, c) !in {"global", "spark"}))
  }

  /** What `check` demands: the columns the table declares NOT NULL, and valid texts. */
  predicate Breaks(env: Env, m: Fields, rule: Invalid) {
    match rule
    case Missing(c) => c in NOT_NULL && c != ID && c !in m
    case Rejected(c) => IllText(env, m, c)
  }

  /** Columns are tested in table order, presence before validity. */
  function Place(rule: Invalid): nat {
    match rule
    case Missing(c) => 2 * c
    case Rejected(c) => 2 * c + 1
  }

  /** `check` reports a demand that is not met, and the first one. */
  lemma {:induction false} CheckReportsFirst(env: Env, m: Fields, rule: Invalid)
    ensures Check(env, m).Some? ==> Breaks(env, m, Check(env, m).value)
    ensures Breaks(env, m, rule) ==> Check(env, m).Some? && Place(Check(env, m).value) <= Place(rule)
  {
  }

  /** The columns of a mutation that hold texts hold nothing else. */
  lemma {:induction false} TextColumns(m: Fields, c: Column)
    requires Typed(m) && c in m
    requires c in {NAME, PLATFORM, TYPE, STATUS, SESSION_WINDOW_STATUS, QUOTA_DIMENSION}
    ensures m[c].Str? && TextOf(m, c) == m[c].text
  {
    assert Fits(m[c], KindOf(c));
  }

  /** What it takes to pass: every required column is set, and each text satisfies its own column's
      validator. */
  lemma {:induction false} CheckPassesExactly(env: Env, m: Fields)
    requires Typed(m)
    ensures Check(env, m).None? <==>
            && CREATED_AT in m && UPDATED_AT in m
            && NAME in m && m[NAME].Str? && env.nameOk(m[NAME].text)
            && PLATFORM in m && m[PLATFORM].Str? && env.platformOk(m[PLATFORM].text)
            && TYPE in m && m[TYPE].Str? && env.typeOk(m[TYPE].text)
            && CREDENTIALS in m && EXTRA in m && CONCURRENCY in m && PRIORITY in m && RATE_MULTIPLIER in m
            && STATUS in m && m[STATUS].Str? && env.statusOk(m[STATUS].text)
            && AUTO_PAUSE_ON_EXPIRED in m && SCHEDULABLE in m
            && (SESSION_WINDOW_STATUS in m ==>
                  m[SESSION_WINDOW_STATUS].Str? && env.windowStatusOk(m[SESSION_WINDOW_STATUS].text))
            && QUOTA_DIMENSION in m && m[QUOTA_DIMENSION] in {Str("global"), Str("spark")}
  {
    forall c | c in m && c in {NAME, PLATFORM, TYPE, STATUS, SESSION_WINDOW_STATUS, QUOTA_DIMENSION}
      ensures m[c].Str? && TextOf(m, c) == m[c].text
    {
      TextColumns(m, c);
    }
    hide Typed, TextOf;
  }

  /** The columns that can be rejected are six, each by its own validator, and by no other. */
  lemma {:induction false} RejectedExactly(env: Env, m: Fields, c: Column)
    requires Typed(m) && Check(env, m) == Some(Rejected(c))
    ensures c in m && m[c].Str?
    ensures || (c == NAME && !env.nameOk(m[c].text))
            || (c == PLATFORM && !env.platformOk(m[c].text))
            || (c == TYPE && !env.typeOk(m[c].text))
            || (c == STATUS && !env.statusOk(m[c].text))
            || (c == SESSION_WINDOW_STATUS && !env.windowStatusOk(m[c].text))
            || (c == QUOTA_DIMENSION && m[c].text != "global" && m[c].text != "spark")
  {
    hide Check, KindOf, Typed;
    CheckReportsFirst(env, m, Rejected(c));
    TextColumns(m, c);
  }

  /** Although bulk creation ignores the error of `defaults`, `check` then rejects the builder. */
  lemma {:induction false} FailedDefaultsAreRejected(env: Env, m: Fields)
    requires Defaulted(env, m).1.Some?
    ensures Check(env, Defaulted(env, m).0).Some?
  {
    hide Check, Defaulted, DefaultFor;
    var (r, err) := Defaulted(env, m);
    DefaultedExactly(env, m, err.value);
    CheckReportsFirst(env, r, Missing(err.value));
  }

  // ---------- createSpec ----------

  datatype FieldType = TypeTime | TypeString | TypeInt | TypeInt64 | TypeFloat64 | TypeBool | TypeJSON | TypeEnum

  datatype FieldSpec = FieldSpec(fieldType: FieldType, value: Value)

  /** An insert: typed columns, and the foreign keys contributed by many-to-one edges. */
  datatype Spec = Spec(fields: map<Column, FieldSpec>, keys: map<Column, int>)

  predicate IsEdge(c: Column) {
    c == PROXY_ID || c == PARENT_ACCOUNT_ID
  }

  /** The type a column is written with. */
  function FieldTypeOf(c: Column): FieldType {
    match KindOf(c)
    case TimeKind => TypeTime
    case StringKind => if c == QUOTA_DIMENSION then TypeEnum else TypeString
    case IntKind => if c == CONCURRENCY || c == LOAD_FACTOR || c == PRIORITY then TypeInt else TypeInt64
    case FloatKind => TypeFloat64
    case BoolKind => TypeBool
    case DocumentKind => TypeJSON
  }

  /** The values of the columns before `k` that are plain fields, with their types. */
  function FieldsBelow(m: Fields, k: Column): map<Column, FieldSpec> {
    map c | c in m && c < k && !IsEdge(c) :: FieldSpec(FieldTypeOf(c), m[c])
  }

  function ValuesBelow(m: Fields, k: Column): Fields {
    map c | c in m && c < k && !IsEdge(c) :: m[c]
  }

  /** The insert that says exactly what the mutation says. */
  function SpecOf(m: Fields): Spec {
    Spec(FieldsBelow(m, COLUMNS), map c | c in m && IsEdge(c) && m[c].Int? :: m[c].n)
  }

  /** The two foreign keys go through their edges, and every other column that is set is a field with its
      value; nothing else is written. */
  lemma {:induction false} SpecSays(m: Fields, c: Column)
    requires Typed(m)
    ensures c in SpecOf(m).keys <==> c in m && (c == PROXY_ID || c == PARENT_ACCOUNT_ID)
    ensures c in SpecOf(m).keys ==> m[c] == Int(SpecOf(m).keys[c])
    ensures c in SpecOf(m).fields <==> c in m && c != PROXY_ID && c != PARENT_ACCOUNT_ID
    ensures c in SpecOf(m).fields ==> SpecOf(m).fields[c].value == m[c]
  {
    hide FieldTypeOf;
    if c in m {
      assert Fits(m[c], KindOf(c));
    }
  }

  /** The pair `createSpec` works on. */
  datatype Draft = Draft(node: Fields, fields: map<Column, FieldSpec>)

  /** The plain fields before `k` have been copied to the node and to the specification. */
  ghost predicate Copied(m: Fields, k: Column, d: Draft) {
    d.node == ValuesBelow(m, k) && d.fields == FieldsBelow(m, k)
  }

  ghost predicate WrittenAs(c: Column, t: FieldType) {
    !IsEdge(c) && FieldTypeOf(c) == t
  }

  lemma {:induction false} FirstFieldTypes()
    ensures WrittenAs(CREATED_AT, TypeTime)
    ensures WrittenAs(UPDATED_AT, TypeTime)
    ensures WrittenAs(DELETED_AT, TypeTime)
    ensures WrittenAs(NAME, TypeString)
    ensures WrittenAs(NOTES, TypeString)
    ensures WrittenAs(PLATFORM, TypeString)
    ensures WrittenAs(TYPE, TypeString)
    ensures WrittenAs(CREDENTIALS, TypeJSON)
    ensures WrittenAs(EXTRA, TypeJSON)
    ensures WrittenAs(PROXY_FALLBACK_ORIGIN_ID, TypeInt64)
    ensures WrittenAs(CONCURRENCY, TypeInt)
    ensures WrittenAs(LOAD_FACTOR, TypeInt)
    ensures WrittenAs(PRIORITY, TypeInt)
    ensures WrittenAs(RATE_MULTIPLIER, TypeFloat64)
  {
  }

  lemma {:induction false} LastFieldTypes()
    ensures WrittenAs(STATUS, TypeString)
    ensures WrittenAs(ERROR_MESSAGE, TypeString)
    ensures WrittenAs(LAST_USED_AT, TypeTime)
    ensures WrittenAs(EXPIRES_AT, TypeTime)
    ensures WrittenAs(AUTO_PAUSE_ON_EXPIRED, TypeBool)
    ensures WrittenAs(SCHEDULABLE, TypeBool)
    ensures WrittenAs(RATE_LIMITED_AT, TypeTime)
    ensures WrittenAs(RATE_LIMIT_RESET_AT, TypeTime)
    ensures WrittenAs(OVERLOAD_UNTIL, TypeTime)
    ensures WrittenAs(TEMP_UNSCHEDULABLE_UNTIL, TypeTime)
    ensures WrittenAs(TEMP_UNSCHEDULABLE_REASON, TypeString)
    ensures WrittenAs(SESSION_WINDOW_START, TypeTime)
    ensures WrittenAs(SESSION_WINDOW_END, TypeTime)
    ensures WrittenAs(SESSION_WINDOW_STATUS, TypeString)
    ensures WrittenAs(QUOTA_DIMENSION, TypeEnum)
  {
  }

  lemma {:induction false} SkipEdge(m: Fields, k: Column, d: Draft)
    requires IsEdge(k) && Copied(m, k, d)
    ensures Copied(m, k + 1, d)
  {
    hide FieldTypeOf;
  }

  class Builder {
    const env: Env
    var mutation: Fields

    constructor (env: Env, mutation: Fields)
      ensures this.env == env && this.mutation == mutation
    {
      this.env, this.mutation := env, mutation;
    }

    method Defaults() returns (err: Option<Column>)
      modifies this`mutation
      ensures (mutation, err) == Defaulted(env, old(mutation))
    {
      hide Unless;
      if CREATED_AT !in mutation {
        if env.createdAt.None? {
          return Some(CREATED_AT);
        }
        mutation := mutation[CREATED_AT := Time(env.createdAt.value)];
      }
      if UPDATED_AT !in mutation {
        if env.updatedAt.None? {
          return Some(UPDATED_AT);
        }
        mutation := mutation[UPDATED_AT := Time(env.updatedAt.value)];
      }
      if CREDENTIALS !in mutation {
        if env.credentials.None? {
          return Some(CREDENTIALS);
        }
        mutation := mutation[CREDENTIALS := Document(env.credentials.value)];
      }
      if EXTRA !in mutation {
        if env.extra.None? {
          return Some(EXTRA);
        }
        mutation := mutation[EXTRA := Document(env.extra.value)];
      }
      mutation := Unless(mutation, CONCURRENCY, Int(env.concurrency));
      mutation := Unless(mutation, PRIORITY, Int(env.priority));
      mutation := Unless(mutation, RATE_MULTIPLIER, Float(env.rateMultiplier));
      mutation := Unless(mutation, STATUS, Str(env.status));
      mutation := Unless(mutation, AUTO_PAUSE_ON_EXPIRED, Bool(env.autoPause));
      mutation := Unless(mutation, SCHEDULABLE, Bool(env.schedulable));
      mutation := Unless(mutation, QUOTA_DIMENSION, Str("global"));
      return None;
    }

    /** If the mutation sets the column, the specification and the node get its value. */
    static method SetField(m: Fields, c: Column, t: FieldType, d: Draft) returns (d': Draft)
      requires WrittenAs(c, t) && Copied(m, c, d)
      ensures Copied(m, c + 1, d')
    {
      hide FieldTypeOf;
      d' := d;
      if c in m {
        d' := Draft(d.node[c := m[c]], d.fields[c := FieldSpec(t, m[c])]);
      }
    }

    method CreateSpec() returns (node: Fields, spec: Spec)
      requires Typed(mutation)
      ensures node == mutation && spec == SpecOf(mutation)
    {
      var m, d := mutation, Draft(map[], map[]);
      assert Copied(m, CREATED_AT, d);
      FirstFieldTypes();
      LastFieldTypes();
      hide Copied, WrittenAs;
      d := SetField(m, CREATED_AT, TypeTime, d);
      d := SetField(m, UPDATED_AT, TypeTime, d);
      d := SetField(m, DELETED_AT, TypeTime, d);
      d := SetField(m, NAME, TypeString, d);
      d := SetField(m, NOTES, TypeString, d);
      d := SetField(m, PLATFORM, TypeString, d);
      d := SetField(m, TYPE, TypeString, d);
      d := SetField(m, CREDENTIALS, TypeJSON, d);
      d := SetField(m, EXTRA, TypeJSON, d);
      SkipEdge(m, PROXY_ID, d);
      d := SetField(m, PROXY_FALLBACK_ORIGIN_ID, TypeInt64, d);
      d := SetField(m, CONCURRENCY, TypeInt, d);
      d := SetField(m, LOAD_FACTOR, TypeInt, d);
      d := SetField(m, PRIORITY, TypeInt, d);
      d := SetField(m, RATE_MULTIPLIER, TypeFloat64, d);
      d := SetField(m, STATUS, TypeString, d);
      d := SetField(m, ERROR_MESSAGE, TypeString, d);
      d := SetField(m, LAST_USED_AT, TypeTime, d);
      d := SetField(m, EXPIRES_AT, TypeTime, d);
      d := SetField(m, AUTO_PAUSE_ON_EXPIRED, TypeBool, d);
      d := SetField(m, SCHEDULABLE, TypeBool, d);
      d := SetField(m, RATE_LIMITED_AT, TypeTime, d);
      d := SetField(m, RATE_LIMIT_RESET_AT, TypeTime, d);
      d := SetField(m, OVERLOAD_UNTIL, TypeTime, d);
      d := SetField(m, TEMP_UNSCHEDULABLE_UNTIL, TypeTime, d);
      d := SetField(m, TEMP_UNSCHEDULABLE_REASON, TypeString, d);
      d := SetField(m, SESSION_WINDOW_START, TypeTime, d);
      d := SetField(m, SESSION_WINDOW_END, TypeTime, d);
      d := SetField(m, SESSION_WINDOW_STATUS, TypeString, d);
      SkipEdge(m, PARENT_ACCOUNT_ID, d);
      d := SetField(m, QUOTA_DIMENSION, TypeEnum, d);
      node, spec := AddEdges(m, d);
    }

    /** The many-to-one edges: a foreign key each, in the specification and on the node. */
    static method AddEdges(m: Fields, d: Draft) returns (node: Fields, spec: Spec)
      requires Typed(m) && Copied(m, COLUMNS, d)
      ensures node == m && spec == SpecOf(m)
    {
      hide FieldTypeOf;
      var keys: map<Column, int>;
      node, keys := d.node, map[];
      if PROXY_ID in m {
        keys := keys[PROXY_ID := m[PROXY_ID].n];
        node := node[PROXY_ID := m[PROXY_ID]];
      }
      if PARENT_ACCOUNT_ID in m {
        keys := keys[PARENT_ACCOUNT_ID := m[PARENT_ACCOUNT_ID].n];
        node := node[PARENT_ACCOUNT_ID := m[PARENT_ACCOUNT_ID]];
      }
      spec := Spec(d.fields, keys);
    }
  }
}
