/** The account entity: its columns, the values they hold, and what the builders start from. */
module AccountRecord {
  import opened Results

  /** A column, by its position in the entity's column list; `COLUMNS` and up stand for names the table
      does not have. */
  type Column = nat

  const ID: Column := 0
  const CREATED_AT: Column := 1
  const UPDATED_AT: Column := 2
  const DELETED_AT: Column := 3
  const NAME: Column := 4
  const NOTES: Column := 5
  const PLATFORM: Column := 6
  const TYPE: Column := 7
  const CREDENTIALS: Column := 8
  const EXTRA: Column := 9
  const PROXY_ID: Column := 10
  const PROXY_FALLBACK_ORIGIN_ID: Column := 11
  const CONCURRENCY: Column := 12
  const LOAD_FACTOR: Column := 13
  const PRIORITY: Column := 14
  const RATE_MULTIPLIER: Column := 15
  const STATUS: Column := 16
  const ERROR_MESSAGE: Column := 17
  const LAST_USED_AT: Column := 18
  const EXPIRES_AT: Column := 19
  const AUTO_PAUSE_ON_EXPIRED: Column := 20
  const SCHEDULABLE: Column := 21
  const RATE_LIMITED_AT: Column := 22
  const RATE_LIMIT_RESET_AT: Column := 23
  const OVERLOAD_UNTIL: Column := 24
  const TEMP_UNSCHEDULABLE_UNTIL: Column := 25
  const TEMP_UNSCHEDULABLE_REASON: Column := 26
  const SESSION_WINDOW_START: Column := 27
  const SESSION_WINDOW_END: Column := 28
  const SESSION_WINDOW_STATUS: Column := 29
  const PARENT_ACCOUNT_ID: Column := 30
  const QUOTA_DIMENSION: Column := 31
  const COLUMNS: nat := 32

  /** A JSON value; a number is `digits` times ten to the `exponent`. */
  datatype Json =
    | JNull | JBool(b: bool) | JNumber(digits: int, exponent: int) | JString(s: string) | JArray(items: seq<Json>)
    | JObject(members: map<string, Json>)

  /** A Go `map[string]interface{}`, which may be nil. */
  type Doc = Option<map<string, Json>>

  datatype Value =
    | Time(at: int) | Str(text: string) | Int(n: int) | Float(x: real) | Bool(b: bool) | Document(doc: Doc)

  /** Values by column. In a mutation an absent column was never set; in a node it is a nil pointer or
      Go's zero value. */
  type Fields = map<Column, Value>

  datatype Kind = TimeKind | StringKind | IntKind | FloatKind | BoolKind | DocumentKind

  /** The Go type of the struct field, pointers aside. */
  function KindOf(c: Column): Kind {
    if || c == CREATED_AT || c == UPDATED_AT || c == DELETED_AT || c == LAST_USED_AT || c == EXPIRES_AT
       || c == RATE_LIMITED_AT || c == RATE_LIMIT_RESET_AT || c == OVERLOAD_UNTIL || c == TEMP_UNSCHEDULABLE_UNTIL
       || c == SESSION_WINDOW_START || c == SESSION_WINDOW_END
    then TimeKind
    else if || c == ID || c == PROXY_ID || c == PROXY_FALLBACK_ORIGIN_ID || c == CONCURRENCY || c == LOAD_FACTOR
            || c == PRIORITY || c == PARENT_ACCOUNT_ID
    then IntKind
    else if c == RATE_MULTIPLIER then FloatKind
    else if c == AUTO_PAUSE_ON_EXPIRED || c == SCHEDULABLE then BoolKind
    else if c == CREDENTIALS || c == EXTRA then DocumentKind
    else StringKind
  }

  predicate Fits(v: Value, k: Kind) {
    match k
    case TimeKind => v.Time?
    case StringKind => v.Str?
    case IntKind => v.Int?
    case FloatKind => v.Float?
    case BoolKind => v.Bool?
    case DocumentKind => v.Document?
  }

  /** The columns the table declares without NULL. */
  const NOT_NULL: set<Column> := {
    ID, CREATED_AT, UPDATED_AT, NAME, PLATFORM, TYPE, CREDENTIALS, EXTRA, CONCURRENCY, PRIORITY, RATE_MULTIPLIER,
    STATUS, AUTO_PAUSE_ON_EXPIRED, SCHEDULABLE, QUOTA_DIMENSION}

  /** What Go's types allow a mutation to hold: the id is not settable and every value has its
      column's type. */
  ghost predicate Typed(m: Fields) {
    forall c :: c in m ==> ID < c < COLUMNS && Fits(m[c], KindOf(c))
  }

  /** Package-level defaults and validators. The four function-valued defaults are nil until the
      runtime package is imported. */
  datatype Env = Env(
    createdAt: Option<int>, updatedAt: Option<int>, credentials: Option<Doc>, extra: Option<Doc>,
    concurrency: int, priority: int, rateMultiplier: real, status: string, autoPause: bool, schedulable: bool,
    nameOk: string -> bool, platformOk: string -> bool, typeOk: string -> bool, statusOk: string -> bool,
    windowStatusOk: string -> bool)
}
