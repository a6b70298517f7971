/** Storing an account and reading it back: what the insert writes, `scanValues` and `assignValues`. */
module AccountCodec {
  import opened Results
  import opened AccountRecord
  import opened AccountCreate

  type Bytes = seq<bv8>

  /** JSON encoding of documents, as the driver and the decoder call it. */
  datatype Codec = Codec(marshal: Doc -> Bytes, unmarshal: Bytes -> Option<Doc>) {
    /** Encoding a document of the mutation gives bytes that decode to it. */
    ghost predicate Inverts(m: Fields) {
      forall c :: c in m && m[c].Document? ==>
        marshal(m[c].doc) != [] && unmarshal(marshal(m[c].doc)) == Some(m[c].doc)
    }
  }

  /** Every mutation has a codec that inverts its documents. */
  lemma {:induction false} SomeCodecInverts(m: Fields) returns (codec: Codec)
    requires Typed(m)
    ensures codec.Inverts(m)
  {
    var first := if CREDENTIALS in m then m[CREDENTIALS].doc else None;
    var second := if EXTRA in m then m[EXTRA].doc else None;
    codec := Codec(d => if d == first then [1] else [2], b => if b == [1] then Some(first) else Some(second));
    forall c | c in m && m[c].Document?
      ensures c == CREDENTIALS || c == EXTRA
    {
      assert Fits(m[c], KindOf(c));
    }
  }

  // ---------- The row an insert writes ----------

  datatype Stored =
    | Null | TimeAt(at: int) | Text(text: string) | Integer(n: int) | Number(x: real) | Truth(b: bool)
    | Blob(bytes: Bytes)

  type Row = map<Column, Stored>

  /** What the driver sends for a field; only JSON fields can hold documents. */
  function Encode(codec: Codec, f: FieldSpec): Option<Stored> {
    match f.value
    case Document(d) => if f.fieldType == TypeJSON then Some(Blob(codec.marshal(d))) else None
    case Time(at) => if f.fieldType == TypeTime then Some(TimeAt(at)) else None
    case Str(text) => if f.fieldType == TypeString || f.fieldType == TypeEnum then Some(Text(text)) else None
    case Int(n) => if f.fieldType == TypeInt || f.fieldType == TypeInt64 then Some(Integer(n)) else None
    case Float(x) => if f.fieldType == TypeFloat64 then Some(Number(x)) else None
    case Bool(b) => if f.fieldType == TypeBool then Some(Truth(b)) else None
  }

  ghost predicate Encodable(codec: Codec, spec: Spec) {
    forall c :: c in spec.fields ==> Encode(codec, spec.fields[c]).Some?
  }

  /** The stored row; a column nobody supplied is NULL, which is absent here. */
  function RowOf(codec: Codec, spec: Spec, id: int): Row {
    (map c | c in spec.fields && Encode(codec, spec.fields[c]).Some? :: Encode(codec, spec.fields[c]).value) +
    (map c | c in spec.keys :: Integer(spec.keys[c])) +
    map[ID := Integer(id)]
  }

  /** The result column a query sees; `extra` stands for expressions that are not columns. */
  function ColumnValue(row: Row, c: Column, extra: Column -> Stored): Stored {
    if c >= COLUMNS then extra(c) else if c in row then row[c] else Null
  }

  // ---------- scanValues and the scan itself ----------

  /** Scan destinations of `database/sql`. */
  datatype Cell =
    | NullTime(time: Option<int>) | NullString(text: Option<string>) | NullInt64(int64: Option<int>)
    | NullFloat64(float64: Option<real>) | NullBool(bit: Option<bool>) | RawBytes(bytes: Bytes)
    | UnknownType(any: Stored)

  /** The destination `scanValues` allocates for a column. */
  function EmptyCell(c: Column): Cell {
    if c == CREDENTIALS || c == EXTRA then RawBytes([])
    else if c == AUTO_PAUSE_ON_EXPIRED || c == SCHEDULABLE then NullBool(None)
    else if c == RATE_MULTIPLIER then NullFloat64(None)
    else if || c == ID || c == PROXY_ID || c == PROXY_FALLBACK_ORIGIN_ID || c == CONCURRENCY || c == LOAD_FACTOR
            || c == PRIORITY || c == PARENT_ACCOUNT_ID
    then NullInt64(None)
    else if || c == NAME || c == NOTES || c == PLATFORM || c == TYPE || c == STATUS || c == ERROR_MESSAGE
            || c == TEMP_UNSCHEDULABLE_REASON || c == SESSION_WINDOW_STATUS || c == QUOTA_DIMENSION
    then NullString(None)
    else if || c == CREATED_AT || c == UPDATED_AT || c == DELETED_AT || c == LAST_USED_AT || c == EXPIRES_AT
            || c == RATE_LIMITED_AT || c == RATE_LIMIT_RESET_AT || c == OVERLOAD_UNTIL
            || c == TEMP_UNSCHEDULABLE_UNTIL || c == SESSION_WINDOW_START || c == SESSION_WINDOW_END
    then NullTime(None)
    else UnknownType(Null)
  }

  /** The destination is of the kind a field of the given kind is assigned from. */
  predicate OfKind(cell: Cell, k: Kind) {
    match k
    case TimeKind => cell.NullTime?
    case StringKind => cell.NullString?
    case IntKind => cell.NullInt64?
    case FloatKind => cell.NullFloat64?
    case BoolKind => cell.NullBool?
    case DocumentKind => cell.RawBytes?
  }

  /** The switch of `scanValues` agrees with the field types, column by column. */
  lemma {:induction false} EmptyCellFits(c: Column)
    ensures if c < COLUMNS then OfKind(EmptyCell(c), KindOf(c)) else EmptyCell(c).UnknownType?
  {
  }

  method ScanValues(columns: seq<Column>) returns (values: seq<Cell>)
    ensures |values| == |columns| && forall i :: 0 <= i < |columns| ==> values[i] == EmptyCell(columns[i])
    ensures forall i :: 0 <= i < |columns| ==>
              if columns[i] < COLUMNS then OfKind(values[i], KindOf(columns[i])) else values[i].UnknownType?
  {
    hide EmptyCell, OfKind, KindOf;
    values := [];
    for i := 0 to |columns|
      invariant |values| == i && forall j :: 0 <= j < i ==> values[j] == EmptyCell(columns[j])
      invariant forall j :: 0 <= j < i ==>
                  if columns[j] < COLUMNS then OfKind(values[j], KindOf(columns[j])) else values[j].UnknownType?
    {
      EmptyCellFits(columns[i]);
      values := values + [EmptyCell(columns[i])];
    }
  }

  /** Scanning a result column into a destination; no implicit conversions. */
  function Scan(dest: Cell, v: Stored): Option<Cell> {
    match dest
    case NullTime(_) => if v.Null? then Some(NullTime(None)) else if v.TimeAt? then Some(NullTime(Some(v.at))) else None
    case NullString(_) =>
      if v.Null? then Some(NullString(None)) else if v.Text? then Some(NullString(Some(v.text))) else None
    case NullInt64(_) =>
      if v.Null? then Some(NullInt64(None)) else if v.Integer? then Some(NullInt64(Some(v.n))) else None
    case NullFloat64(_) =>
      if v.Null? then Some(NullFloat64(None)) else if v.Number? then Some(NullFloat64(Some(v.x))) else None
    case NullBool(_) => if v.Null? then Some(NullBool(None)) else if v.Truth? then Some(NullBool(Some(v.b))) else None
    case RawBytes(_) => if v.Null? then Some(RawBytes([])) else if v.Blob? then Some(RawBytes(v.bytes)) else None
    case UnknownType(_) => Some(UnknownType(v))
  }

  // ---------- assignValues ----------

  datatype AssignError = CountMismatch | UnexpectedType(column: Column) | BadDocument(column: Column)

  /** A decoded node: its fields, and what was selected beyond the table's columns. */
  datatype Decoded = Decoded(fields: Fields, selected: map<Column, Cell>)

  /** `json.Unmarshal` into a map that may already hold members. */
  function Merge(held: Option<Value>, read: Doc): Doc {
    if held.Some? && held.value.Document? && held.value.doc.Some? && read.Some?
    then Some(held.value.doc.value + read.value)
    else read
  }

  function Present<T>(v: Option<T>, f: T -> Value): Option<Value> {
    if v.Some? then Some(f(v.value)) else None
  }

  /** The value one case of the switch gives the column: nothing for NULL, an error for a destination
      of another type. */
  function CellValue(codec: Codec, c: Column, held: Option<Value>, cell: Cell): Result<Option<Value>, AssignError> {
    match KindOf(c)
    case TimeKind => if cell.NullTime? then Success(Present(cell.time, t => Time(t))) else Failure(UnexpectedType(c))
    case StringKind => if cell.NullString? then Success(Present(cell.text, t => Str(t))) else Failure(UnexpectedType(c))
    case IntKind =>
      if !cell.NullInt64? then Failure(UnexpectedType(c))
      else if c == ID then Success(Some(Int(if cell.int64.Some? then cell.int64.value else 0)))
      else Success(Present(cell.int64, n => Int(n)))
    case FloatKind =>
      if cell.NullFloat64? then Success(Present(cell.float64, x => Float(x))) else Failure(UnexpectedType(c))
    case BoolKind => if cell.NullBool? then Success(Present(cell.bit, b => Bool(b))) else Failure(UnexpectedType(c))
    case DocumentKind =>
      if !cell.RawBytes? then Failure(UnexpectedType(c))
      else if cell.bytes == [] then Success(None)
      else
        match codec.unmarshal(cell.bytes)
        case None => Failure(BadDocument(c))
        case Some(d) => Success(Some(Document(Merge(held, d))))
  }

  function Held(fields: Fields, c: Column): Option<Value> {
    if c in fields then Some(fields[c]) else None
  }

  function Put(fields: Fields, c: Column, v: Option<Value>): Fields {
    if v.Some? then fields[c := v.value] else fields
  }

  /** The node after the first `n` columns, or after those before the first error. */
  function Assigned(codec: Codec, start: Decoded, columns: seq<Column>, values: seq<Cell>, n: nat)
    : (Decoded, Option<AssignError>)
    requires n <= |columns| <= |values|
  {
    if n == 0 then (start, None)
    else
      var (d, err) := Assigned(codec, start, columns, values, n - 1);
      var c, v := columns[n - 1], values[n - 1];
      if err.Some? then (d, err)
      else if c >= COLUMNS then (d.(selected := d.selected[c := v]), None)
      else
        match CellValue(codec, c, Held(d.fields, c), v)
        case Failure(e) => (d, Some(e))
        case Success(value) => (d.(fields := Put(d.fields, c, value)), None)
  }

  lemma {:induction false} ErrorStays(codec: Codec, start: Decoded, columns: seq<Column>, values: seq<Cell>, k: nat,
                                      n: nat)
    requires k <= n <= |columns| <= |values| && Assigned(codec, start, columns, values, k).1.Some?
    ensures Assigned(codec, start, columns, values, n) == Assigned(codec, start, columns, values, k)
  {
    hide CellValue;
    if k < n {
      ErrorStays(codec, start, columns, values, k, n - 1);
    }
  }

  /** The destination has the column's type and, for a document, holds readable JSON or nothing. */
  predicate Decodes(codec: Codec, c: Column, cell: Cell) {
    c < COLUMNS ==>
      && OfKind(cell, KindOf(c))
      && (cell.RawBytes? && cell.bytes != [] ==> codec.unmarshal(cell.bytes).Some?)
  }

  /** The error for a destination that does not decode: of another type, or an unreadable document. */
  predicate Blames(e: AssignError, c: Column, cell: Cell) {
    e == if OfKind(cell, KindOf(c)) then BadDocument(c) else UnexpectedType(c)
  }

  ghost predicate FirstBad(codec: Codec, columns: seq<Column>, values: seq<Cell>, j: nat)
    requires j < |columns| <= |values|
  {
    !Decodes(codec, columns[j], values[j]) && forall k :: 0 <= k < j ==> Decodes(codec, columns[k], values[k])
  }

  lemma {:induction false} CellValueDecodes(codec: Codec, c: Column, held: Option<Value>, cell: Cell)
    requires c < COLUMNS
    ensures CellValue(codec, c, held, cell).Success? <==> Decodes(codec, c, cell)
    ensures !Decodes(codec, c, cell) ==> Blames(CellValue(codec, c, held, cell).error, c, cell)
  {
    hide KindOf;
  }

  /** Assignment fails exactly when some column does not decode, and names the first such column. */
  lemma {:induction false} AssignStopsAtFirstBad(codec: Codec, start: Decoded, columns: seq<Column>, values: seq<Cell>,
                                                 n: nat)
    requires n <= |columns| <= |values|
    ensures var err := Assigned(codec, start, columns, values, n).1;
            match err
            case None => forall j :: 0 <= j < n ==> Decodes(codec, columns[j], values[j])
            case Some(e) =>
              exists j | 0 <= j < n :: FirstBad(codec, columns, values, j) && Blames(e, columns[j], values[j])
  {
    hide CellValue, Decodes;
    if n > 0 {
      AssignStopsAtFirstBad(codec, start, columns, values, n - 1);
      var (d, err) := Assigned(codec, start, columns, values, n - 1);
      if columns[n - 1] < COLUMNS {
        CellValueDecodes(codec, columns[n - 1], Held(d.fields, columns[n - 1]), values[n - 1]);
      } else {
        OtherDecodes(codec, columns[n - 1], values[n - 1]);
      }
      if err.None? && !Decodes(codec, columns[n - 1], values[n - 1]) {
        assert FirstBad(codec, columns, values, n - 1);
      }
    }
  }

  /** What a destination that decodes makes of the column: NULL leaves it alone, except that the id becomes
      zero; a document is merged into one read before. */
  lemma {:induction false} CellSets(codec: Codec, c: Column, held: Option<Value>, cell: Cell)
    requires c < COLUMNS && Decodes(codec, c, cell)
    ensures CellValue(codec, c, held, cell).Success?
    ensures var value := CellValue(codec, c, held, cell).value;
            match cell
            case NullTime(t) => value == if t.Some? then Some(Time(t.value)) else None
            case NullString(t) => value == if t.Some? then Some(Str(t.value)) else None
            case NullInt64(n) => value == if n.Some? then Some(Int(n.value)) else if c == ID then Some(Int(0)) else None
            case NullFloat64(x) => value == if x.Some? then Some(Float(x.value)) else None
            case NullBool(b) => value == if b.Some? then Some(Bool(b.value)) else None
            case RawBytes(bytes) =>
              if bytes == [] then value == None
              else value.Some? && value.value.Document? && Merged(held, codec.unmarshal(bytes).value, value.value.doc)
            case UnknownType(_) => false
  {
    hide KindOf;
  }

  /** Unmarshalling `read` over `held` gives `doc`: null gives nil, otherwise the members read win and the
      others stay. */
  ghost predicate Merged(held: Option<Value>, read: Doc, doc: Doc) {
    if read.None? then doc == None
    else
      && doc.Some?
      && (forall k :: k in read.value ==> k in doc.value && doc.value[k] == read.value[k])
      && forall k :: k !in read.value ==>
           if held.Some? && held.value.Document? && held.value.doc.Some? && k in held.value.doc.value
           then k in doc.value && doc.value[k] == held.value.doc.value[k]
           else k !in doc.value
  }

  /** The position of the last of the first `n` columns that is `c`. */
  ghost predicate LastAt(columns: seq<Column>, n: nat, c: Column, i: nat) {
    i < n <= |columns| && columns[i] == c && forall j :: i < j < n ==> columns[j] != c
  }

  /** Where assignment stops without an error: a name the table does not have is selected with the last
      destination it has, and columns that are not listed keep what they had. */
  lemma {:induction false} AssignSelects(codec: Codec, start: Decoded, columns: seq<Column>, values: seq<Cell>, n: nat,
                                         c: Column)
    requires n <= |columns| <= |values| && Assigned(codec, start, columns, values, n).1.None?
    ensures var d := Assigned(codec, start, columns, values, n).0;
            && (forall i: nat :: LastAt(columns, n, c, i) && c >= COLUMNS ==>
                  c in d.selected && d.selected[c] == values[i])
            && (c < COLUMNS || c !in columns[..n] ==>
                  (c in d.selected <==> c in start.selected) &&
                  (c in d.selected ==> d.selected[c] == start.selected[c]))
            && (c >= COLUMNS || c !in columns[..n] ==>
                  (c in d.fields <==> c in start.fields) && (c in d.fields ==> d.fields[c] == start.fields[c]))
  {
    hide CellValue;
    if n > 0 {
      AssignSelects(codec, start, columns, values, n - 1, c);
      assert columns[..n] == columns[..n - 1] + [columns[n - 1]];
      assert forall i: nat :: LastAt(columns, n, c, i) && i < n - 1 ==> LastAt(columns, n - 1, c, i);
    }
  }

  lemma {:induction false} OtherDecodes(codec: Codec, c: Column, cell: Cell)
    requires c >= COLUMNS
    ensures Decodes(codec, c, cell)
  {
  }

  class Node {
    var fields: Fields
    var selected: map<Column, Cell>

    constructor ()
      ensures fields == map[] && selected == map[]
    {
      fields, selected := map[], map[];
    }

    method AssignValues(codec: Codec, columns: seq<Column>, values: seq<Cell>) returns (err: Option<AssignError>)
      modifies this
      ensures |values| < |columns| ==>
                err == Some(CountMismatch) && fields == old(fields) && selected == old(selected)
      ensures |values| >= |columns| ==>
                (Decoded(fields, selected), err) ==
                Assigned(codec, old(Decoded(fields, selected)), columns, values, |columns|)
    {
      if |values| < |columns| {
        return Some(CountMismatch);
      }
      hide CellValue;
      ghost var start := Decoded(fields, selected);
      for i := 0 to |columns|
        invariant (Decoded(fields, selected), None) == Assigned(codec, start, columns, values, i)
      {
        var c := columns[i];
        if c >= COLUMNS {
          selected := selected[c := values[i]];
        } else {
          var value := CellValue(codec, c, Held(fields, c), values[i]);
          if value.Failure? {
            assert Assigned(codec, start, columns, values, i + 1).1 == Some(value.error);
            ErrorStays(codec, start, columns, values, i + 1, |columns|);
            return Some(value.error);
          }
          fields := Put(fields, c, value.value);
        }
      }
      return None;
    }
  }

  // ---------- Decoding undoes encoding ----------

  /** The node a successful create returns: what the mutation set, plus the id from the database. */
  function Saved(m: Fields, id: int): Fields {
    m[ID := Int(id)]
  }

  /** The columns of the node that are among the first `n` selected. */
  function Selected(node: Fields, columns: seq<Column>, n: nat): Fields
    requires n <= |columns|
  {
    map c | c in node && c in columns[..n] :: node[c]
  }

  /** Every field of a create is written with a type that can hold its value. */
  lemma {:induction false} FieldsEncode(codec: Codec, m: Fields)
    requires Typed(m)
    ensures Encodable(codec, SpecOf(m))
  {
    hide KindOf;
    forall c | c in SpecOf(m).fields
      ensures Encode(codec, SpecOf(m).fields[c]).Some?
    {
      assert Fits(m[c], KindOf(c));
    }
  }

  /** What a column of the stored row holds. */
  lemma {:induction false} StoredColumn(codec: Codec, m: Fields, id: int, c: Column, extra: Column -> Stored)
    requires Typed(m) && c < COLUMNS
    ensures ColumnValue(RowOf(codec, SpecOf(m), id), c, extra) ==
            if c == ID then Integer(id)
            else if c !in m then Null
            else if IsEdge(c) then Integer(m[c].n)
            else Encode(codec, FieldSpec(FieldTypeOf(c), m[c])).value
  {
    hide Encode, FieldTypeOf;
    FieldsEncode(codec, m);
    assert c in m && IsEdge(c) ==> m[c].Int?;
    assert ID !in m;
  }

  /** The row of a create that passed `check` has a value in every column declared NOT NULL. */
  lemma {:induction false} CheckedRowIsComplete(env: Env, codec: Codec, m: Fields, id: int, c: Column)
    requires Typed(m) && Check(env, m).None? && c in NOT_NULL
    ensures c in RowOf(codec, SpecOf(m), id)
  {
    hide Check, KindOf, Encode, FieldTypeOf;
    FieldsEncode(codec, m);
    CheckReportsFirst(env, m, Missing(c));
  }

  lemma {:induction false} MergeSame(d: Doc)
    ensures Merge(Some(Document(d)), d) == d
  {
    if d.Some? {
      assert d.value + d.value == d.value;
    }
  }

  /** One column: the destination accepts what was stored, and assigning it gives back the value, also
      over a first copy of the same column. */
  lemma {:induction false} ColumnRoundTrip(codec: Codec, m: Fields, id: int, c: Column, extra: Column -> Stored,
                                           held: Option<Value>)
    requires codec.Inverts(m) && Typed(m) && c < COLUMNS
    requires held == None || held == Held(Saved(m, id), c)
    ensures var cell := Scan(EmptyCell(c), ColumnValue(RowOf(codec, SpecOf(m), id), c, extra));
            && cell.Some?
            && CellValue(codec, c, held, cell.value) == Success(Held(Saved(m, id), c))
  {
    hide RowOf, SpecOf, ColumnValue;
    StoredColumn(codec, m, id, c, extra);
    if c in m && m[c].Document? {
      MergeSame(m[c].doc);
    }
  }

  /** `cells` are the destinations `scanValues` allocates, after scanning the stored row. */
  ghost predicate Scanned(codec: Codec, m: Fields, id: int, columns: seq<Column>, extra: Column -> Stored,
                          cells: seq<Cell>)
  {
    && |cells| == |columns|
    && forall i :: 0 <= i < |columns| ==>
         Scan(EmptyCell(columns[i]), ColumnValue(RowOf(codec, SpecOf(m), id), columns[i], extra)) == Some(cells[i])
  }

  /** Decoding undoes encoding: for any list of columns, in any order and with any repeats or additional
      expressions, scanning and assigning the row of a create raises no error and gives the saved
      node's fields for the selected columns. */
  lemma {:induction false} DecodeUndoesEncode(codec: Codec, m: Fields, id: int, columns: seq<Column>,
                                              extra: Column -> Stored, cells: seq<Cell>, n: nat)
    requires codec.Inverts(m) && Typed(m) && n <= |columns|
    requires Scanned(codec, m, id, columns, extra, cells)
    ensures var (d, err) := Assigned(codec, Decoded(map[], map[]), columns, cells, n);
            err.None? && d.fields == Selected(Saved(m, id), columns, n)
  {
    hide CellValue, Scan, EmptyCell, ColumnValue, RowOf, SpecOf;
    if n > 0 {
      DecodeUndoesEncode(codec, m, id, columns, extra, cells, n - 1);
      var d := Assigned(codec, Decoded(map[], map[]), columns, cells, n - 1).0;
      var c := columns[n - 1];
      assert columns[..n] == columns[..n - 1] + [c];
      if c < COLUMNS {
        ColumnRoundTrip(codec, m, id, c, extra, Held(d.fields, c));
      } else {
        assert c !in Saved(m, id);
      }
    }
  }

  /** What a query selects beyond the columns is kept as the database sent it. */
  lemma {:induction false} ExtraIsSelected(codec: Codec, m: Fields, id: int, columns: seq<Column>,
                                           extra: Column -> Stored, cells: seq<Cell>, c: Column)
    requires codec.Inverts(m) && Typed(m) && Scanned(codec, m, id, columns, extra, cells)
    requires c >= COLUMNS && c in columns
    ensures var d := Assigned(codec, Decoded(map[], map[]), columns, cells, |columns|).0;
            c in d.selected && d.selected[c] == UnknownType(extra(c))
  {
    hide RowOf, SpecOf, Assigned, Codec.Inverts, Typed;
    DecodeUndoesEncode(codec, m, id, columns, extra, cells, |columns|);
    var i := LastOf(columns, |columns|, c);
    AssignSelects(codec, Decoded(map[], map[]), columns, cells, |columns|, c);
    assert Scan(EmptyCell(columns[i]), ColumnValue(RowOf(codec, SpecOf(m), id), columns[i], extra)) == Some(cells[i]);
  }

  lemma {:induction false} LastOf(columns: seq<Column>, n: nat, c: Column) returns (i: nat)
    requires n <= |columns| && c in columns[..n]
    ensures LastAt(columns, n, c, i)
  {
    if columns[n - 1] == c {
      i := n - 1;
    } else {
      assert columns[..n] == columns[..n - 1] + [columns[n - 1]];
      i := LastOf(columns, n - 1, c);
    }
  }

  /** Selecting every column gives back the node the create returned, id included. */
  lemma {:induction false} WholeRowRebuildsNode(codec: Codec, m: Fields, id: int, columns: seq<Column>,
                                                extra: Column -> Stored, cells: seq<Cell>)
    requires codec.Inverts(m) && Typed(m) && Scanned(codec, m, id, columns, extra, cells)
    requires forall c: Column :: c < COLUMNS ==> c in columns
    ensures Assigned(codec, Decoded(map[], map[]), columns, cells, |columns|).0.fields == Saved(m, id)
  {
    hide Assigned, Scanned;
    DecodeUndoesEncode(codec, m, id, columns, extra, cells, |columns|);
    assert columns[..|columns|] == columns;
    assert forall c :: c in Saved(m, id) ==> c < COLUMNS;
  }

  /** Every destination accepts what its column holds. */
  lemma {:induction false} ColumnScans(codec: Codec, m: Fields, id: int, c: Column, extra: Column -> Stored)
    requires codec.Inverts(m) && Typed(m)
    ensures Scan(EmptyCell(c), ColumnValue(RowOf(codec, SpecOf(m), id), c, extra)).Some?
  {
    hide RowOf, SpecOf, ColumnValue;
    if c < COLUMNS {
      ColumnRoundTrip(codec, m, id, c, extra, None);
    }
  }

  /** Reading one row of a result: allocate, scan, assign. For the row of a create this never fails. */
  method ReadBack(codec: Codec, spec: Spec, id: int, columns: seq<Column>, extra: Column -> Stored, ghost m: Fields)
    returns (node: Node, err: Option<AssignError>)
    requires codec.Inverts(m) && Typed(m) && spec == SpecOf(m)
    ensures fresh(node) && err.None? && node.fields == Selected(Saved(m, id), columns, |columns|)
  {
    hide RowOf, EmptyCell, Scan, ColumnValue, SpecOf, Assigned, Selected, Typed, Codec.Inverts;
    var cells := ScanValues(columns);
    for i := 0 to |columns|
      invariant |cells| == |columns|
      invariant forall j :: i <= j < |columns| ==> cells[j] == EmptyCell(columns[j])
      invariant forall j :: 0 <= j < i ==>
                  Scan(EmptyCell(columns[j]), ColumnValue(RowOf(codec, spec, id), columns[j], extra)) == Some(cells[j])
    {
      ColumnScans(codec, m, id, columns[i], extra);
      var cell := Scan(cells[i], ColumnValue(RowOf(codec, spec, id), columns[i], extra));
      cells := cells[i := cell.value];
    }
    node := new Node();
    err := node.AssignValues(codec, columns, cells);
    DecodeUndoesEncode(codec, m, id, columns, extra, cells, |columns|);
  }
}
