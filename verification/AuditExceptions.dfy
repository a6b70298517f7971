/** The exception list: a line-oriented reader for a small YAML subset. */
module AuditExceptions {
  import opened Results
  import opened Selections
  import opened AuditText

  /** One parsed exception: a Python dict from key to value. */
  type Record = map<string, string>

  /** Raised by `line.split(":", 1)` when the line holds no colon. */
  datatype ParseError = NoColon(line: string)

  function Unquote(v: string): string {
    if v != "" && ((v[0] == '"' && v[|v| - 1] == '"') || (v[0] == '\'' && v[|v| - 1] == '\'')) then
      if |v| < 2 then "" else v[1..|v| - 1]
    else
      v
  }

  /** Splits "key: value" at the first colon. */
  function SplitKv(line: string): (r: Result<(string, string), ParseError>)
    ensures r.Success? <==> ':' in line
  {
    var i := IndexOf(line, ':');
    if i == |line| then Failure(NoColon(line))
    else Success((Strip(line[..i]), Unquote(Strip(line[i + 1..]))))
  }

  /** Blank lines, comments and the two top-level keys are passed over. */
  predicate Skipped(line: string) {
    line == "" || line[0] == '#' || StartsWith(line, "version:") || StartsWith(line, "exceptions:")
  }

  type Entry = (string, string)

  /** What one line is to the reader. */
  datatype Token =
    | Ignore
    | Open                                     // "- " with nothing behind it
    | Item(first: Result<Entry, ParseError>)   // "- key: value"
    | Field(entry: Entry)                      // "key: value"

  function Classify(raw: string): Token {
    var line := Strip(raw);
    if Skipped(line) then Ignore
    else if StartsWith(line, "- ") then
      var rest := Strip(line[2..]);
      if rest == "" then Open else Item(SplitKv(rest))
    else if ':' in line then Field(SplitKv(line).value)
    else Ignore
  }

  function Tokens(lines: seq<string>): seq<Token> {
    if lines == [] then [] else [Classify(lines[0])] + Tokens(lines[1..])
  }

  /** The reader's two variables: finished records, and the one being filled. */
  datatype Reader = Reader(exceptions: seq<Record>, current: Option<Record>) {
    /** An absent or empty current record is dropped. */
    function Flush(): seq<Record> {
      if current.Some? && current.value != map[] then exceptions + [current.value] else exceptions
    }

    function Feed(t: Token): Result<Reader, ParseError> {
      match t
      case Ignore => Success(this)
      case Open => Success(Reader(Flush(), Some(map[])))
      case Item(first) =>
        var kv :- first;
        Success(Reader(Flush(), Some(map[kv.0 := kv.1])))
      case Field(kv) =>
        Success(if current.Some? then this.(current := Some(current.value[kv.0 := kv.1])) else this)
    }
  }

  const START := Reader([], None)

  function Read(r: Reader, tokens: seq<Token>): Result<seq<Record>, ParseError>
    decreases |tokens|
  {
    if tokens == [] then Success(r.Flush())
    else
      var next :- r.Feed(tokens[0]);
      Read(next, tokens[1..])
  }

  /** The records of a file, or the error its first bad line raises. */
  function Parse(text: string): Result<seq<Record>, ParseError> {
    Read(START, Tokens(Lines(text)))
  }

  /** The reader as a loop over the lines of the file. */
  method ParseExceptions(text: string) returns (res: Result<seq<Record>, ParseError>)
    ensures res == Parse(text)
  {
    var lines := Lines(text);
    var exceptions: seq<Record> := [];
    var current: Option<Record> := None;
    for n := 0 to |lines|
      invariant Read(Reader(exceptions, current), Tokens(lines[n..])) == Parse(text)
    {
      assert lines[n..][1..] == lines[n + 1..];
      var line := Strip(lines[n]);
      if Skipped(line) {
        continue;
      }
      if StartsWith(line, "- ") {
        if current.Some? && current.value != map[] {
          exceptions := exceptions + [current.value];
        }
        current := Some(map[]);
        line := Strip(line[2..]);
        if line != "" {
          var kv :- SplitKv(line);
          current := Some(map[kv.0 := kv.1]);
        }
        continue;
      }
      if current.Some? && ':' in line {
        var kv := SplitKv(line).value;
        current := Some(current.value[kv.0 := kv.1]);
      }
    }
    if current.Some? && current.value != map[] {
      exceptions := exceptions + [current.value];
    }
    return Success(exceptions);
  }

  // ---------- How many records a file yields, and when it is rejected ----------

  /** A stripped line that opens a record. */
  predicate IsItem(line: string) {
    !Skipped(line) && StartsWith(line, "- ")
  }

  function ItemCount(lines: seq<string>): nat {
    if lines == [] then 0 else (if IsItem(Strip(lines[0])) then 1 else 0) + ItemCount(lines[1..])
  }

  predicate BadItem(raw: string) {
    IsItem(Strip(raw)) && ':' !in Strip(raw)
  }

  predicate HasBadItem(lines: seq<string>) {
    exists i :: 0 <= i < |lines| && BadItem(lines[i])
  }

  /** "- " always has a body, because the line was stripped; the body has a colon exactly when the
      line has one. */
  lemma {:induction false} ItemBody(line: string)
    requires Trimmed(line) && StartsWith(line, "- ")
    ensures Strip(line[2..]) != "" && (':' in Strip(line[2..]) <==> ':' in line)
  {
    var rest := line[2..];
    assert line == "- " + rest && line[1] == ' ';
    assert rest != "" && rest[|rest| - 1] == line[|line| - 1];
    StripKeepsVisible(rest, |rest| - 1);
    StripKeepsColon(rest);
  }

  lemma {:induction false} StripKeepsColon(s: string)
    ensures ':' in Strip(s) <==> ':' in s
  {
    hide Strip;
    var left, right := StripParts(s);
    if ':' in s {
      var i :| 0 <= i < |s| && s[i] == ':';
      StripKeepsVisible(s, i);
    }
  }

  lemma {:induction false} ClassifyItem(raw: string)
    ensures !Classify(raw).Open?
    ensures Classify(raw).Item? <==> IsItem(Strip(raw))
    ensures Classify(raw).Item? ==> (Classify(raw).first.Failure? <==> BadItem(raw))
  {
    hide Strip, SplitKv, Trimmed;
    if IsItem(Strip(raw)) {
      ItemBody(Strip(raw));
    }
  }

  predicate Tidy(r: Reader) {
    r.current.Some? ==> r.current.value != map[]
  }

  lemma FeedCounts(r: Reader, t: Token)
    requires Tidy(r) && !t.Open?
    ensures r.Feed(t).Failure? <==> t.Item? && t.first.Failure?
    ensures r.Feed(t).Success? ==>
              var next := r.Feed(t).value;
              Tidy(next) && |next.Flush()| == |r.Flush()| + if t.Item? then 1 else 0
  {
    if t.Field? && r.current.Some? {
      assert t.entry.0 in r.current.value[t.entry.0 := t.entry.1];
    } else if t.Item? && t.first.Success? {
      assert t.first.value.0 in map[t.first.value.0 := t.first.value.1];
    }
  }

  predicate BadToken(t: Token) {
    t.Item? && t.first.Failure?
  }

  function ItemTokens(ts: seq<Token>): nat {
    if ts == [] then 0 else (if ts[0].Item? then 1 else 0) + ItemTokens(ts[1..])
  }

  lemma {:induction false} ReadCounts(r: Reader, ts: seq<Token>)
    requires Tidy(r) && Open !in ts
    ensures Read(r, ts).Failure? <==> exists i :: 0 <= i < |ts| && BadToken(ts[i])
    ensures Read(r, ts).Success? ==> |Read(r, ts).value| == |r.Flush()| + ItemTokens(ts)
    decreases |ts|
  {
    if ts != [] {
      var rest := ts[1..];
      FeedCounts(r, ts[0]);
      assert forall i :: 0 < i < |ts| ==> ts[i] == rest[i - 1];
      assert (exists i :: 0 <= i < |ts| && BadToken(ts[i])) <==>
             BadToken(ts[0]) || exists i :: 0 <= i < |rest| && BadToken(rest[i]);
      if r.Feed(ts[0]).Success? {
        ReadCounts(r.Feed(ts[0]).value, rest);
      }
    }
  }

  lemma {:induction false} TokensAt(lines: seq<string>)
    ensures |Tokens(lines)| == |lines|
    ensures forall i :: 0 <= i < |lines| ==> Tokens(lines)[i] == Classify(lines[i])
  {
    if lines != [] {
      TokensAt(lines[1..]);
    }
  }

  lemma {:induction false} ItemTokensAreItemLines(lines: seq<string>)
    ensures ItemTokens(Tokens(lines)) == ItemCount(lines)
  {
    if lines != [] {
      ClassifyItem(lines[0]);
      assert Tokens(lines)[1..] == Tokens(lines[1..]);
      ItemTokensAreItemLines(lines[1..]);
    }
  }

  lemma LinesCount(lines: seq<string>, ts: seq<Token>)
    requires ts == Tokens(lines)
    ensures Read(START, ts).Failure? <==> HasBadItem(lines)
    ensures Read(START, ts).Success? ==> |Read(START, ts).value| == ItemCount(lines)
  {
    TokensAt(lines);
    forall i | 0 <= i < |lines|
      ensures !ts[i].Open? && (BadToken(ts[i]) <==> BadItem(lines[i]))
    {
      ClassifyItem(lines[i]);
    }
    ReadCounts(START, ts);
    ItemTokensAreItemLines(lines);
    if i :| 0 <= i < |lines| && BadItem(lines[i]) {
      assert BadToken(ts[i]);
    }
  }

  /** Reading fails exactly when some item line has no colon; otherwise there is one record for each
      item line. */
  lemma ParseCountsItems(text: string)
    ensures Parse(text).Failure? <==> HasBadItem(Lines(text))
    ensures Parse(text).Success? ==> |Parse(text).value| == ItemCount(Lines(text))
  {
    LinesCount(Lines(text), Tokens(Lines(text)));
  }
}
