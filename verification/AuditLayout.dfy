/** Writing an exceptions file in any layout the reader understands, and reading it back. */
module AuditLayout {
  import opened Results
  import opened Selections
  import opened AuditText
  import opened AuditExceptions

  // ---------- Layouts ----------

  /** How a value is written. */
  datatype Style = Bare | Single | Double

  function Styled(style: Style, value: string): string {
    match style
    case Bare => value
    case Single => "'" + value + "'"
    case Double => "\"" + value + "\""
  }

  /** Between two quotes of a kind, which a bare value must not be; one quote is its own partner. */
  predicate Quoted(value: string) {
    value != "" && value[0] == value[|value| - 1] && (value[0] == '"' || value[0] == '\'')
  }

  /** White space within a line. */
  predicate Pad(s: string) {
    AllSpace(s) && OneLine(s)
  }

  /** A key and its value, with the white space around the line, around the key and before the value. */
  datatype Pair = Pair(key: string, value: string, style: Style, left: string, before: string, after: string,
                       right: string) {
    function Stem(): string {
      key + before
    }

    function Body(): string {
      Stem() + ([':'] + (after + Styled(style, value)))
    }

    /** Any white space, any one-line value in quotes, any stripped one that is not quoted; the key has no
        colon, and the line is none of those that are passed over. */
    predicate Plain() {
      && Pad(left) && Pad(before) && Pad(after) && Pad(right) && OneLine(key) && OneLine(value)
      && Trimmed(key) && ':' !in key && key[0] != '#'
      && !StartsWith(Stem(), "- ") && Stem() != "version" && Stem() != "exceptions"
      && (style == Bare ==> !Quoted(value) && if value == "" then after == "" else Trimmed(value))
    }
  }

  /** A line inside a record: one that means nothing, or a pair. */
  datatype Line = Comment(text: string) | Setting(pair: Pair)

  /** Blank, a comment, one of the two top-level keys, or no colon and no item. */
  predicate Meaningless(text: string) {
    var line := Strip(text);
    OneLine(text) &&
    (|| line == "" || line[0] == '#' || StartsWith(line, "version:") || StartsWith(line, "exceptions:")
     || (':' !in line && !StartsWith(line, "- ")))
  }

  predicate PlainLine(l: Line) {
    match l
    case Comment(text) => Meaningless(text)
    case Setting(pair) => pair.Plain()
  }

  predicate PlainLines(ls: seq<Line>) {
    forall l :: l in ls ==> PlainLine(l)
  }

  /** A record: an item line, with white space behind its dash, and the lines after it. */
  datatype Block = Block(dash: string, first: Pair, rest: seq<Line>) {
    predicate Plain() {
      Pad(dash) && first.Plain() && PlainLines(rest)
    }
  }

  predicate PlainBlocks(bs: seq<Block>) {
    forall b :: b in bs ==> b.Plain()
  }

  /** Lines before the first record: anything but an item. */
  predicate Prelude(lines: seq<string>) {
    forall l :: l in lines ==> OneLine(l) && !StartsWith(Strip(l), "- ")
  }

  function LineText(l: Line): string {
    match l
    case Comment(text) => text
    case Setting(pair) => pair.left + pair.Body() + pair.right
  }

  function ItemText(b: Block): string {
    b.first.left + ("- " + (b.dash + b.first.Body())) + b.first.right
  }

  function LineTexts(ls: seq<Line>): seq<string> {
    if ls == [] then [] else [LineText(ls[0])] + LineTexts(ls[1..])
  }

  function BlockTexts(bs: seq<Block>): seq<string> {
    if bs == [] then [] else [ItemText(bs[0])] + LineTexts(bs[0].rest) + BlockTexts(bs[1..])
  }

  /** The dict of a record: a repeated key overwrites. */
  function DictFrom(d: Record, ls: seq<Line>): (r: Record)
    ensures d.Keys <= r.Keys
    decreases |ls|
  {
    if ls == [] then d
    else if ls[0].Setting? then DictFrom(d[ls[0].pair.key := ls[0].pair.value], ls[1..])
    else DictFrom(d, ls[1..])
  }

  function Dict(b: Block): Record {
    DictFrom(map[b.first.key := b.first.value], b.rest)
  }

  function Dicts(bs: seq<Block>): seq<Record> {
    if bs == [] then [] else [Dict(bs[0])] + Dicts(bs[1..])
  }

  // ---------- One line ----------

  lemma {:induction false} UnquoteStyled(style: Style, value: string)
    requires style == Bare ==> !Quoted(value)
    ensures Unquote(Styled(style, value)) == value
  {
    var text := Styled(style, value);
    if style != Bare {
      assert text[0] == text[|text| - 1] && text[1..|text| - 1] == value;
    }
  }

  lemma {:induction false} StyledTrimmed(style: Style, value: string)
    requires style == Bare ==> value == "" || Trimmed(value)
    ensures Styled(style, value) == "" || Trimmed(Styled(style, value))
  {
  }

  /** Splitting at the colon behind a stem that holds none. */
  lemma {:induction false} SplitAtColon(key: string, before: string, after: string, text: string)
    requires ':' !in key && Trimmed(key) && AllSpace(before) && AllSpace(after) && (text == "" || Trimmed(text))
    ensures SplitKv(key + before + ([':'] + (after + text))) == Success((key, Unquote(text)))
  {
    hide Unquote, Strip;
    var stem, tail := key + before, after + text;
    var line := stem + ([':'] + tail);
    assert line == stem + [':'] + tail;
    assert ':' !in before by {
      NoColonInSpace(before);
    }
    IndexOfJoin(stem, ':', tail);
    assert line[..|stem|] == stem && line[|stem| + 1..] == tail;
    hide IndexOf;
    assert "" + key + before == stem && after + text + "" == tail;
    StripAround("", key, before);
    StripAround(after, text, "");
  }

  lemma NoColonInSpace(s: string)
    requires AllSpace(s)
    ensures ':' !in s
  {
  }

  lemma {:induction false} SplitPair(p: Pair)
    requires p.Plain()
    ensures SplitKv(p.Body()) == Success((p.key, p.value))
  {
    hide SplitKv, Unquote, Trimmed, AllSpace, Styled, Quoted;
    UnquoteStyled(p.style, p.value);
    StyledTrimmed(p.style, p.value);
    SplitAtColon(p.key, p.before, p.after, Styled(p.style, p.value));
  }

  lemma {:induction false} BodyTrimmed(p: Pair)
    requires p.Plain()
    ensures Trimmed(p.Body()) && ':' in p.Body()
  {
    var body, text := p.Body(), Styled(p.style, p.value);
    StyledTrimmed(p.style, p.value);
    assert body[|p.Stem()|] == ':' && body[0] == p.key[0];
    assert text != "" ==> body[|body| - 1] == text[|text| - 1];
    assert text == "" ==> body[|body| - 1] == ':';
  }

  /** A stem followed by ':' does not read as another word followed by ':'. */
  lemma {:induction false} OtherWord(stem: string, tail: string, word: string)
    requires ':' !in stem && ':' !in word && stem != word
    ensures !StartsWith(stem + ([':'] + tail), word + ":")
  {
    var text := stem + ([':'] + tail);
    assert |stem| < |word| ==> text[|stem|] == ':' && (word + ":")[|stem|] == word[|stem|];
    assert |word| < |stem| ==> text[|word|] == stem[|word|] && (word + ":")[|word|] == ':';
    assert |word| == |stem| ==> text[..|stem|] == stem && (word + ":")[..|stem|] == word;
  }

  lemma {:induction false} PairNotSkipped(p: Pair)
    requires p.Plain()
    ensures !Skipped(p.Body()) && !StartsWith(p.Body(), "- ")
  {
    var stem, body := p.Stem(), p.Body();
    var tail := p.after + Styled(p.style, p.value);
    NoColonInSpace(p.before);
    OtherWord(stem, tail, "version");
    OtherWord(stem, tail, "exceptions");
    hide Styled, OneLine, AllSpace, Quoted;
    assert body[0] == stem[0] == p.key[0];
    assert |stem| == 1 ==> body[1] == ':';
    assert |stem| > 1 ==> body[1] == stem[1] && (StartsWith(stem, "- ") <==> stem[..2] == "- ");
  }

  lemma {:induction false} ClassifySetting(p: Pair)
    requires p.Plain()
    ensures Classify(LineText(Setting(p))) == Field((p.key, p.value))
  {
    BodyTrimmed(p);
    PairNotSkipped(p);
    SplitPair(p);
    hide SplitKv, Strip, Skipped, Trimmed, StartsWith, Pair.Body, Styled, Quoted, OneLine;
    StripAround(p.left, p.Body(), p.right);
  }

  /** A line that opens a record with `body`. */
  lemma {:induction false} ItemLine(dash: string, body: string)
    requires AllSpace(dash) && Trimmed(body)
    ensures var line := "- " + (dash + body);
            Trimmed(line) && StartsWith(line, "- ") && Strip(line[2..]) == body && !Skipped(line)
  {
    var line := "- " + (dash + body);
    assert line[0] == '-' && line[|line| - 1] == body[|body| - 1];
    assert line[..2] == "- " && line[2..] == dash + body + "";
    StripAround(dash, body, "");
    hide Strip;
    assert "version:"[0] == 'v' && "exceptions:"[0] == 'e';
  }

  lemma {:induction false} ClassifyItemText(b: Block)
    requires Pad(b.dash) && b.first.Plain()
    ensures Classify(ItemText(b)) == Item(Success((b.first.key, b.first.value)))
  {
    var body := b.first.Body();
    var line := "- " + (b.dash + body);
    BodyTrimmed(b.first);
    SplitPair(b.first);
    ItemLine(b.dash, body);
    hide SplitKv, Strip, Trimmed, Pair.Body, Skipped, StartsWith, Styled, Quoted, OneLine;
    StripAround(b.first.left, line, b.first.right);
  }

  lemma {:induction false} ClassifyMeaningless(text: string)
    requires Meaningless(text)
    ensures Classify(text) == Ignore
  {
    hide Strip;
  }

  // ---------- Whole files ----------

  lemma {:induction false} TokensJoin(a: seq<string>, b: seq<string>)
    ensures Tokens(a + b) == Tokens(a) + Tokens(b)
  {
    if a == [] {
      assert a + b == b;
    } else {
      assert (a + b)[0] == a[0] && (a + b)[1..] == a[1..] + b;
      TokensJoin(a[1..], b);
    }
  }

  function LineToken(l: Line): Token {
    match l
    case Comment(_) => Ignore
    case Setting(p) => Field((p.key, p.value))
  }

  function LineTokens(ls: seq<Line>): seq<Token> {
    if ls == [] then [] else [LineToken(ls[0])] + LineTokens(ls[1..])
  }

  function BlockTokens(bs: seq<Block>): seq<Token> {
    if bs == [] then []
    else [Item(Success((bs[0].first.key, bs[0].first.value)))] + LineTokens(bs[0].rest) + BlockTokens(bs[1..])
  }

  lemma {:induction false} ClassifyLines(ls: seq<Line>)
    requires PlainLines(ls)
    ensures Tokens(LineTexts(ls)) == LineTokens(ls)
  {
    hide Classify, LineText, Meaningless, Pair.Plain;
    if ls != [] {
      var l := ls[0];
      assert PlainLine(l);
      match l {
        case Comment(text) =>
          ClassifyMeaningless(text);
          assert LineText(l) == text by { CommentText(text); }
        case Setting(p) => ClassifySetting(p);
      }
      ClassifyLines(ls[1..]);
      assert Tokens([LineText(l)]) == [LineToken(l)];
      TokensJoin([LineText(l)], LineTexts(ls[1..]));
    }
  }

  lemma CommentText(text: string)
    ensures LineText(Comment(text)) == text
  {
  }

  lemma {:induction false} ClassifyBlocks(bs: seq<Block>)
    requires PlainBlocks(bs)
    ensures Tokens(BlockTexts(bs)) == BlockTokens(bs)
  {
    hide Classify, ItemText, Pair.Plain, PlainLines;
    if bs != [] {
      var b, rest := bs[0], BlockTexts(bs[1..]);
      assert b.Plain();
      ClassifyItemText(b);
      ClassifyLines(b.rest);
      ClassifyBlocks(bs[1..]);
      TokensJoin([ItemText(b)] + LineTexts(b.rest), rest);
      TokensJoin([ItemText(b)], LineTexts(b.rest));
    }
  }

  lemma {:induction false} ReadLines(r: Reader, ls: seq<Line>, rest: seq<Token>)
    requires r.current.Some?
    ensures Read(r, LineTokens(ls) + rest) == Read(r.(current := Some(DictFrom(r.current.value, ls))), rest)
    decreases |ls|
  {
    var tokens := LineTokens(ls) + rest;
    if ls == [] {
      assert tokens == rest;
    } else {
      assert tokens[0] == LineToken(ls[0]) && tokens[1..] == LineTokens(ls[1..]) + rest;
      if ls[0].Setting? {
        var d := r.current.value[ls[0].pair.key := ls[0].pair.value];
        ReadLines(r.(current := Some(d)), ls[1..], rest);
      } else {
        ReadLines(r, ls[1..], rest);
      }
    }
  }

  lemma {:induction false} DictIsFull(b: Block)
    ensures Dict(b) != map[]
  {
    assert b.first.key in map[b.first.key := b.first.value];
    assert b.first.key in Dict(b);
  }

  lemma {:induction false} ReadBlocks(r: Reader, bs: seq<Block>)
    ensures Read(r, BlockTokens(bs)) == Success(r.Flush() + Dicts(bs))
    decreases |bs|
  {
    if bs == [] {
      assert r.Flush() + [] == r.Flush();
    } else {
      var b, ls, rest := bs[0], bs[0].rest, BlockTokens(bs[1..]);
      var tokens := BlockTokens(bs);
      var first := map[b.first.key := b.first.value];
      assert tokens[0] == Item(Success((b.first.key, b.first.value))) && tokens[1..] == LineTokens(ls) + rest;
      assert Read(r, tokens) == Read(Reader(r.Flush(), Some(first)), LineTokens(ls) + rest);
      ReadLines(Reader(r.Flush(), Some(first)), ls, rest);
      DictIsFull(b);
      hide DictFrom, LineTokens, Read;
      ReadBlocks(Reader(r.Flush(), Some(Dict(b))), bs[1..]);
      ThreeParts(r.Flush(), [Dict(b)], Dicts(bs[1..]));
    }
  }

  lemma {:induction false} ReadPrelude(lines: seq<string>, rest: seq<Token>)
    requires Prelude(lines)
    ensures Read(START, Tokens(lines) + rest) == Read(START, rest)
    decreases |lines|
  {
    var tokens := Tokens(lines) + rest;
    if lines == [] {
      assert tokens == rest;
    } else {
      ClassifyNoItem(lines[0]);
      hide Classify, StartsWith, Strip;
      assert tokens[0] == Classify(lines[0]) && tokens[1..] == Tokens(lines[1..]) + rest;
      ReadPrelude(lines[1..], rest);
    }
  }

  lemma {:induction false} ClassifyNoItem(text: string)
    requires !StartsWith(Strip(text), "- ")
    ensures Classify(text).Ignore? || Classify(text).Field?
  {
    hide Strip, SplitKv;
  }

  lemma {:induction false} PadsJoin(a: string, b: string)
    requires OneLine(a) && OneLine(b)
    ensures OneLine(a + b)
  {
  }

  lemma {:induction false} BodyIsOneLine(p: Pair)
    requires p.Plain()
    ensures OneLine(p.Body())
  {
    hide Trimmed, AllSpace, StartsWith, Quoted;
    var text := Styled(p.style, p.value);
    assert OneLine(text);
    PadsJoin(p.key, p.before);
    PadsJoin(p.after, text);
    PadsJoin([':'], p.after + text);
    hide OneLine;
    PadsJoin(p.Stem(), [':'] + (p.after + text));
  }

  lemma {:induction false} LineTextsAreLines(ls: seq<Line>)
    requires PlainLines(ls)
    ensures forall i :: 0 <= i < |LineTexts(ls)| ==> OneLine(LineTexts(ls)[i])
  {
    hide Pair.Body, Strip, Trimmed, AllSpace, StartsWith, Quoted;
    if ls != [] {
      var l := ls[0];
      assert PlainLine(l);
      if l.Setting? {
        var p := l.pair;
        BodyIsOneLine(p);
        PadsJoin(p.left, p.Body());
        PadsJoin(p.left + p.Body(), p.right);
      }
      LineTextsAreLines(ls[1..]);
    }
  }

  lemma {:induction false} ItemIsOneLine(b: Block)
    requires b.Plain()
    ensures OneLine(ItemText(b))
  {
    hide Pair.Body, Trimmed, AllSpace, StartsWith, Quoted, PlainLines;
    var p := b.first;
    BodyIsOneLine(p);
    assert OneLine("- ");
    hide OneLine;
    PadsJoin(b.dash, p.Body());
    PadsJoin("- ", b.dash + p.Body());
    PadsJoin(p.left, "- " + (b.dash + p.Body()));
    PadsJoin(p.left + ("- " + (b.dash + p.Body())), p.right);
  }

  lemma {:induction false} BlockTextsAreLines(bs: seq<Block>)
    requires PlainBlocks(bs)
    ensures forall i :: 0 <= i < |BlockTexts(bs)| ==> OneLine(BlockTexts(bs)[i])
  {
    hide OneLine, ItemText, Pair.Plain;
    if bs != [] {
      assert bs[0].Plain();
      ItemIsOneLine(bs[0]);
      LineTextsAreLines(bs[0].rest);
      BlockTextsAreLines(bs[1..]);
    }
  }

  /** A file: lines that open no record, then records, each line ended in the same one of three ways. */
  function File(prelude: seq<string>, bs: seq<Block>, end: string): string {
    Unlines(prelude + BlockTexts(bs), end)
  }

  /** Whatever the layout, reading a file gives its records, in order: any white space, comments and blank
      lines anywhere, values bare or in either kind of quotes, holding colons, quotes and hashes. */
  lemma {:induction false} RenderThenParse(prelude: seq<string>, bs: seq<Block>, end: string)
    requires Prelude(prelude) && PlainBlocks(bs) && IsEnding(end)
    ensures Parse(File(prelude, bs, end)) == Success(Dicts(bs))
  {
    var lines := prelude + BlockTexts(bs);
    BlockTextsAreLines(bs);
    assert forall i :: 0 <= i < |prelude| ==> prelude[i] in prelude && OneLine(prelude[i]);
    assert forall i :: 0 <= i < |lines| ==> OneLine(lines[i]);
    LinesUndoUnlines(lines, end);
    TokensJoin(prelude, BlockTexts(bs));
    ClassifyBlocks(bs);
    ReadPrelude(prelude, BlockTokens(bs));
    ReadBlocks(START, bs);
    assert START.Flush() + Dicts(bs) == Dicts(bs);
  }

  // ---------- Adding a record to a file ----------

  /** What follows belongs to no earlier record: nothing but skipped lines before the next item. */
  predicate Detached(ts: seq<Token>) {
    ts == [] || ts[0].Item? || (ts[0].Ignore? && Detached(ts[1..]))
  }

  function Append(done: seq<Record>, rest: Result<seq<Record>, ParseError>): Result<seq<Record>, ParseError> {
    if rest.Failure? then rest else Success(done + rest.value)
  }

  /** Records already finished stay in front. */
  lemma {:induction false} ReadKeepsDone(done: seq<Record>, r: Reader, ts: seq<Token>)
    ensures Read(Reader(done + r.exceptions, r.current), ts) == Append(done, Read(r, ts))
    decreases |ts|
  {
    var s := Reader(done + r.exceptions, r.current);
    assert s.Flush() == done + r.Flush();
    if ts != [] && r.Feed(ts[0]).Success? {
      ReadKeepsDone(done, r.Feed(ts[0]).value, ts[1..]);
    }
  }

  lemma {:induction false} ReadDetached(r: Reader, ts: seq<Token>)
    requires Detached(ts)
    ensures Read(r, ts) == Append(r.Flush(), Read(START, ts))
    decreases |ts|
  {
    if ts == [] {
      assert r.Flush() + [] == r.Flush();
    } else if ts[0].Ignore? {
      ReadDetached(r, ts[1..]);
    } else if ts[0].first.Success? {
      var kv := ts[0].first.value;
      var next := Reader([], Some(map[kv.0 := kv.1]));
      assert r.Flush() + [] == r.Flush();
      ReadKeepsDone(r.Flush(), next, ts[1..]);
    }
  }

  /** Reading two stretches of lines, the second of which starts afresh. */
  lemma {:induction false} ReadJoin(r: Reader, a: seq<Token>, b: seq<Token>)
    requires Detached(b)
    ensures Read(r, a + b) == if Read(r, a).Failure? then Read(r, a) else Append(Read(r, a).value, Read(START, b))
    decreases |a|
  {
    if a == [] {
      assert a + b == b;
      ReadDetached(r, b);
    } else {
      assert (a + b)[0] == a[0] && (a + b)[1..] == a[1..] + b;
      if r.Feed(a[0]).Success? {
        ReadJoin(r.Feed(a[0]).value, a[1..], b);
      }
    }
  }

  /** The text can follow any other without running into its last record. */
  predicate StandsAlone(text: string) {
    Detached(Tokens(Lines(text)))
  }

  lemma {:induction false} ParseJoin(head: string, tail: string)
    requires EndsLine(head) && StandsAlone(tail)
    ensures Parse(head + tail) == if Parse(head).Failure? then Parse(head) else Append(Parse(head).value, Parse(tail))
  {
    hide Lines, Tokens, Read, Detached;
    LinesJoin(head, tail);
    TokensJoin(Lines(head), Lines(tail));
    ReadJoin(START, Tokens(Lines(head)), Tokens(Lines(tail)));
  }

  /** The lines of one exception. */
  function Entered(b: Block): string {
    File([], [b], "\n")
  }

  lemma {:induction false} EnteredParses(b: Block)
    requires b.Plain()
    ensures StandsAlone(Entered(b)) && EndsLine(Entered(b))
    ensures Parse(Entered(b)) == Success([Dict(b)])
  {
    var lines := BlockTexts([b]);
    assert [] + lines == lines;
    assert PlainBlocks([b]) && Prelude([]) by {
      hide Block.Plain;
    }
    BlockTextsAreLines([b]);
    UnlinesEndsLine(lines);
    LinesUndoUnlines(lines, "\n");
    ClassifyBlocks([b]);
    RenderThenParse([], [b], "\n");
    hide Tokens, BlockTexts, Unlines, Lines, EndsLine, Parse, Detached, Dicts, Dict, Block.Plain;
    OneBlock(b);
  }

  lemma {:induction false} OneBlock(b: Block)
    ensures Detached(BlockTokens([b])) && Dicts([b]) == [Dict(b)]
  {
    hide Dict;
    var bs := [b];
    assert bs[1..] == [] && Dicts(bs) == [Dict(b)] + [];
    assert BlockTokens(bs)[0].Item?;
  }

  lemma JoinEndsLine(a: string, b: string)
    requires EndsLine(a) && EndsLine(b)
    ensures EndsLine(a + b)
  {
  }

  /** Inserting an exception into a file inserts its record. */
  lemma {:induction false} ParseInsert(head: string, b: Block, tail: string)
    requires EndsLine(head) && b.Plain() && StandsAlone(tail) && Parse(head + tail).Success?
    ensures Parse(head).Success? && Parse(tail).Success?
    ensures Parse(head + tail).value == Parse(head).value + Parse(tail).value
    ensures Parse(head + Entered(b) + tail) == Success(Parse(head).value + [Dict(b)] + Parse(tail).value)
  {
    hide Parse, StandsAlone, Entered, Block.Plain, Dict, EndsLine;
    EnteredParses(b);
    ParseJoin(head, tail);
    ParseJoin(head, Entered(b));
    JoinEndsLine(head, Entered(b));
    ParseJoin(head + Entered(b), tail);
  }
}
