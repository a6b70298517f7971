/** The string operations the audit gate borrows from Python: strip, partition at a character,
    and reading a text file line by line. */
module AuditText {
  import opened Selections

  /** The characters `str.strip()` removes. */
  predicate IsSpace(c: char) {
    var n := c as int;
    || 0x09 <= n <= 0x0D
    || 0x1C <= n <= 0x20
    || n == 0x85 || n == 0xA0 || n == 0x1680
    || 0x2000 <= n <= 0x200A
    || n == 0x2028 || n == 0x2029 || n == 0x202F || n == 0x205F || n == 0x3000
  }

  /** The same characters, one by one. */
  const WHITE_SPACE: seq<int> := [
    9, 10, 11, 12, 13, 28, 29, 30, 31, 32, 133, 160, 5760, 8192, 8193, 8194, 8195, 8196, 8197, 8198, 8199, 8200, 8201,
    8202, 8232, 8233, 8239, 8287, 12288]

  lemma {:induction false} SpacesAreThese(c: char)
    ensures IsSpace(c) <==> c as int in WHITE_SPACE
  {
  }

  predicate AllSpace(s: string) {
    forall i :: 0 <= i < |s| ==> IsSpace(s[i])
  }

  /** True when both ends of a non-empty string are visible. */
  predicate Trimmed(s: string) {
    s != "" && !IsSpace(s[0]) && !IsSpace(s[|s| - 1])
  }

  function LeftStrip(s: string): (r: string)
    ensures r == "" || !IsSpace(r[0])
  {
    if s != "" && IsSpace(s[0]) then LeftStrip(s[1..]) else s
  }

  function RightStrip(s: string): (r: string)
    ensures r <= s
    ensures r == "" || !IsSpace(r[|r| - 1])
  {
    if s != "" && IsSpace(s[|s| - 1]) then RightStrip(s[..|s| - 1]) else s
  }

  function Strip(s: string): (r: string)
    ensures r == "" || Trimmed(r)
  {
    RightStrip(LeftStrip(s))
  }

  predicate StartsWith(s: string, prefix: string) {
    prefix <= s
  }

  /** Position of the first `c`, or |s|. */
  function IndexOf(s: string, c: char): (i: nat)
    ensures i <= |s|
    ensures i < |s| <==> c in s
    ensures i < |s| ==> s[i] == c
    ensures c !in s[..i]
  {
    if s == "" || s[0] == c then 0 else 1 + IndexOf(s[1..], c)
  }

  predicate IsBreak(c: char) {
    c == '\n' || c == '\r'
  }

  predicate OneLine(s: string) {
    forall i :: 0 <= i < |s| ==> !IsBreak(s[i])
  }

  function LineEnd(s: string): (i: nat)
    ensures i <= |s| && OneLine(s[..i])
    ensures i < |s| ==> IsBreak(s[i])
  {
    if s == "" || IsBreak(s[0]) then 0 else 1 + LineEnd(s[1..])
  }

  /** Iterating over a text file with universal newlines: "\n", "\r" and "\r\n" each end a line.
      The terminator itself is dropped, because every reader strips the line. */
  function Lines(text: string): (lines: seq<string>) {
    if text == "" then []
    else
      var n := LineEnd(text);
      if n == |text| then [text] else [text[..n]] + Lines(text[AfterBreak(text, n)..])
  }

  /** Where the line after the break at `n` begins. */
  function AfterBreak(text: string, n: nat): (next: nat)
    requires n < |text|
    ensures n < next <= |text|
  {
    if text[n] == '\r' && n + 1 < |text| && text[n + 1] == '\n' then n + 2 else n + 1
  }

  /** The three ways to end a line. */
  predicate IsEnding(end: string) {
    end == "\n" || end == "\r" || end == "\r\n"
  }

  /** Writing lines, each ended by `end`. */
  function Unlines(lines: seq<string>, end: string): string {
    if lines == [] then "" else lines[0] + end + Unlines(lines[1..], end)
  }

  lemma {:induction false} LineEndAt(head: string, tail: string)
    requires OneLine(head) && tail != "" && IsBreak(tail[0])
    ensures LineEnd(head + tail) == |head|
  {
    var s := head + tail;
    if head != "" {
      assert s[1..] == head[1..] + tail;
      assert s[0] == head[0];
      LineEndAt(head[1..], tail);
    }
  }

  /** What follows a line does not begin with a second half of its ending. */
  lemma {:induction false} NextStartsFresh(lines: seq<string>, end: string)
    requires IsEnding(end) && forall i :: 0 <= i < |lines| ==> OneLine(lines[i])
    ensures var text := Unlines(lines, end);
            end == "\r" && text != "" ==> text[0] != '\n'
  {
    if lines != [] {
      var head, tail := lines[0], Unlines(lines[1..], end);
      assert head != "" ==> (head + end + tail)[0] == head[0];
      assert head == "" ==> (head + end + tail)[0] == end[0];
    }
  }

  lemma {:induction false} BreakAfter(head: string, end: string, tail: string)
    requires IsEnding(end) && (end == "\r" && tail != "" ==> tail[0] != '\n')
    ensures var s := head + (end + tail);
            AfterBreak(s, |head|) == |head| + |end| && s[..|head|] == head && s[|head| + |end|..] == tail
  {
    var s := head + (end + tail);
    assert s[|head|] == end[0];
    assert |end| == 2 ==> s[|head| + 1] == end[1];
    assert |end| == 1 && tail != "" ==> s[|head| + 1] == tail[0];
  }

  /** Whatever ends the lines, they are read back. */
  lemma {:induction false} LinesUndoUnlines(lines: seq<string>, end: string)
    requires IsEnding(end) && forall i :: 0 <= i < |lines| ==> OneLine(lines[i])
    ensures Lines(Unlines(lines, end)) == lines
  {
    if lines != [] {
      var head, tail := lines[0], Unlines(lines[1..], end);
      var s := head + (end + tail);
      assert Unlines(lines, end) == s by {
        ThreeParts(head, end, tail);
      }
      LineEndAt(head, end + tail);
      NextStartsFresh(lines[1..], end);
      BreakAfter(head, end, tail);
      LinesStep(s);
      hide LineEnd, AfterBreak, Lines;
      LinesUndoUnlines(lines[1..], end);
    }
  }

  /** A last line needs no ending. */
  lemma {:induction false} LastLineUnended(last: string)
    requires OneLine(last) && last != ""
    ensures Lines(last) == [last]
  {
    assert LineEnd(last) == |last|;
  }

  /** The text ends where a line ends. */
  predicate EndsLine(text: string) {
    text == "" || text[|text| - 1] == '\n'
  }

  lemma {:induction false} LineEndInFront(head: string, tail: string)
    requires head != "" && EndsLine(head)
    ensures LineEnd(head + tail) == LineEnd(head) < |head|
  {
    var s := head + tail;
    assert s[0] == head[0];
    if !IsBreak(head[0]) {
      assert s[1..] == head[1..] + tail;
      LineEndInFront(head[1..], tail);
    }
  }

  /** The first line of a text that ends a line, whatever follows it. */
  lemma {:induction false} FirstLine(head: string, tail: string) returns (n: nat, next: nat)
    requires head != "" && EndsLine(head)
    ensures n < next <= |head| && EndsLine(head[next..])
    ensures Lines(head) == [head[..n]] + Lines(head[next..])
    ensures Lines(head + tail) == [head[..n]] + Lines(head[next..] + tail)
  {
    n := LineEnd(head);
    LineEndInFront(head, tail);
    next := AfterBreak(head, n);
    BreakInFront(head, tail, n);
    LinesStep(head);
    LinesStep(head + tail);
  }

  /** The lines of a text that ends a line, followed by another text. */
  lemma {:induction false} LinesJoin(head: string, tail: string)
    requires EndsLine(head)
    ensures Lines(head + tail) == Lines(head) + Lines(tail)
  {
    if head == "" {
      assert head + tail == tail && Lines(head) == [];
      hide *;
      assert [] + Lines(tail) == Lines(tail);
    } else {
      hide *;
      var n, next := FirstLine(head, tail);
      var rest := head[next..];
      LinesJoin(rest, tail);
      ThreeParts([head[..n]], Lines(rest), Lines(tail));
    }
  }

  lemma {:induction false} LinesStep(text: string)
    requires LineEnd(text) < |text|
    ensures var n := LineEnd(text);
            Lines(text) == [text[..n]] + Lines(text[AfterBreak(text, n)..])
  {
  }

  lemma {:induction false} BreakInFront(head: string, tail: string, n: nat)
    requires EndsLine(head) && n < |head| && IsBreak(head[n])
    ensures var (s, next) := (head + tail, AfterBreak(head, n));
            && AfterBreak(s, n) == next && s[..n] == head[..n] && s[next..] == head[next..] + tail
            && EndsLine(head[next..])
  {
    var s := head + tail;
    assert s[n] == head[n];
    assert n + 1 < |head| ==> s[n + 1] == head[n + 1];
  }

  lemma {:induction false} UnlinesEndsLine(lines: seq<string>)
    ensures EndsLine(Unlines(lines, "\n"))
  {
    if lines != [] {
      UnlinesEndsLine(lines[1..]);
    }
  }

  lemma {:induction false} LeftStripPadding(pad: string, body: string)
    requires AllSpace(pad)
    requires body == "" || !IsSpace(body[0])
    ensures LeftStrip(pad + body) == body
  {
    var s := pad + body;
    if pad == "" {
      assert s == body;
    } else {
      assert s[0] == pad[0] && s[1..] == pad[1..] + body;
      LeftStripPadding(pad[1..], body);
    }
  }

  lemma StripPadding(pad: string, body: string)
    requires AllSpace(pad) && Trimmed(body)
    ensures Strip(pad + body) == body
  {
    LeftStripPadding(pad, body);
  }

  /** White space on both sides goes, and nothing else. */
  lemma {:induction false} StripAround(left: string, body: string, right: string)
    requires AllSpace(left) && AllSpace(right) && (body == "" || Trimmed(body))
    ensures Strip(left + body + right) == body
  {
    if body == "" {
      assert AllSpace(left + body + right);
      AllSpaceStripped(left + body + right);
    } else {
      var rest := body + right;
      assert left + body + right == left + rest && rest[0] == body[0];
      LeftStripPadding(left, rest);
      RightStripPadding(body, right);
    }
  }

  lemma {:induction false} AllSpaceStripped(s: string)
    requires AllSpace(s)
    ensures LeftStrip(s) == ""
  {
    if s != "" {
      AllSpaceStripped(s[1..]);
    }
  }

  lemma {:induction false} RightStripPadding(body: string, pad: string)
    requires AllSpace(pad)
    requires body == "" || !IsSpace(body[|body| - 1])
    ensures RightStrip(body + pad) == body
  {
    var s := body + pad;
    if pad == "" {
      assert s == body;
    } else {
      assert s[|s| - 1] == pad[|pad| - 1] && s[..|s| - 1] == body + pad[..|pad| - 1];
      RightStripPadding(body, pad[..|pad| - 1]);
    }
  }

  lemma StripTrimmed(body: string)
    requires Trimmed(body)
    ensures Strip(body) == body
  {
  }

  lemma {:induction false} LeftStripParts(s: string) returns (pad: string)
    ensures AllSpace(pad) && s == pad + LeftStrip(s)
  {
    if s != "" && IsSpace(s[0]) {
      pad := LeftStripParts(s[1..]);
      pad := [s[0]] + pad;
    } else {
      pad := "";
    }
  }

  lemma {:induction false} RightStripParts(s: string) returns (pad: string)
    ensures AllSpace(pad) && s == RightStrip(s) + pad
  {
    if s != "" && IsSpace(s[|s| - 1]) {
      pad := RightStripParts(s[..|s| - 1]);
      pad := pad + [s[|s| - 1]];
    } else {
      pad := "";
    }
  }

  /** Strip removes white space from the two ends and nothing else. */
  lemma StripParts(s: string) returns (left: string, right: string)
    ensures AllSpace(left) && AllSpace(right) && s == left + Strip(s) + right
  {
    left := LeftStripParts(s);
    right := RightStripParts(LeftStrip(s));
  }

  lemma StripKeepsVisible(s: string, i: nat)
    requires i < |s| && !IsSpace(s[i])
    ensures s[i] in Strip(s)
  {
    var left, right := StripParts(s);
    var whole := left + Strip(s) + right;
    assert whole[i] == s[i];
    assert Strip(s)[i - |left|] == s[i];
  }

  lemma {:induction false} IndexOfJoin(head: string, c: char, tail: string)
    requires c !in head
    ensures IndexOf(head + [c] + tail, c) == |head|
  {
    var s := head + [c] + tail;
    if head != "" {
      assert s[0] == head[0] && s[1..] == head[1..] + [c] + tail;
      IndexOfJoin(head[1..], c, tail);
    }
  }
}
