/** Newline-delimited JSON over a child's stdio: the incremental line framer and the writer. */
module LineFraming {
  import opened Wrappers
  import opened JsonText
  import opened JsonParser
  import opened JsonLayout

  const CARRIAGE_RETURN: CodeUnit := 13

  /** Position of the first newline, or the length when there is none. */
  function NewlineAt(t: Text): (i: nat)
    ensures i <= |t| && (i < |t| ==> t[i] == NEWLINE) && forall j | 0 <= j < i :: t[j] != NEWLINE
  {
    if t == [] || t[0] == NEWLINE then 0
    else
      var i := NewlineAt(t[1..]);
      assert forall j | 0 < j < i + 1 :: t[j] == t[1..][j - 1];
      i + 1
  }

  function StripCr(line: Text): Text {
    if line != [] && line[|line| - 1] == CARRIAGE_RETURN then line[..|line| - 1] else line
  }

  /** The newline-terminated lines of a text, one trailing carriage return removed, empty ones dropped. */
  function Lines(t: Text): seq<Text>
    decreases |t|
  {
    var i := NewlineAt(t);
    if i == |t| then []
    else (if StripCr(t[..i]) == [] then [] else [StripCr(t[..i])]) + Lines(t[i + 1..])
  }

  /** What follows the last newline. */
  function Unfinished(t: Text): (rest: Text)
    decreases |t|
  {
    var i := NewlineAt(t);
    if i == |t| then t else Unfinished(t[i + 1..])
  }

  class LineFramer {
    var stdoutBuf: Text
    var dispatched: seq<Text>

    constructor ()
      ensures stdoutBuf == [] && dispatched == []
    {
      stdoutBuf := [];
      dispatched := [];
    }

    /** Appends a chunk and dispatches every line it completes. */
    method OnData(chunk: Text)
      modifies this
      ensures dispatched == old(dispatched) + Lines(old(stdoutBuf) + chunk)
      ensures stdoutBuf == Unfinished(old(stdoutBuf) + chunk)
    {
      hide Lines, Unfinished, NewlineAt, StripCr;
      stdoutBuf := stdoutBuf + chunk;
      ghost var whole := stdoutBuf;
      NoLineLeft();
      var idx := IndexOfNewline(stdoutBuf);
      while idx < |stdoutBuf|
        invariant idx == NewlineAt(stdoutBuf)
        invariant dispatched + Lines(stdoutBuf) == old(dispatched) + Lines(whole)
        invariant Unfinished(stdoutBuf) == Unfinished(whole)
        decreases |stdoutBuf|
      {
        LineStep(dispatched, stdoutBuf);
        var raw := StripCr(stdoutBuf[..idx]);
        if raw != [] {
          dispatched := dispatched + [raw];
        }
        stdoutBuf := stdoutBuf[idx + 1..];
        idx := IndexOfNewline(stdoutBuf);
      }
      assert dispatched + [] == dispatched;
    }
  }

  lemma NoLineLeft()
    ensures forall t | NewlineAt(t) == |t| :: Lines(t) == [] && Unfinished(t) == t
  {
  }

  /** Taking the first line off the buffer. */
  lemma LineStep(before: seq<Text>, t: Text)
    requires NewlineAt(t) < |t|
    ensures var i := NewlineAt(t);
            && before + Lines(t) == (if StripCr(t[..i]) == [] then before else before + [StripCr(t[..i])]) + Lines(t[i + 1..])
            && Unfinished(t) == Unfinished(t[i + 1..])
  {
    hide NewlineAt, StripCr;
    var i := NewlineAt(t);
    FirstOfLines(t);
    hide Lines;
    Prepend(before, StripCr(t[..i]), Lines(t[i + 1..]));
  }

  lemma FirstOfLines(t: Text)
    requires NewlineAt(t) < |t|
    ensures var i := NewlineAt(t);
            Lines(t) == (if StripCr(t[..i]) == [] then [] else [StripCr(t[..i])]) + Lines(t[i + 1..])
  {
    hide NewlineAt, StripCr;
  }

  lemma Prepend(before: seq<Text>, line: Text, rest: seq<Text>)
    ensures before + ([line] + rest) == before + [line] + rest
    ensures before + ([] + rest) == before + rest
  {
  }

  method IndexOfNewline(t: Text) returns (i: nat)
    ensures i == NewlineAt(t)
  {
    i := 0;
    while i < |t| && t[i] != NEWLINE
      invariant i <= |t| && NewlineAt(t) == i + NewlineAt(t[i..])
    {
      assert t[i..][1..] == t[i + 1..];
      i := i + 1;
    }
    assert i == |t| ==> t[i..] == [];
  }

  // ---- chunking does not matter ----

  lemma {:induction false} NewlineInPrefix(a: Text, b: Text)
    ensures NewlineAt(a) < |a| ==> NewlineAt(a + b) == NewlineAt(a)
    ensures NewlineAt(a) == |a| ==> NewlineAt(a + b) == |a| + NewlineAt(b)
    decreases |a|
  {
    if a == [] {
      assert a + b == b;
    } else {
      assert (a + b)[0] == a[0] && (a + b)[1..] == a[1..] + b;
      NewlineInPrefix(a[1..], b);
    }
  }

  function Kept(line: Text): seq<Text> {
    if StripCr(line) == [] then [] else [StripCr(line)]
  }

  /** The first line of a text and the rest. */
  lemma FirstLine(line: Text, rest: Text)
    requires NewlineAt(line) == |line|
    ensures Lines(line + [NEWLINE] + rest) == Kept(line) + Lines(rest)
    ensures Unfinished(line + [NEWLINE] + rest) == Unfinished(rest)
  {
    var t := line + [NEWLINE] + rest;
    assert t == line + ([NEWLINE] + rest);
    NewlineInPrefix(line, [NEWLINE] + rest);
    assert t[..|line|] == line && t[|line| + 1..] == rest;
  }

  lemma NoNewline(a: Text, i: nat)
    requires i == NewlineAt(a)
    ensures NewlineAt(a[..i]) == i
  {
  }

  /** Framing a text in two steps, keeping the unfinished part, is framing it at once. */
  lemma {:induction false} FrameInTwo(a: Text, b: Text)
    ensures Lines(a + b) == Lines(a) + Lines(Unfinished(a) + b)
    ensures Unfinished(a + b) == Unfinished(Unfinished(a) + b)
    decreases |a|
  {
    hide Lines, Unfinished, NewlineAt;
    var i := NewlineAt(a);
    if i < |a| {
      NoNewline(a, i);
      FrameInTwo(a[i + 1..], b);
      assert a == a[..i] + [NEWLINE] + a[i + 1..];
      FrameAfterLine(a[..i], a[i + 1..], a, b);
    } else {
      NoLine(a);
      assert [] + Lines(a + b) == Lines(a + b);
    }
  }

  lemma NoLine(a: Text)
    requires NewlineAt(a) == |a|
    ensures Lines(a) == [] && Unfinished(a) == a
  {
  }

  lemma FrameAfterLine(line: Text, rest: Text, a: Text, b: Text)
    requires NewlineAt(line) == |line| && a == line + [NEWLINE] + rest
    requires Lines(rest + b) == Lines(rest) + Lines(Unfinished(rest) + b)
    requires Unfinished(rest + b) == Unfinished(Unfinished(rest) + b)
    ensures Lines(a + b) == Lines(a) + Lines(Unfinished(a) + b)
    ensures Unfinished(a + b) == Unfinished(Unfinished(a) + b)
  {
    hide Lines, Unfinished, NewlineAt, Kept;
    FirstLine(line, rest);
    FirstLine(line, rest + b);
    assert a + b == line + [NEWLINE] + (rest + b);
  }

  function Concat(chunks: seq<Text>): Text {
    if chunks == [] then [] else chunks[0] + Concat(chunks[1..])
  }

  /** The lines dispatched and the buffer left by feeding chunks to a framer that holds `buf`. */
  function Feed(buf: Text, chunks: seq<Text>): (seq<Text>, Text)
    decreases |chunks|
  {
    if chunks == [] then ([], buf)
    else
      var t := buf + chunks[0];
      var r := Feed(Unfinished(t), chunks[1..]);
      (Lines(t) + r.0, r.1)
  }

  lemma {:induction false} UnfinishedHasNoLine(t: Text)
    ensures NewlineAt(Unfinished(t)) == |Unfinished(t)|
    decreases |t|
  {
    var i := NewlineAt(t);
    if i < |t| {
      UnfinishedHasNoLine(t[i + 1..]);
    }
  }

  /** However the stream is cut into chunks, the dispatched lines are those of the whole stream. */
  lemma {:induction false} ChunkingIsIrrelevant(buf: Text, chunks: seq<Text>)
    requires NewlineAt(buf) == |buf|
    ensures Feed(buf, chunks) == (Lines(buf + Concat(chunks)), Unfinished(buf + Concat(chunks)))
    decreases |chunks|
  {
    if chunks == [] {
      assert buf + Concat(chunks) == buf;
    } else {
      var t, more := buf + chunks[0], Concat(chunks[1..]);
      assert buf + Concat(chunks) == t + more;
      FrameInTwo(t, more);
      UnfinishedHasNoLine(t);
      ChunkingIsIrrelevant(Unfinished(t), chunks[1..]);
    }
  }

  /** A newline ends a line: it is dropped when nothing, or one carriage return alone, is before the newline, and
      otherwise kept without one trailing carriage return. What no newline ends stays in the buffer. */
  lemma LinesEndAtNewlines(line: Text, rest: Text)
    requires 10 !in line
    ensures Lines(line) == [] && Unfinished(line) == line
    ensures Unfinished(line + [10] + rest) == Unfinished(rest)
    ensures Lines([10] + rest) == Lines([13, 10] + rest) == Lines(rest)
    ensures line != [] ==> Lines(line + [13, 10] + rest) == [line] + Lines(rest)
    ensures line != [] && line[|line| - 1] != 13 ==> Lines(line + [10] + rest) == [line] + Lines(rest)
  {
    hide Lines, Unfinished, NewlineAt, Kept;
    KeptIs(line);
    WithoutNewline(line);
    NoLine(line);
    FirstLine(line, rest);
    BlankLines(rest);
    if line != [] {
      LineWithCr(line, rest);
    }
  }

  lemma BlankLines(rest: Text)
    ensures Lines([10] + rest) == Lines([13, 10] + rest) == Lines(rest)
  {
    hide Lines, Unfinished, NewlineAt, Kept;
    KeptIs([]);
    WithoutNewline([]);
    FirstLine([], rest);
    WithoutNewline([13]);
    FirstLine([13], rest);
    assert [] + [NEWLINE] == [10] && [13] + [NEWLINE] == [13, 10];
  }

  lemma LineWithCr(line: Text, rest: Text)
    requires 10 !in line && line != []
    ensures Lines(line + [13, 10] + rest) == [line] + Lines(rest)
  {
    hide Lines, Unfinished, NewlineAt, Kept;
    KeptIs(line);
    WithoutNewline(line + [13]);
    FirstLine(line + [13], rest);
    assert line + [13] + [NEWLINE] == line + [13, 10];
  }

  lemma WithoutNewline(t: Text)
    requires NEWLINE !in t
    ensures NewlineAt(t) == |t|
  {
    hide NewlineAt;
    forall j | 0 <= j < |t| ensures t[j] != NEWLINE {
      assert t[j] in t;
    }
  }

  lemma KeptIs(line: Text)
    ensures Kept([]) == Kept([13]) == []
    ensures line != [] ==> Kept(line + [13]) == [line]
    ensures line != [] && line[|line| - 1] != 13 ==> Kept(line) == [line]
  {
    assert (line + [13])[..|line|] == line;
  }

  lemma FeedNothing()
    ensures forall buf :: Feed(buf, []) == ([], buf)
  {
  }

  lemma FeedStep(before: seq<Text>, buf: Text, chunks: seq<Text>)
    requires chunks != []
    ensures before + Feed(buf, chunks).0 == before + Lines(buf + chunks[0]) + Feed(Unfinished(buf + chunks[0]), chunks[1..]).0
    ensures Feed(buf, chunks).1 == Feed(Unfinished(buf + chunks[0]), chunks[1..]).1
  {
  }

  /** The framer performs `Feed`: all chunks of a run, one after another. */
  method FeedAll(framer: LineFramer, chunks: seq<Text>)
    modifies framer
    ensures framer.dispatched == old(framer.dispatched) + Feed(old(framer.stdoutBuf), chunks).0
    ensures framer.stdoutBuf == Feed(old(framer.stdoutBuf), chunks).1
  {
    hide Lines, Unfinished, Feed, NewlineAt;
    ghost var r := Feed(framer.stdoutBuf, chunks);
    assert chunks[0..] == chunks;
    FeedNothing();
    for n := 0 to |chunks|
      invariant framer.dispatched + Feed(framer.stdoutBuf, chunks[n..]).0 == old(framer.dispatched) + r.0
      invariant Feed(framer.stdoutBuf, chunks[n..]).1 == r.1
    {
      assert chunks[n..][0] == chunks[n] && chunks[n..][1..] == chunks[n + 1..];
      FeedStep(framer.dispatched, framer.stdoutBuf, chunks[n..]);
      framer.OnData(chunks[n]);
    }
  }

  // ---- the writer ----

  function WriteLine(v: Json): Text
    requires Plain(v)
  {
    Compact(v) + [NEWLINE]
  }

  /** No control characters: every unit is at least a space. */
  predicate Printable(t: Text) {
    forall i | 0 <= i < |t| :: t[i] >= 32
  }

  lemma {:induction false} EscapePrintable(s: Text)
    ensures Printable(Escape(s))
    decreases |s|
  {
    if |s| > 1 && IsHigh(s[0]) && IsLow(s[1]) {
      EscapePrintable(s[2..]);
    } else if s != [] {
      EscapePrintable(s[1..]);
      assert Printable(EscapeUnit(s[0]));
    }
  }

  lemma {:induction false} JoinPrintable(ts: seq<Text>, sep: Text)
    requires Printable(sep) && forall i | 0 <= i < |ts| :: Printable(ts[i])
    ensures Printable(Join(ts, sep))
    decreases |ts|
  {
    if |ts| > 1 {
      JoinPrintable(ts[1..], sep);
    }
  }

  lemma ScalarPrintable(v: Json)
    requires !v.Undef? && !v.Arr? && !v.Obj?
    ensures Printable(ScalarText(v)) && ScalarText(v) != []
  {
    if v.Str? {
      EscapePrintable(v.s);
    }
  }

  lemma {:induction false} CompactPrintable(v: Json)
    requires Plain(v)
    ensures Printable(Compact(v)) && Compact(v) != []
    decreases v
  {
    match v
    case Arr(items) =>
      var ts := seq(|items|, i requires 0 <= i < |items| => Compact(items[i]));
      forall i | 0 <= i < |items| ensures Printable(ts[i]) {
        CompactPrintable(items[i]);
      }
      JoinPrintable(ts, [COMMA]);
    case Obj(ms) =>
      var ts := seq(|ms|, i requires 0 <= i < |ms| => MemberText(ms[i].key, [], Compact(ms[i].value)));
      forall i | 0 <= i < |ms| ensures Printable(ts[i]) {
        CompactPrintable(ms[i].value);
        EscapePrintable(ms[i].key);
      }
      JoinPrintable(ts, [COMMA]);
    case Undef =>
    case Null => ScalarPrintable(v);
    case Bool(_) => ScalarPrintable(v);
    case Num(_) => ScalarPrintable(v);
    case Str(_) => ScalarPrintable(v);
  }

  function Written(vs: seq<Json>): Text
    requires forall i | 0 <= i < |vs| :: Plain(vs[i])
  {
    if vs == [] then [] else WriteLine(vs[0]) + Written(vs[1..])
  }

  function Frames(vs: seq<Json>): seq<Text>
    requires forall i | 0 <= i < |vs| :: Plain(vs[i])
  {
    seq(|vs|, i requires 0 <= i < |vs| => Compact(vs[i]))
  }

  lemma CompactIsOneLine(v: Json)
    requires Plain(v)
    ensures NewlineAt(Compact(v)) == |Compact(v)| && Kept(Compact(v)) == [Compact(v)]
  {
    CompactPrintable(v);
  }

  lemma {:induction false} WrittenLines(vs: seq<Json>)
    requires forall i | 0 <= i < |vs| :: Plain(vs[i])
    ensures Lines(Written(vs)) == Frames(vs) && Unfinished(Written(vs)) == []
    decreases |vs|
  {
    hide Lines, Unfinished, NewlineAt, Compact, StripCr, Plain, Kept, Written, Frames;
    FirstWritten(vs);
    if vs == [] {
      NoLine([]);
    } else {
      WrittenLines(vs[1..]);
      CompactIsOneLine(vs[0]);
      FirstLine(Compact(vs[0]), Written(vs[1..]));
    }
  }

  lemma FirstWritten(vs: seq<Json>)
    requires forall i | 0 <= i < |vs| :: Plain(vs[i])
    ensures vs == [] ==> Written(vs) == [] && Frames(vs) == [] && NewlineAt([]) == 0
    ensures vs != [] ==> Written(vs) == Compact(vs[0]) + [NEWLINE] + Written(vs[1..])
    ensures vs != [] ==> Frames(vs) == [Compact(vs[0])] + Frames(vs[1..])
  {
  }

  /** Values written one per line arrive as those values, in order and none missing or added, however the
      stream is cut into chunks. */
  lemma WrittenValuesArrive(vs: seq<Json>, chunks: seq<Text>)
    requires (forall i | 0 <= i < |vs| :: Plain(vs[i])) && Concat(chunks) == Written(vs)
    ensures Feed([], chunks).1 == [] && |Feed([], chunks).0| == |vs|
    ensures forall i | 0 <= i < |vs| :: Parse(Feed([], chunks).0[i]) == Some(vs[i])
  {
    hide Feed, Lines, Unfinished, Written, Compact, Parse, Plain, Concat;
    ChunkingIsIrrelevant([], chunks);
    assert [] + Concat(chunks) == Written(vs);
    WrittenLines(vs);
    forall i | 0 <= i < |vs| ensures Parse(Frames(vs)[i]) == Some(vs[i]) {
      CompactReadsBack(vs[i]);
    }
  }

  lemma CompactReadsBack(v: Json)
    requires Plain(v)
    ensures Parse(Compact(v)) == Some(v)
  {
    hide Parse, Compact, Lays;
    CompactLays(v);
    ReadLayout(v, Compact(v), []);
    assert Compact(v) + [] == Compact(v);
  }
}
