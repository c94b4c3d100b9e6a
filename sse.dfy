/** The server-sent-event decoding done by `streamResponse` in
    src/pages/Chat.tsx, stated as functions over the text received so far.

    The reader's chunks arrive already decoded to text. Each chunk is
    appended to a carry buffer; complete `\n`-terminated lines are then cut
    off one at a time and classified. `JSON.parse` is a parameter: a
    `Parser` maps a payload to `None` when parsing throws (or when the parsed
    value has no iterable `choices`), and otherwise to its list of choices. */
module Sse {
  import opened Common
  import opened Text

  /** One element of `parsed.choices`. `Delta(r, c)` holds the truthy
      `delta.reasoning_content` and `delta.content` as strings, "" standing
      for a missing or falsy field (a missing `delta` is `Delta("", "")`).
      `Throws` is a `null`/`undefined` choice: reading its `delta` throws
      inside the `try`, after the choices before it were already applied. */
  datatype Choice = Delta(reasoning: string, content: string) | Throws

  /** `JSON.parse` followed by `parsed.choices || []`. */
  type Parser = string -> Option<seq<Choice>>

  /** One update of an accumulator, in the order the code applies them:
      `Reasoning` extends `thinkingContent`, `Answer` extends `assistantContent`. */
  datatype Increment = Reasoning(text: string) | Answer(text: string)

  /** How one extracted line is treated. */
  datatype Line = Ignored | Done | Data(payload: string)

  /** Why the extraction loop of one chunk stopped: no newline left, the
      `[DONE]` sentinel, or a payload that failed and was pushed back. */
  datatype Stop = NeedMore | Finished | Stalled(payload: string)

  /** The result of the extraction loop over one buffer. */
  datatype Drained = Drained(rest: string, incs: seq<Increment>, stop: Stop)

  /** The decoder between two chunks: the carry buffer and every increment so far. */
  datatype State = State(buffer: string, incs: seq<Increment>)

  const DataPrefix := "data: "
  const Sentinel := "[DONE]"

  /** `if (line.endsWith("\r")) line = line.slice(0, -1)`. */
  function StripCR(line: string): (r: string)
    ensures r == line || line == r + ['\r']
    ensures line == r + ['\r'] <==> |line| > 0 && line[|line| - 1] == '\r'
  {
    if |line| > 0 && line[|line| - 1] == '\r' then line[..|line| - 1] else line
  }

  /** The classification of one extracted line (without its `\n`). */
  function Classify(raw: string): Line {
    var line := StripCR(raw);
    if StartsWith(line, ":") || Trim(line) == "" then Ignored
    else if !StartsWith(line, DataPrefix) then Ignored
    else
      var payload := Trim(line[|DataPrefix|..]);
      if payload == Sentinel then Done else Data(payload)
  }

  /** The increments one delta produces: its reasoning first, then its content. */
  function DeltaIncrements(r: string, c: string): (incs: seq<Increment>)
    ensures forall k :: 0 <= k < |incs| ==> incs[k].text != ""
    ensures r != "" ==> |incs| > 0 && incs[0] == Reasoning(r)
  {
    (if r != "" then [Reasoning(r)] else []) + (if c != "" then [Answer(c)] else [])
  }

  /** One delta adds its reasoning to the reasoning accumulator and its
      content to the answer accumulator, each exactly once. */
  lemma DeltaAccumulators(r: string, c: string)
    ensures Reasonings(DeltaIncrements(r, c)) == r
    ensures Answers(DeltaIncrements(r, c)) == c
  {
    var first: seq<Increment> := if r != "" then [Reasoning(r)] else [];
    assert Reasonings(first) == r && Answers(first) == "" by {
      if r != "" {
        AccumulatorsSnoc([], Reasoning(r));
        assert [] + [Reasoning(r)] == first;
      }
    }
    if c != "" {
      AccumulatorsSnoc(first, Answer(c));
      assert r + "" == r;
    } else {
      assert first + [] == first;
    }
  }

  /** The increments a list of choices produces before the first one that throws. */
  function Emitted(cs: seq<Choice>): (incs: seq<Increment>)
    ensures forall k :: 0 <= k < |incs| ==> incs[k].text != ""
  {
    if |cs| == 0 then []
    else match cs[0]
      case Throws => []
      case Delta(r, c) => DeltaIncrements(r, c) + Emitted(cs[1..])
  }

  /** The increments of the choices from position `j` on, by the choice at `j`. */
  lemma EmittedFrom(cs: seq<Choice>, j: nat)
    requires j < |cs|
    ensures Emitted(cs[j..]) == match cs[j]
      case Throws => []
      case Delta(r, c) => DeltaIncrements(r, c) + Emitted(cs[j + 1..])
  {
    assert cs[j..][1..] == cs[j + 1..];
  }

  /** `thinkingContent` built from a list of increments. */
  function Reasonings(incs: seq<Increment>): string {
    if |incs| == 0 then ""
    else
      var last := incs[|incs| - 1];
      Reasonings(incs[..|incs| - 1]) + (if last.Reasoning? then last.text else "")
  }

  /** `assistantContent` built from a list of increments. */
  function Answers(incs: seq<Increment>): string {
    if |incs| == 0 then ""
    else
      var last := incs[|incs| - 1];
      Answers(incs[..|incs| - 1]) + (if last.Answer? then last.text else "")
  }

  /** The increments that extend `incs` by one. */
  lemma AccumulatorsSnoc(incs: seq<Increment>, x: Increment)
    ensures Reasonings(incs + [x]) == Reasonings(incs) + (if x.Reasoning? then x.text else "")
    ensures Answers(incs + [x]) == Answers(incs) + (if x.Answer? then x.text else "")
  {
    assert (incs + [x])[..|incs|] == incs;
  }

  /** Both accumulators are append-only: later increments only extend them. */
  lemma AccumulatorsAppend(a: seq<Increment>, b: seq<Increment>)
    ensures Reasonings(a + b) == Reasonings(a) + Reasonings(b)
    ensures Answers(a + b) == Answers(a) + Answers(b)
  {
    ReasoningsAppend(a, b);
    AnswersAppend(a, b);
  }

  lemma {:induction false} ReasoningsAppend(a: seq<Increment>, b: seq<Increment>)
    ensures Reasonings(a + b) == Reasonings(a) + Reasonings(b)
    decreases |b|
  {
    if |b| == 0 {
      assert a + b == a;
      assert Reasonings(a) + "" == Reasonings(a);
    } else {
      var b', x := b[..|b| - 1], b[|b| - 1];
      assert b == b' + [x];
      assert a + b == (a + b') + [x];
      ReasoningsAppend(a, b');
      AccumulatorsSnoc(a + b', x);
      AccumulatorsSnoc(b', x);
      StringAssoc(Reasonings(a), Reasonings(b'), if x.Reasoning? then x.text else "");
    }
  }

  lemma {:induction false} AnswersAppend(a: seq<Increment>, b: seq<Increment>)
    ensures Answers(a + b) == Answers(a) + Answers(b)
    decreases |b|
  {
    if |b| == 0 {
      assert a + b == a;
      assert Answers(a) + "" == Answers(a);
    } else {
      var b', x := b[..|b| - 1], b[|b| - 1];
      assert b == b' + [x];
      assert a + b == (a + b') + [x];
      AnswersAppend(a, b');
      AccumulatorsSnoc(a + b', x);
      AccumulatorsSnoc(b', x);
      StringAssoc(Answers(a), Answers(b'), if x.Answer? then x.text else "");
    }
  }

  /** Extracting a line whose payload is `payload` ends in the `catch`:
      `JSON.parse` throws, or one of the choices does. */
  predicate Fails(parse: Parser, payload: string) {
    parse(payload).None? || Throws in parse(payload).value
  }

  /** The increments one more extraction of a failing payload re-applies. */
  function Replay(parse: Parser, payload: string): seq<Increment> {
    match parse(payload)
    case None => []
    case Some(cs) => Emitted(cs)
  }

  /** `d` with `incs` produced before it. */
  function Then(incs: seq<Increment>, d: Drained): Drained {
    Drained(d.rest, incs + d.incs, d.stop)
  }

  /** The inner `while ((newlineIndex = buffer.indexOf("\n")) !== -1)` loop
      over the buffer `buf`: the buffer it leaves and the increments applied. */
  function Drain(parse: Parser, buf: string): (d: Drained)
    decreases |buf|
  {
    var i := IndexOf(buf, '\n');
    if i == -1 then Drained(buf, [], NeedMore)
    else
      var raw, rest := buf[..i], buf[i + 1..];
      match Classify(raw)
      case Ignored => Drain(parse, rest)
      case Done => Drained(rest, [], Finished)
      case Data(p) =>
        match parse(p)
        case None => Drained(StripCR(raw) + "\n" + rest, [], Stalled(p))
        case Some(cs) =>
          if Throws in cs then Drained(StripCR(raw) + "\n" + rest, Emitted(cs), Stalled(p))
          else Then(Emitted(cs), Drain(parse, rest))
  }

  /** A complete first line that is ignored: the loop goes on after it. */
  lemma FirstLineIgnored(parse: Parser, buf: string, i: nat)
    requires i == IndexOf(buf, '\n') && Classify(buf[..i]) == Ignored
    ensures Drain(parse, buf) == Drain(parse, buf[i + 1..])
  {
  }

  /** A complete first line that is `[DONE]`: the loop stops after it. */
  lemma FirstLineDone(parse: Parser, buf: string, i: nat)
    requires i == IndexOf(buf, '\n') && Classify(buf[..i]) == Done
    ensures Drain(parse, buf) == Drained(buf[i + 1..], [], Finished)
  {
  }

  /** A complete first line that fails: it is pushed back and the loop stops. */
  lemma FirstLineFails(parse: Parser, buf: string, i: nat, p: string)
    requires i == IndexOf(buf, '\n') && Classify(buf[..i]) == Data(p) && Fails(parse, p)
    ensures Drain(parse, buf) == Drained(StripCR(buf[..i]) + "\n" + buf[i + 1..], Replay(parse, p), Stalled(p))
  {
  }

  /** A complete first line that is applied: the loop goes on after it. */
  lemma FirstLineApplied(parse: Parser, buf: string, i: nat, p: string)
    requires i == IndexOf(buf, '\n') && Classify(buf[..i]) == Data(p) && !Fails(parse, p)
    ensures Drain(parse, buf) == Then(Replay(parse, p), Drain(parse, buf[i + 1..]))
  {
  }

  /** What handling one complete line does inside the extraction loop. */
  datatype LineStep = LineStep(stop: bool, rest: string, incs: seq<Increment>)

  /** The handling of the first line of `buf`, which ends at `i`: whether the
      loop breaks after it, the buffer left, and the increments applied. */
  function HandleLine(parse: Parser, buf: string, i: nat): LineStep
    requires i < |buf|
  {
    var raw, rest := buf[..i], buf[i + 1..];
    match Classify(raw)
    case Ignored => LineStep(false, rest, [])
    case Done => LineStep(true, rest, [])
    case Data(p) =>
      if Fails(parse, p) then LineStep(true, StripCR(raw) + "\n" + rest, Replay(parse, p))
      else LineStep(false, rest, Replay(parse, p))
  }

  /** The extraction loop is its first line's handling, followed, unless the
      loop breaks there, by the loop over the shorter buffer left. */
  lemma DrainByLine(parse: Parser, buf: string)
    requires '\n' in buf
    ensures var h := HandleLine(parse, buf, IndexOf(buf, '\n'));
      (h.stop ==> Drain(parse, buf) == Drained(h.rest, h.incs, Drain(parse, buf).stop)
                  && Drain(parse, buf).stop != NeedMore)
      && (!h.stop ==> |h.rest| < |buf| && Drain(parse, buf) == Then(h.incs, Drain(parse, h.rest)))
  {
    var i := IndexOf(buf, '\n');
    match Classify(buf[..i])
    case Ignored =>
      FirstLineIgnored(parse, buf, i);
      assert [] + Drain(parse, buf[i + 1..]).incs == Drain(parse, buf[i + 1..]).incs;
    case Done =>
      FirstLineDone(parse, buf, i);
    case Data(p) =>
      if Fails(parse, p) {
        FirstLineFails(parse, buf, i, p);
      } else {
        FirstLineApplied(parse, buf, i, p);
      }
  }

  /** One iteration of the outer `while (reader)` loop: append the chunk and drain. */
  function Step(parse: Parser, st: State, chunk: string): State {
    var d := Drain(parse, st.buffer + chunk);
    State(d.rest, st.incs + d.incs)
  }

  /** The state after feeding `chunks` in order, starting from `st`. */
  function RunFrom(parse: Parser, st: State, chunks: seq<string>): State {
    if |chunks| == 0 then st
    else Step(parse, RunFrom(parse, st, chunks[..|chunks| - 1]), chunks[|chunks| - 1])
  }

  /** The decoder after the whole stream: its buffer is dropped once the
      reader reports `done`, and the accumulators are `Reasonings`/`Answers`
      of its increments. */
  function Run(parse: Parser, chunks: seq<string>): State {
    RunFrom(parse, State("", []), chunks)
  }

  /** The text of the whole stream. */
  function Concat(chunks: seq<string>): string {
    if |chunks| == 0 then "" else Concat(chunks[..|chunks| - 1]) + chunks[|chunks| - 1]
  }

  /** One more chunk is one more `Step`. */
  lemma RunSnoc(parse: Parser, chunks: seq<string>, c: string)
    ensures Run(parse, chunks + [c]) == Step(parse, Run(parse, chunks), c)
  {
    assert (chunks + [c])[..|chunks|] == chunks;
  }

  /** The stream's first `k + 1` chunks are its first `k` and one more step. */
  lemma RunPrefixStep(parse: Parser, chunks: seq<string>, k: nat)
    requires k < |chunks|
    ensures Run(parse, chunks[..k + 1]) == Step(parse, Run(parse, chunks[..k]), chunks[k])
  {
    assert chunks[..k + 1] == chunks[..k] + [chunks[k]];
    RunSnoc(parse, chunks[..k], chunks[k]);
  }

  /** A stream of one chunk is one pass of the extraction loop. */
  lemma RunSingle(parse: Parser, c: string)
    ensures Run(parse, [c]) == State(Drain(parse, c).rest, Drain(parse, c).incs)
  {
    RunSnoc(parse, [], c);
    assert [] + [c] == [c];
    assert "" + c == c;
    assert [] + Drain(parse, c).incs == Drain(parse, c).incs;
  }

  lemma Assoc(a: seq<Increment>, b: seq<Increment>, c: seq<Increment>)
    ensures (a + b) + c == a + (b + c)
  {
  }

  // ---------------------------------------------------------------------
  // One buffer: what the extraction loop consumes and what it leaves.
  // ---------------------------------------------------------------------

  /** When the loop stops for want of a newline, every complete line was
      consumed and what is left is the unterminated tail of the buffer. */
  lemma {:induction false} DrainLeavesOnlyTail(parse: Parser, buf: string)
    ensures var d := Drain(parse, buf);
      d.stop == NeedMore ==> '\n' !in d.rest && IsSuffix(d.rest, buf)
    decreases |buf|, 1
  {
    var i := IndexOf(buf, '\n');
    if i != -1 {
      match Classify(buf[..i])
      case Ignored =>
        FirstLineIgnored(parse, buf, i);
        TailAfterLine(parse, buf, i);
      case Done =>
        FirstLineDone(parse, buf, i);
      case Data(p) =>
        if Fails(parse, p) {
          FirstLineFails(parse, buf, i, p);
        } else {
          FirstLineApplied(parse, buf, i, p);
          TailAfterLine(parse, buf, i);
        }
    }
  }

  /** The induction step of `DrainLeavesOnlyTail`: what the loop leaves of
      the buffer after the first line is a suffix of the whole buffer. */
  lemma TailAfterLine(parse: Parser, buf: string, i: nat)
    requires i < |buf|
    ensures var d := Drain(parse, buf[i + 1..]);
      d.stop == NeedMore ==> '\n' !in d.rest && IsSuffix(d.rest, buf)
    decreases |buf|, 0
  {
    DrainLeavesOnlyTail(parse, buf[i + 1..]);
    var d := Drain(parse, buf[i + 1..]);
    if d.stop == NeedMore { SuffixOfDrop(d.rest, buf, i + 1); }
  }

  /** A newline-terminated buffer is consumed to the end unless `[DONE]`
      or a failing payload stops the loop. */
  lemma TerminatedBufferEmptied(parse: Parser, buf: string)
    requires |buf| > 0 && buf[|buf| - 1] == '\n'
    ensures Drain(parse, buf).stop == NeedMore ==> Drain(parse, buf).rest == ""
  {
    DrainLeavesOnlyTail(parse, buf);
    if Drain(parse, buf).stop == NeedMore {
      SuffixHoldsLast(Drain(parse, buf).rest, buf);
    }
  }

  /** A line the loop skips: after one trailing `\r` is stripped, it is
      blank, a `:` comment, or lacks the exact `data: ` prefix. */
  predicate IsSkippedLine(raw: string) {
    var line := StripCR(raw);
    IsBlank(line) || StartsWith(line, ":") || !StartsWith(line, DataPrefix)
  }

  /** A skipped line is cut off and changes neither accumulator: the
      loop goes on with the rest of the buffer exactly as if it were absent. */
  lemma SkippedLineIgnored(parse: Parser, raw: string, rest: string)
    requires '\n' !in raw && IsSkippedLine(raw)
    ensures Drain(parse, raw + "\n" + rest) == Drain(parse, rest)
  {
    IndexOfTerminated(raw, '\n', rest);
    TrimEmptyIffBlank(StripCR(raw));
    FirstLineIgnored(parse, raw + "\n" + rest, |raw|);
  }

  /** A `data: ` line, so neither blank nor a comment. */
  lemma DataLineNotSkipped(line: string)
    requires StartsWith(line, DataPrefix)
    ensures !StartsWith(line, ":") && Trim(line) != ""
  {
    TrimEmptyIffBlank(line);
    assert line[0] == 'd';
  }

  /** A `data: [DONE]` line (surrounding white space allowed): its payload
      is never handed to `JSON.parse`, nothing is applied, and the lines
      after it stay in the buffer. The result does not depend on the parser. */
  lemma SentinelEndsChunk(parse: Parser, raw: string, rest: string)
    requires '\n' !in raw
    requires StartsWith(StripCR(raw), DataPrefix)
    requires Trim(StripCR(raw)[|DataPrefix|..]) == Sentinel
    ensures Drain(parse, raw + "\n" + rest) == Drained(rest, [], Finished)
  {
    IndexOfTerminated(raw, '\n', rest);
    DataLineNotSkipped(StripCR(raw));
    FirstLineDone(parse, raw + "\n" + rest, |raw|);
  }

  /** A `data: ` line whose payload fails to parse is pushed back, without
      its `\r`, in front of the rest, and the loop stops for this chunk. */
  lemma FailurePushesBack(parse: Parser, raw: string, rest: string)
    requires '\n' !in raw
    requires StartsWith(StripCR(raw), DataPrefix)
    requires var p := Trim(StripCR(raw)[|DataPrefix|..]); p != Sentinel && parse(p) == None
    ensures Drain(parse, raw + "\n" + rest)
         == Drained(StripCR(raw) + "\n" + rest, [], Stalled(Trim(StripCR(raw)[|DataPrefix|..])))
  {
    IndexOfTerminated(raw, '\n', rest);
    DataLineNotSkipped(StripCR(raw));
    FirstLineFails(parse, raw + "\n" + rest, |raw|, Trim(StripCR(raw)[|DataPrefix|..]));
  }

  /** For each choice in order, a non-empty reasoning is applied before a
      non-empty content; empty or missing fields apply nothing. */
  lemma ChoicesInOrder(cs: seq<Choice>, r: string, c: string)
    requires Throws !in cs
    ensures Emitted(cs + [Delta(r, c)]) == Emitted(cs) + DeltaIncrements(r, c)
    ensures r != "" && c != "" ==> DeltaIncrements(r, c) == [Reasoning(r), Answer(c)]
    ensures r == "" && c == "" ==> Emitted(cs + [Delta(r, c)]) == Emitted(cs)
  {
    EmittedSnoc(cs, Delta(r, c));
    assert Emitted([Delta(r, c)]) == DeltaIncrements(r, c) by {
      assert [Delta(r, c)][1..] == [];
      assert DeltaIncrements(r, c) + [] == DeltaIncrements(r, c);
    }
    if r == "" && c == "" {
      assert Emitted(cs) + [] == Emitted(cs);
    }
  }

  /** Without a throwing choice, one more choice adds its increments at the end. */
  lemma {:induction false} EmittedSnoc(cs: seq<Choice>, x: Choice)
    requires Throws !in cs
    ensures Emitted(cs + [x]) == Emitted(cs) + Emitted([x])
  {
    if |cs| == 0 {
      assert cs + [x] == [x];
    } else {
      assert (cs + [x])[1..] == cs[1..] + [x];
      assert cs[0] in cs;
      EmittedSnoc(cs[1..], x);
      Assoc(DeltaIncrements(cs[0].reasoning, cs[0].content), Emitted(cs[1..]), Emitted([x]));
    }
  }

  /** A throwing choice ends the increments of its list: nothing after it
      is emitted, whatever it is. */
  lemma {:induction false} EmittedStopsAtThrow(a: seq<Choice>, b: seq<Choice>)
    requires Throws !in a
    ensures Emitted(a + [Throws] + b) == Emitted(a)
  {
    if |a| == 0 {
      assert a + [Throws] + b == [Throws] + b;
    } else {
      assert (a + [Throws] + b)[1..] == a[1..] + [Throws] + b;
      assert a[0] in a;
      EmittedStopsAtThrow(a[1..], b);
    }
  }

  // ---------------------------------------------------------------------
  // Appending text to a buffer.
  // ---------------------------------------------------------------------

  /** How the loop over `s + c` relates to the loop over `s`. */
  function Extend(parse: Parser, d: Drained, c: string): Drained {
    match d.stop
    case NeedMore => Then(d.incs, Drain(parse, d.rest + c))
    case _ => Drained(d.rest + c, d.incs, d.stop)
  }

  /** Appending text to a buffer never changes what the lines already
      complete in it do: if the loop stopped for want of a newline it carries
      on into the new text, and if it stopped on `[DONE]` or a failure it
      stops there again with the new text left in the buffer. */
  lemma {:induction false} DrainAppend(parse: Parser, s: string, c: string)
    ensures Drain(parse, s + c) == Extend(parse, Drain(parse, s), c)
    decreases |s|
  {
    var i := IndexOf(s, '\n');
    if i == -1 {
      assert Drain(parse, s) == Drained(s, [], NeedMore);
      assert [] + Drain(parse, s + c).incs == Drain(parse, s + c).incs;
    } else {
      DrainAppend(parse, s[i + 1..], c);
      match Classify(s[..i])
      case Ignored => AppendAfterIgnored(parse, s, c, i);
      case Done => AppendAfterDone(parse, s, c, i);
      case Data(p) =>
        if Fails(parse, p) {
          AppendAfterFailure(parse, s, c, i, p);
        } else {
          AppendAfterApplied(parse, s, c, i, p);
        }
    }
  }

  /** The first complete line of `s` is still the first line of `s + c`. */
  lemma FirstLineKept(s: string, c: string, i: nat)
    requires i == IndexOf(s, '\n')
    ensures i == IndexOf(s + c, '\n') && (s + c)[..i] == s[..i] && (s + c)[i + 1..] == s[i + 1..] + c
  {
    IndexOfAppend(s, c, '\n');
  }

  lemma AppendAfterIgnored(parse: Parser, s: string, c: string, i: nat)
    requires i == IndexOf(s, '\n') && Classify(s[..i]) == Ignored
    requires Drain(parse, s[i + 1..] + c) == Extend(parse, Drain(parse, s[i + 1..]), c)
    ensures Drain(parse, s + c) == Extend(parse, Drain(parse, s), c)
  {
    FirstLineKept(s, c, i);
    FirstLineIgnored(parse, s, i);
    FirstLineIgnored(parse, s + c, i);
  }

  lemma AppendAfterDone(parse: Parser, s: string, c: string, i: nat)
    requires i == IndexOf(s, '\n') && Classify(s[..i]) == Done
    ensures Drain(parse, s + c) == Extend(parse, Drain(parse, s), c)
  {
    FirstLineKept(s, c, i);
    FirstLineDone(parse, s, i);
    FirstLineDone(parse, s + c, i);
  }

  lemma AppendAfterFailure(parse: Parser, s: string, c: string, i: nat, p: string)
    requires i == IndexOf(s, '\n') && Classify(s[..i]) == Data(p) && Fails(parse, p)
    ensures Drain(parse, s + c) == Extend(parse, Drain(parse, s), c)
  {
    FirstLineKept(s, c, i);
    FirstLineFails(parse, s, i, p);
    FirstLineFails(parse, s + c, i, p);
    StringAssoc(StripCR(s[..i]) + "\n", s[i + 1..], c);
  }

  lemma AppendAfterApplied(parse: Parser, s: string, c: string, i: nat, p: string)
    requires i == IndexOf(s, '\n') && Classify(s[..i]) == Data(p) && !Fails(parse, p)
    requires Drain(parse, s[i + 1..] + c) == Extend(parse, Drain(parse, s[i + 1..]), c)
    ensures Drain(parse, s + c) == Extend(parse, Drain(parse, s), c)
  {
    FirstLineKept(s, c, i);
    FirstLineApplied(parse, s, i, p);
    FirstLineApplied(parse, s + c, i, p);
    ThenExtend(parse, Replay(parse, p), Drain(parse, s[i + 1..]), c);
  }

  /** Increments produced before a pass stay in front when text is appended. */
  lemma ThenExtend(parse: Parser, e: seq<Increment>, d: Drained, c: string)
    ensures Extend(parse, Then(e, d), c) == Then(e, Extend(parse, d, c))
  {
    if d.stop == NeedMore {
      Assoc(e, d.incs, Drain(parse, d.rest + c).incs);
    }
  }

  // ---------------------------------------------------------------------
  // A failing line stalls the decoder for good.
  // ---------------------------------------------------------------------

  /** The buffer starts with a complete line whose payload `p` fails. */
  predicate StalledOn(parse: Parser, buf: string, p: string) {
    var i := IndexOf(buf, '\n');
    i >= 0 && Classify(buf[..i]) == Data(p) && Fails(parse, p)
  }

  /** Stripping one more `\r` from a data line does not change its payload. */
  lemma ClassifyStripStable(raw: string)
    requires Classify(raw).Data?
    ensures Classify(StripCR(raw)) == Classify(raw)
  {
    var line := StripCR(raw);
    var line2 := StripCR(line);
    if line2 != line {
      assert line[5] == ' ';
      assert line == line2 + ['\r'];
      assert StartsWith(line2, DataPrefix);
      DataLineNotSkipped(line2);
      assert line[|DataPrefix|..] == line2[|DataPrefix|..] + ['\r'];
      TrimIgnoresTrailingSpace(line2[|DataPrefix|..], '\r');
    }
  }

  /** A failing line pushed back in front of the rest is the first line
      of the new buffer, and it fails again. */
  lemma PushedBackStalls(parse: Parser, raw: string, rest: string, p: string)
    requires '\n' !in raw && Classify(raw) == Data(p) && Fails(parse, p)
    ensures StalledOn(parse, StripCR(raw) + "\n" + rest, p)
  {
    var line := StripCR(raw);
    assert '\n' !in line by {
      forall k | 0 <= k < |line| ensures line[k] != '\n' {
        assert line[k] == raw[k];
      }
    }
    IndexOfTerminated(line, '\n', rest);
    assert (line + "\n" + rest)[..|line|] == line;
    ClassifyStripStable(raw);
  }

  /** The loop that stops on a failure leaves the decoder stalled on it. */
  lemma {:induction false} DrainStalls(parse: Parser, buf: string)
    ensures var d := Drain(parse, buf);
      d.stop.Stalled? ==> StalledOn(parse, d.rest, d.stop.payload)
    decreases |buf|
  {
    var i := IndexOf(buf, '\n');
    if i != -1 {
      match Classify(buf[..i])
      case Ignored =>
        FirstLineIgnored(parse, buf, i);
        DrainStalls(parse, buf[i + 1..]);
      case Done =>
        FirstLineDone(parse, buf, i);
      case Data(p) =>
        if Fails(parse, p) {
          FirstLineFails(parse, buf, i, p);
          PushedBackStalls(parse, buf[..i], buf[i + 1..], p);
        } else {
          FirstLineApplied(parse, buf, i, p);
          DrainStalls(parse, buf[i + 1..]);
        }
    }
  }

  /** A stalled decoder, fed any chunk, extracts the same line again, fails
      on it again (re-applying whatever its choices applied before the throw),
      and stays stalled on it. */
  lemma StallRepeats(parse: Parser, buf: string, c: string, p: string)
    requires StalledOn(parse, buf, p)
    ensures var d := Drain(parse, buf + c);
      d.incs == Replay(parse, p) && d.stop == Stalled(p) && StalledOn(parse, d.rest, p)
  {
    DrainAppend(parse, buf, c);
    DrainStalls(parse, buf + c);
  }

  /** A `data: ` line whose payload parses, with no choice that throws:
      its increments are applied and the loop goes on with the rest. */
  lemma DataLineApplied(parse: Parser, raw: string, rest: string, cs: seq<Choice>)
    requires '\n' !in raw && Classify(raw).Data?
    requires parse(Classify(raw).payload) == Some(cs) && Throws !in cs
    ensures Drain(parse, raw + "\n" + rest) == Then(Emitted(cs), Drain(parse, rest))
  {
    IndexOfTerminated(raw, '\n', rest);
    FirstLineApplied(parse, raw + "\n" + rest, |raw|, Classify(raw).payload);
  }

  // ---------------------------------------------------------------------
  // The whole stream, chunk by chunk.
  // ---------------------------------------------------------------------

  /** Feeding `a` and then `b` is feeding `a + b`. */
  lemma {:induction false} RunFromAppend(parse: Parser, st: State, a: seq<string>, b: seq<string>)
    ensures RunFrom(parse, st, a + b) == RunFrom(parse, RunFrom(parse, st, a), b)
    decreases |b|
  {
    if |b| == 0 {
      assert a + b == a;
    } else {
      var b' := b[..|b| - 1];
      assert (a + b)[..|a + b| - 1] == a + b';
      RunFromAppend(parse, st, a, b');
    }
  }

  /** Later chunks only append increments: applied updates are never undone. */
  lemma {:induction false} RunOnlyAppends(parse: Parser, st: State, chunks: seq<string>)
    ensures st.incs <= RunFrom(parse, st, chunks).incs
    decreases |chunks|
  {
    if |chunks| > 0 {
      RunOnlyAppends(parse, st, chunks[..|chunks| - 1]);
    }
  }

  /** The two accumulators are append-only over the whole stream: after
      more chunks, each is its earlier value followed by what was added. */
  lemma AccumulatorsOnlyGrow(parse: Parser, chunks: seq<string>, more: seq<string>)
    ensures var a := Run(parse, chunks).incs;
      var b := Run(parse, chunks + more).incs;
      a <= b
      && Reasonings(b) == Reasonings(a) + Reasonings(b[|a|..])
      && Answers(b) == Answers(a) + Answers(b[|a|..])
  {
    var a := Run(parse, chunks).incs;
    var b := Run(parse, chunks + more).incs;
    assert a <= b by {
      RunFromAppend(parse, State("", []), chunks, more);
      RunOnlyAppends(parse, Run(parse, chunks), more);
    }
    AccumulatorsOfPrefix(a, b);
  }

  /** The accumulators of a list split after one of its prefixes. */
  lemma AccumulatorsOfPrefix(a: seq<Increment>, b: seq<Increment>)
    requires a <= b
    ensures Reasonings(b) == Reasonings(a) + Reasonings(b[|a|..])
    ensures Answers(b) == Answers(a) + Answers(b[|a|..])
  {
    assert b == a + b[|a|..];
    AccumulatorsAppend(a, b[|a|..]);
  }

  /** `n` copies of `incs`, one after the other. */
  function Repeat(incs: seq<Increment>, n: nat): seq<Increment> {
    if n == 0 then [] else Repeat(incs, n - 1) + incs
  }

  /** Once stalled, the decoder stays stalled on the same line for every
      later chunk; each chunk re-applies exactly what that line's choices
      applied before the throw (nothing when `JSON.parse` itself threw). */
  lemma {:induction false} StalledForever(parse: Parser, st: State, chunks: seq<string>, p: string)
    requires StalledOn(parse, st.buffer, p)
    ensures StalledOn(parse, RunFrom(parse, st, chunks).buffer, p)
    ensures RunFrom(parse, st, chunks).incs == st.incs + Repeat(Replay(parse, p), |chunks|)
    decreases |chunks|
  {
    if |chunks| == 0 {
      assert st.incs + [] == st.incs;
    } else {
      StalledForever(parse, st, chunks[..|chunks| - 1], p);
      StalledOneMore(parse, st, chunks, p);
    }
  }

  /** The inductive step: one more chunk after a stalled run. */
  lemma StalledOneMore(parse: Parser, st: State, chunks: seq<string>, p: string)
    requires |chunks| > 0
    requires StalledOn(parse, RunFrom(parse, st, chunks[..|chunks| - 1]).buffer, p)
    requires RunFrom(parse, st, chunks[..|chunks| - 1]).incs
      == st.incs + Repeat(Replay(parse, p), |chunks| - 1)
    ensures StalledOn(parse, RunFrom(parse, st, chunks).buffer, p)
    ensures RunFrom(parse, st, chunks).incs == st.incs + Repeat(Replay(parse, p), |chunks|)
  {
    var mid := RunFrom(parse, st, chunks[..|chunks| - 1]);
    var r := Replay(parse, p);
    StalledStep(parse, mid, chunks[|chunks| - 1], p);
    Assoc(st.incs, Repeat(r, |chunks| - 1), r);
    RepeatSnoc(r, |chunks|);
  }

  /** One chunk fed to a stalled decoder. */
  lemma StalledStep(parse: Parser, st: State, c: string, p: string)
    requires StalledOn(parse, st.buffer, p)
    ensures StalledOn(parse, Step(parse, st, c).buffer, p)
    ensures Step(parse, st, c).incs == st.incs + Replay(parse, p)
  {
    StallRepeats(parse, st.buffer, c, p);
  }

  lemma RepeatSnoc(incs: seq<Increment>, n: nat)
    requires n > 0
    ensures Repeat(incs, n) == Repeat(incs, n - 1) + incs
  {
  }

  /** No copies of nothing. */
  lemma {:induction false} RepeatNothing(n: nat)
    ensures Repeat([], n) == []
  {
    if n > 0 {
      RepeatNothing(n - 1);
    }
  }

  /** The stream is its first `n` chunks followed by the rest. */
  lemma RunSplit(parse: Parser, chunks: seq<string>, n: nat)
    requires n <= |chunks|
    ensures Run(parse, chunks) == RunFrom(parse, Run(parse, chunks[..n]), chunks[n..])
  {
    assert chunks == chunks[..n] + chunks[n..];
    RunFromAppend(parse, State("", []), chunks[..n], chunks[n..]);
  }

  /** There is no retry limit: once a complete line's payload fails
      `JSON.parse` in chunk `k`, no later chunk applies anything, whatever
      it contains. */
  lemma FailureIsFinal(parse: Parser, chunks: seq<string>, k: nat, p: string)
    requires k < |chunks|
    requires Drain(parse, Run(parse, chunks[..k]).buffer + chunks[k]).stop == Stalled(p)
    requires parse(p) == None
    ensures Run(parse, chunks).incs == Run(parse, chunks[..k + 1]).incs
  {
    StalledAt(parse, chunks, k, p);
    var st := Run(parse, chunks[..k + 1]);
    RunSplit(parse, chunks, k + 1);
    StalledForever(parse, st, chunks[k + 1..], p);
    RepeatNothing(|chunks[k + 1..]|);
    assert st.incs + [] == st.incs;
  }

  /** The chunk on which a payload stalls leaves the decoder stalled on it. */
  lemma StalledAt(parse: Parser, chunks: seq<string>, k: nat, p: string)
    requires k < |chunks|
    requires Drain(parse, Run(parse, chunks[..k]).buffer + chunks[k]).stop == Stalled(p)
    ensures StalledOn(parse, Run(parse, chunks[..k + 1]).buffer, p)
  {
    RunPrefixStep(parse, chunks, k);
    DrainStalls(parse, Run(parse, chunks[..k]).buffer + chunks[k]);
  }

  /** A last chunk without a newline, on a buffer without one, is kept in
      the buffer and applies nothing: when the reader then reports `done`
      the unterminated line is dropped. */
  lemma TrailingPartialLineDropped(parse: Parser, chunks: seq<string>, t: string)
    requires '\n' !in Run(parse, chunks).buffer && '\n' !in t
    ensures Run(parse, chunks + [t]) == State(Run(parse, chunks).buffer + t, Run(parse, chunks).incs)
  {
    assert (chunks + [t])[..|chunks|] == chunks;
    var b := Run(parse, chunks).buffer;
    assert '\n' !in b + t by {
      forall k | 0 <= k < |b + t| ensures (b + t)[k] != '\n' {
        if k < |b| { assert (b + t)[k] == b[k]; } else { assert (b + t)[k] == t[k - |b|]; }
      }
    }
    assert Run(parse, chunks).incs + [] == Run(parse, chunks).incs;
  }

  /** A `data: [DONE]` line followed by a data line in the same chunk:
      the data line is left in the buffer and lost when the reader finishes. */
  lemma SentinelThenLineLost(parse: Parser, done: string, line: string)
    requires '\n' !in done && StartsWith(StripCR(done), DataPrefix)
    requires Trim(StripCR(done)[|DataPrefix|..]) == Sentinel
    ensures Run(parse, [done + "\n" + line + "\n"]).incs == []
  {
    RunSingle(parse, done + "\n" + line + "\n");
    StringAssoc(done + "\n", line, "\n");
    SentinelEndsChunk(parse, done, line + "\n");
  }

  /** A chunk holding only the `[DONE]` line leaves an empty buffer. */
  lemma SentinelAloneEndsEmpty(parse: Parser, done: string)
    requires '\n' !in done && StartsWith(StripCR(done), DataPrefix)
    requires Trim(StripCR(done)[|DataPrefix|..]) == Sentinel
    ensures Run(parse, [done + "\n"]) == State("", [])
  {
    RunSingle(parse, done + "\n");
    assert done + "\n" == done + "\n" + "";
    SentinelEndsChunk(parse, done, "");
  }

  /** A first chunk that leaves the decoder as it started makes no
      difference to the second. */
  lemma RunAfterReset(parse: Parser, a: string, b: string)
    requires Run(parse, [a]) == State("", [])
    ensures Run(parse, [a, b]) == Run(parse, [b])
  {
    RunSnoc(parse, [a], b);
    RunSnoc(parse, [], b);
    assert [a] + [b] == [a, b];
    assert [] + [b] == [b];
  }

  /** A lone complete `data: ` line whose choices do not throw applies them all. */
  lemma LineAloneApplied(parse: Parser, line: string, cs: seq<Choice>)
    requires '\n' !in line && Classify(line).Data?
    requires parse(Classify(line).payload) == Some(cs) && Throws !in cs
    ensures Drain(parse, line + "\n").incs == Emitted(cs)
  {
    DataLineApplied(parse, line, "", cs);
    assert line + "\n" + "" == line + "\n";
    assert Drain(parse, "") == Drained("", [], NeedMore);
    assert Emitted(cs) + [] == Emitted(cs);
  }

  /** The same data line arriving in the next chunk is extracted and applied. */
  lemma SentinelThenLineApplied(parse: Parser, done: string, line: string, cs: seq<Choice>)
    requires '\n' !in done && StartsWith(StripCR(done), DataPrefix)
    requires Trim(StripCR(done)[|DataPrefix|..]) == Sentinel
    requires '\n' !in line && Classify(line).Data?
    requires parse(Classify(line).payload) == Some(cs) && Throws !in cs
    ensures Run(parse, [done + "\n", line + "\n"]).incs == Emitted(cs)
  {
    SentinelAloneEndsEmpty(parse, done);
    RunAfterReset(parse, done + "\n", line + "\n");
    RunSingle(parse, line + "\n");
    LineAloneApplied(parse, line, cs);
  }

  /** The condition under which chunk boundaries do not matter: no newline
      follows the `[DONE]` line, and a line that fails applies nothing when
      it is extracted again. */
  predicate ChunkSafe(parse: Parser, text: string) {
    var d := Drain(parse, text);
    match d.stop
    case NeedMore => true
    case Finished => '\n' !in d.rest
    case Stalled(p) => Replay(parse, p) == []
  }

  /** Splitting the text before or after `k` chunks. */
  lemma {:induction false} ConcatAppend(a: seq<string>, b: seq<string>)
    ensures Concat(a + b) == Concat(a) + Concat(b)
    decreases |b|
  {
    if |b| == 0 {
      assert a + b == a;
    } else {
      var b' := b[..|b| - 1];
      assert (a + b)[..|a + b| - 1] == a + b';
      ConcatAppend(a, b');
    }
  }

  /** The decoder state `st` agrees with one pass `d` over the text so
      far: the same increments, and the same buffer (up to the `\r`s of a
      stalled line, whose payload is the same). */
  predicate Tracks(parse: Parser, st: State, d: Drained) {
    st.incs == d.incs
    && (if d.stop.Stalled? then StalledOn(parse, st.buffer, d.stop.payload) else st.buffer == d.rest)
  }

  /** The chunk-by-chunk state stays in step with one pass over the text
      when the text, including what arrives later, is chunk safe. */
  lemma TracksStep(parse: Parser, st: State, s: string, c: string, later: string)
    requires Tracks(parse, st, Drain(parse, s))
    requires ChunkSafe(parse, s + c + later)
    ensures Tracks(parse, Step(parse, st, c), Drain(parse, s + c))
  {
    var d0 := Drain(parse, s);
    DrainAppend(parse, s, c);
    DrainAppend(parse, s + c, later);
    var d1 := Drain(parse, s + c);
    match d0.stop
    case NeedMore =>
      DrainStalls(parse, d0.rest + c);
    case Finished =>
      assert '\n' !in d1.rest by {
        var whole := d1.rest + later;
        forall m | 0 <= m < |d1.rest| ensures d1.rest[m] != '\n' {
          assert whole[m] == d1.rest[m];
        }
      }
      assert Drain(parse, st.buffer + c) == Drained(st.buffer + c, [], NeedMore);
      assert st.incs + [] == st.incs;
    case Stalled(p) =>
      StallRepeats(parse, st.buffer, c, p);
      assert st.incs + [] == st.incs;
  }

  /** Chunk by chunk, the decoder applies exactly what one pass over the
      text received so far applies, and its buffer is that pass's buffer
      (up to the `\r`s of a stalled line). */
  lemma {:induction false} RunTracksDrain(parse: Parser, chunks: seq<string>, k: nat)
    requires k <= |chunks| && ChunkSafe(parse, Concat(chunks))
    ensures Tracks(parse, Run(parse, chunks[..k]), Drain(parse, Concat(chunks[..k])))
    decreases k
  {
    if k == 0 {
      assert chunks[..0] == [];
      assert Drain(parse, "") == Drained("", [], NeedMore);
    } else {
      RunTracksDrain(parse, chunks, k - 1);
      RunPrefixStep(parse, chunks, k - 1);
      ConcatPrefix(chunks, k);
      TracksStep(parse, Run(parse, chunks[..k - 1]), Concat(chunks[..k - 1]), chunks[k - 1], Concat(chunks[k..]));
    }
  }

  /** The text of the first `k` chunks, by its last chunk, and as the start
      of the whole text. */
  lemma ConcatPrefix(chunks: seq<string>, k: nat)
    requires 0 < k <= |chunks|
    ensures Concat(chunks[..k]) == Concat(chunks[..k - 1]) + chunks[k - 1]
    ensures Concat(chunks) == Concat(chunks[..k]) + Concat(chunks[k..])
  {
    assert chunks[..k][..k - 1] == chunks[..k - 1];
    ConcatSplit(chunks, k);
  }

  lemma ConcatSplit(chunks: seq<string>, k: nat)
    requires k <= |chunks|
    ensures Concat(chunks) == Concat(chunks[..k]) + Concat(chunks[k..])
  {
    assert chunks == chunks[..k] + chunks[k..];
    ConcatAppend(chunks[..k], chunks[k..]);
  }

  /** Chunk boundaries do not matter when no line follows `[DONE]` and a
      failing line applies nothing: feeding the chunks one by one applies
      exactly what feeding their concatenation as one chunk applies. */
  lemma ChunkingInvariance(parse: Parser, chunks: seq<string>)
    requires ChunkSafe(parse, Concat(chunks))
    ensures Run(parse, chunks).incs == Run(parse, [Concat(chunks)]).incs
  {
    RunTracksDrain(parse, chunks, |chunks|);
    assert chunks[..|chunks|] == chunks;
    RunSingle(parse, Concat(chunks));
  }

  /** Two splittings of the same text end with the same `thinkingContent`
      and `assistantContent`. */
  lemma SameTextSameResult(parse: Parser, a: seq<string>, b: seq<string>)
    requires Concat(a) == Concat(b) && ChunkSafe(parse, Concat(a))
    ensures Reasonings(Run(parse, a).incs) == Reasonings(Run(parse, b).incs)
    ensures Answers(Run(parse, a).incs) == Answers(Run(parse, b).incs)
  {
    ChunkingInvariance(parse, a);
    ChunkingInvariance(parse, b);
  }

  /** A skipped line anywhere at a line boundary of the text changes
      nothing that is applied. */
  lemma SkippedLineInvisible(parse: Parser, a: string, raw: string, b: string)
    requires a == "" || a[|a| - 1] == '\n'
    requires '\n' !in raw && IsSkippedLine(raw)
    ensures Drain(parse, a + raw + "\n" + b).incs == Drain(parse, a + b).incs
  {
    var tail := raw + "\n" + b;
    StringAssoc(a, raw, "\n");
    StringAssoc(a, raw + "\n", b);
    DrainAppend(parse, a, tail);
    DrainAppend(parse, a, b);
    var d := Drain(parse, a);
    if d.stop == NeedMore {
      LineBoundaryEmptied(parse, a);
      assert "" + tail == tail && "" + b == b;
      SkippedLineIgnored(parse, raw, b);
    }
  }

  /** Text ending at a line boundary leaves nothing behind when it stops
      for want of a newline. */
  lemma LineBoundaryEmptied(parse: Parser, a: string)
    requires a == "" || a[|a| - 1] == '\n'
    ensures Drain(parse, a).stop == NeedMore ==> Drain(parse, a).rest == ""
  {
    if a != "" {
      TerminatedBufferEmptied(parse, a);
    }
  }
}
