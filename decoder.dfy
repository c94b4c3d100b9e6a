/** The decode loop of `streamResponse` in src/pages/Chat.tsx, written as
    the code runs it: a carry buffer and two accumulators reassigned step by
    step in nested loops with `break`s, and the shown message list updated
    after every increment. Each method is proved against the functions of
    module `Sse`, whose properties are proved there. */
module Decoding {
  import opened Common
  import opened Text
  import opened Sse
  import opened ChatPage

  /** The local state of one `streamResponse` call while the reply streams in. */
  class StreamDecoder {
    /** `JSON.parse` and the `choices` lookup. */
    const parse: Parser
    /** The `crypto.randomUUID()` of the reply being streamed. */
    const assistantId: string
    /** The messages shown before the placeholder was appended. */
    ghost const shownBefore: seq<Message>

    var buffer: string
    /** `thinkingContent`. */
    var thinking: string
    /** `assistantContent`. */
    var content: string
    /** The shown message list, as the `setMessages` updates leave it. */
    var messages: seq<Message>
    /** Every increment applied so far. */
    ghost var incs: seq<Increment>

    /** The accumulators are the increments so far, and the shown list is
        the earlier messages followed by the reply showing them. */
    ghost predicate Valid()
      reads this`thinking, this`content, this`messages, this`incs
    {
      thinking == Reasonings(incs) && content == Answers(incs)
      && messages == Streaming(shownBefore, assistantId, content, thinking)
    }

    /** The start of the decode: an empty buffer and accumulators, and the
        empty assistant message appended to the shown list. The id is a
        fresh random UUID, so no shown message carries it. */
    constructor(parse: Parser, assistantId: string, shown: seq<Message>)
      requires forall m :: m in shown ==> m.id != assistantId
      ensures this.parse == parse && this.assistantId == assistantId && shownBefore == shown
      ensures buffer == "" && incs == [] && Valid()
      ensures messages == shown + [Message(assistantId, Assistant, "", Some(""))]
    {
      this.parse := parse;
      this.assistantId := assistantId;
      shownBefore := shown;
      buffer := "";
      thinking := "";
      content := "";
      messages := shown + [Message(assistantId, Assistant, "", Some(""))];
      incs := [];
      new;
      StreamingStartsEmpty(shown, assistantId);
    }

    /** A truthy `delta.reasoning_content`: extend `thinkingContent` and show it. */
    method AddReasoning(r: string)
      requires Valid() && r != ""
      modifies this`thinking, this`content, this`messages, this`incs
      ensures Valid() && incs == old(incs) + [Reasoning(r)]
    {
      thinking := thinking + r;
      messages := SetThinking(messages, assistantId, thinking);
      incs := incs + [Reasoning(r)];
      AccumulatorsSnoc(old(incs), Reasoning(r));
      StreamingUpdates(shownBefore, assistantId, content, old(thinking), thinking, content);
    }

    /** A truthy `delta.content`: extend `assistantContent` and show it. */
    method AddAnswer(c: string)
      requires Valid() && c != ""
      modifies this`thinking, this`content, this`messages, this`incs
      ensures Valid() && incs == old(incs) + [Answer(c)]
    {
      content := content + c;
      messages := SetContent(messages, assistantId, content);
      incs := incs + [Answer(c)];
      AccumulatorsSnoc(old(incs), Answer(c));
      StreamingUpdates(shownBefore, assistantId, old(content), thinking, thinking, content);
    }

    /** One choice's `delta`: its reasoning first, then its content. */
    method ApplyDelta(r: string, c: string)
      requires Valid()
      modifies this`thinking, this`content, this`messages, this`incs
      ensures Valid() && incs == old(incs) + DeltaIncrements(r, c)
    {
      if r != "" {
        AddReasoning(r);
      }
      if c != "" {
        AddAnswer(c);
      }
    }

    /** The `for (const choice of choices)` loop. It reports whether a
        choice threw, after applying the choices before it. */
    method ApplyChoices(cs: seq<Choice>) returns (threw: bool)
      requires Valid()
      modifies this`thinking, this`content, this`messages, this`incs
      ensures Valid()
      ensures threw == (Throws in cs) && incs == old(incs) + Emitted(cs)
    {
      var j := 0;
      ghost var applied: seq<Increment> := [];
      while j < |cs|
        invariant 0 <= j <= |cs|
        invariant Valid()
        invariant forall k :: 0 <= k < j ==> cs[k] != Throws
        invariant incs == old(incs) + applied
        invariant Emitted(cs) == applied + Emitted(cs[j..])
      {
        EmittedFrom(cs, j);
        match cs[j]
        case Throws =>
          assert cs[j] in cs;
          assert applied + [] == applied;
          return true;
        case Delta(r, c) =>
          ApplyDelta(r, c);
          Assoc(old(incs), applied, DeltaIncrements(r, c));
          Assoc(applied, DeltaIncrements(r, c), Emitted(cs[j + 1..]));
          applied := applied + DeltaIncrements(r, c);
          j := j + 1;
      }
      assert applied + [] == applied;
      return false;
    }

    /** The `try` block for one payload: parse it and apply its choices.
        `failed` is whether control reached the `catch`. */
    method TryPayload(jsonStr: string) returns (failed: bool)
      requires Valid()
      modifies this`thinking, this`content, this`messages, this`incs
      ensures Valid()
      ensures failed == Fails(parse, jsonStr) && incs == old(incs) + Replay(parse, jsonStr)
    {
      var parsed := parse(jsonStr);
      if parsed.None? {
        assert incs + [] == incs;
        return true;
      }
      failed := ApplyChoices(parsed.value);
    }

    /** One pass of the inner `while` loop, with a newline at
        `newlineIndex`: cut off the line and handle it. `stop` is whether the
        loop breaks (on `[DONE]` or in the `catch`); `applied` is what the
        line added to the accumulators. The checks on the line (the `\r`
        strip, comments and blank lines, the `data: ` prefix, `[DONE]`) are
        those of `Classify`. */
    method TakeLine(newlineIndex: int) returns (stop: bool, ghost applied: seq<Increment>)
      requires Valid() && newlineIndex == IndexOf(buffer, '\n') && newlineIndex != -1
      modifies this
      ensures Valid() && incs == old(incs) + applied
      ensures LineStep(stop, buffer, applied) == HandleLine(parse, old(buffer), newlineIndex)
    {
      var line := buffer[..newlineIndex];
      buffer := buffer[newlineIndex + 1..];
      applied := [];
      match Classify(line)
      case Ignored =>
        assert incs + [] == incs;
        return false, applied;
      case Done =>
        assert incs + [] == incs;
        return true, applied;
      case Data(jsonStr) =>
        applied := Replay(parse, jsonStr);
        var failed := TryPayload(jsonStr);
        if failed {
          buffer := StripCR(line) + "\n" + buffer;
          return true, applied;
        }
        return false, applied;
    }

    /** One chunk of the outer `while (reader)` loop: append it to the
        buffer, then cut off and handle complete lines until none is left,
        `[DONE]` is seen, or a line fails and is pushed back. */
    method Feed(chunk: string)
      requires Valid()
      modifies this
      ensures Valid()
      ensures State(buffer, incs) == Step(parse, State(old(buffer), old(incs)), chunk)
    {
      buffer := buffer + chunk;
      ghost var goal := Drain(parse, buffer);
      ghost var applied: seq<Increment> := [];
      assert [] + goal.incs == goal.incs;
      assert incs + [] == incs;
      var newlineIndex := IndexOf(buffer, '\n');
      while newlineIndex != -1
        invariant Valid()
        invariant newlineIndex == IndexOf(buffer, '\n')
        invariant incs == old(incs) + applied
        invariant goal == Then(applied, Drain(parse, buffer))
        decreases |buffer|
      {
        ghost var before, a0 := buffer, applied;
        var stop;
        ghost var more;
        DrainByLine(parse, buffer);
        stop, more := TakeLine(newlineIndex);
        applied := a0 + more;
        Assoc(old(incs), a0, more);
        if stop {
          break;
        }
        Assoc(a0, more, Drain(parse, buffer).incs);
        newlineIndex := IndexOf(buffer, '\n');
      }
      assert goal.rest == buffer && goal.incs == applied;
    }
  }

  /** `streamResponse` from the request to the stored reply. The history
      sent is `history`, the messages as they were when the send began,
      while the shown list `shown` is what the updates extend; the body is
      read as `chunks` of already decoded text, and the stored row is
      returned instead of inserted. */
  method StreamResponse(parse: Parser, history: seq<Message>, shown: seq<Message>, message: string,
                        conversationId: string, assistantId: string, chunks: seq<string>)
    returns (request: seq<ApiMessage>, ui: seq<Message>, saved: Option<Row>)
    requires forall m :: m in shown ==> m.id != assistantId
    ensures request == History(history, message)
    ensures var st := Run(parse, chunks);
      ui == shown + [Message(assistantId, Assistant, Answers(st.incs), Some(Reasonings(st.incs)))]
      && saved == Persist(conversationId, Answers(st.incs))
  {
    request := History(history, message);
    var decoder := new StreamDecoder(parse, assistantId, shown);
    var i := 0;
    while i < |chunks|
      invariant 0 <= i <= |chunks|
      invariant decoder.Valid()
      invariant decoder.parse == parse && decoder.assistantId == assistantId
      invariant decoder.shownBefore == shown
      invariant State(decoder.buffer, decoder.incs) == Run(parse, chunks[..i])
    {
      decoder.Feed(chunks[i]);
      RunPrefixStep(parse, chunks, i);
      i := i + 1;
    }
    assert chunks[..i] == chunks;
    StreamingShowsOnlyReply(shown, assistantId, decoder.content, decoder.thinking);
    ui := decoder.messages;
    saved := Persist(conversationId, decoder.content);
  }
}
