/** The message-list and string helpers of src/pages/Chat.tsx: what is
    sent as history, the conversation title, the clean-up after a failed
    send, the per-id updates made while streaming, the persist guard, and
    regenerate's cut. All of them are pure expressions over the list. */
module ChatPage {
  import opened Common
  import opened Text

  /** A message shown in the chat. `thinking` is absent on messages loaded
      from storage and on user messages. */
  datatype Message = Message(id: string, role: Role, content: string, thinking: Option<string>)

  /** A row inserted into the `messages` table. */
  datatype Row = Row(conversationId: string, role: Role, content: string)

  // ---------------------------------------------------------------------
  // The history sent with a request.
  // ---------------------------------------------------------------------

  /** The messages with non-empty content, reduced to role and content. */
  function Sent(msgs: seq<Message>): (r: seq<ApiMessage>)
    ensures |r| <= |msgs|
    ensures forall k :: 0 <= k < |r| ==> r[k].content != ""
    ensures (forall k :: 0 <= k < |msgs| ==> msgs[k].content != "") ==>
      |r| == |msgs| && forall k :: 0 <= k < |r| ==> r[k] == ApiMessage(msgs[k].role, msgs[k].content)
  {
    if |msgs| == 0 then []
    else
      var last := msgs[|msgs| - 1];
      var init := Sent(msgs[..|msgs| - 1]);
      if last.content != "" then init + [ApiMessage(last.role, last.content)] else init
  }

  /** `apiMessages`: the earlier messages with empty ones filtered out,
      then the new user message. */
  function History(msgs: seq<Message>, message: string): (r: seq<ApiMessage>)
    ensures |r| >= 1 && r[|r| - 1] == ApiMessage(User, message)
    ensures r[..|r| - 1] == Sent(msgs)
  {
    Sent(msgs) + [ApiMessage(User, message)]
  }

  /** Filtering keeps the order of the list: the history of two runs of
      messages is the history of the first followed by that of the second. */
  lemma {:induction false} SentAppend(a: seq<Message>, b: seq<Message>)
    ensures Sent(a + b) == Sent(a) + Sent(b)
    decreases |b|
  {
    if |b| == 0 {
      assert a + b == a;
    } else {
      var b' := b[..|b| - 1];
      assert (a + b)[..|a + b| - 1] == a + b';
      SentAppend(a, b');
    }
  }

  /** A message is sent exactly when its content is non-empty. */
  lemma {:induction false} SentMembership(msgs: seq<Message>, a: ApiMessage)
    ensures a in Sent(msgs) <==> a.content != "" && exists m :: m in msgs && a == ApiMessage(m.role, m.content)
    decreases |msgs|
  {
    if |msgs| > 0 {
      var init := msgs[..|msgs| - 1];
      var last := msgs[|msgs| - 1];
      SentMembership(init, a);
      assert msgs == init + [last];
      if a.content != "" && a == ApiMessage(last.role, last.content) {
        assert last in msgs;
      }
      if exists m :: m in msgs && a == ApiMessage(m.role, m.content) {
        var m :| m in msgs && a == ApiMessage(m.role, m.content);
        if m != last {
          assert m in init;
        }
      }
    }
  }

  // ---------------------------------------------------------------------
  // The conversation title.
  // ---------------------------------------------------------------------

  const TitleLength := 50

  /** The first 50 characters of the first message, with `...` when it was longer. */
  function Title(message: string): (t: string)
    ensures |message| <= TitleLength ==> t == message
    ensures |message| > TitleLength ==>
      |t| == TitleLength + 3 && StartsWith(message, t[..TitleLength]) && t[TitleLength..] == "..."
  {
    message[..if |message| < TitleLength then |message| else TitleLength]
    + (if |message| > TitleLength then "..." else "")
  }

  /** The title stored with a send: only for a stored conversation, and
      only when no message was shown before this one. */
  function NewTitle(conversationId: string, shown: seq<Message>, message: string): (t: Option<string>)
    ensures t.Some? <==> conversationId != "" && |shown| == 0
    ensures t.Some? ==> t.value == Title(message)
  {
    if conversationId != "" && |shown| == 0 then Some(Title(message)) else None
  }

  // ---------------------------------------------------------------------
  // Clean-up after a failed send.
  // ---------------------------------------------------------------------

  /** A message survives the clean-up unless it is an assistant message
      with empty content. */
  predicate Survives(m: Message) {
    m.role != Assistant || m.content != ""
  }

  /** The list after a failed send: empty assistant messages are removed. */
  function KeepAfterError(prev: seq<Message>): (r: seq<Message>)
    ensures |r| <= |prev|
    ensures forall m :: m in r <==> m in prev && Survives(m)
  {
    if |prev| == 0 then []
    else
      var last := prev[|prev| - 1];
      var init := KeepAfterError(prev[..|prev| - 1]);
      assert prev == prev[..|prev| - 1] + [last];
      if Survives(last) then init + [last] else init
  }

  /** A list where every message survives is left as it is. */
  lemma {:induction false} KeepAfterErrorFixes(prev: seq<Message>)
    requires forall m :: m in prev ==> Survives(m)
    ensures KeepAfterError(prev) == prev
    decreases |prev|
  {
    if |prev| > 0 {
      var init := prev[..|prev| - 1];
      forall m | m in init ensures Survives(m) {
        assert m in prev;
      }
      KeepAfterErrorFixes(init);
      assert prev[|prev| - 1] in prev;
    }
  }

  /** The clean-up keeps the order: it works run by run. */
  lemma {:induction false} KeepAfterErrorAppend(a: seq<Message>, b: seq<Message>)
    ensures KeepAfterError(a + b) == KeepAfterError(a) + KeepAfterError(b)
    decreases |b|
  {
    if |b| == 0 {
      assert a + b == a;
    } else {
      var b' := b[..|b| - 1];
      assert (a + b)[..|a + b| - 1] == a + b';
      KeepAfterErrorAppend(a, b');
    }
  }

  // ---------------------------------------------------------------------
  // Updates made while streaming.
  // ---------------------------------------------------------------------

  /** `prev.map(m => m.id === id ? { ...m, thinking: t } : m)`. */
  function SetThinking(prev: seq<Message>, id: string, t: string): (r: seq<Message>)
    ensures |r| == |prev|
    ensures forall k :: 0 <= k < |r| ==>
      (r[k].id == prev[k].id && r[k].role == prev[k].role && r[k].content == prev[k].content)
    ensures forall k :: 0 <= k < |r| ==> if prev[k].id == id then r[k].thinking == Some(t) else r[k] == prev[k]
  {
    seq(|prev|, k requires 0 <= k < |prev| => if prev[k].id == id then prev[k].(thinking := Some(t)) else prev[k])
  }

  /** `prev.map(m => m.id === id ? { ...m, content: c } : m)`. */
  function SetContent(prev: seq<Message>, id: string, c: string): (r: seq<Message>)
    ensures |r| == |prev|
    ensures forall k :: 0 <= k < |r| ==>
      (r[k].id == prev[k].id && r[k].role == prev[k].role && r[k].thinking == prev[k].thinking)
    ensures forall k :: 0 <= k < |r| ==> if prev[k].id == id then r[k].content == c else r[k] == prev[k]
  {
    seq(|prev|, k requires 0 <= k < |prev| => if prev[k].id == id then prev[k].(content := c) else prev[k])
  }

  /** A later update of the same field replaces an earlier one. */
  lemma SetOverwrites(prev: seq<Message>, id: string, a: string, b: string)
    ensures SetThinking(SetThinking(prev, id, a), id, b) == SetThinking(prev, id, b)
    ensures SetContent(SetContent(prev, id, a), id, b) == SetContent(prev, id, b)
  {
  }

  /** The two kinds of update touch different fields, so their order does not matter. */
  lemma SetCommute(prev: seq<Message>, id: string, t: string, c: string)
    ensures SetThinking(SetContent(prev, id, c), id, t) == SetContent(SetThinking(prev, id, t), id, c)
  {
  }

  /** The message list while a reply streams in: the assistant message
      with id `id` placed after `prev`, showing the text so far. */
  function Streaming(prev: seq<Message>, id: string, content: string, thinking: string): seq<Message> {
    SetContent(SetThinking(prev + [Message(id, Assistant, "", Some(""))], id, thinking), id, content)
  }

  /** When no earlier message has the id, only the new assistant message
      shows the streamed text, and everything before it is unchanged. */
  lemma StreamingShowsOnlyReply(prev: seq<Message>, id: string, content: string, thinking: string)
    requires forall m :: m in prev ==> m.id != id
    ensures Streaming(prev, id, content, thinking) == prev + [Message(id, Assistant, content, Some(thinking))]
  {
    var s := Streaming(prev, id, content, thinking);
    forall k | 0 <= k < |prev| ensures s[k] == prev[k] {
      assert prev[k] in prev;
    }
  }

  /** The placeholder appended before the first chunk is the streaming
      list with nothing received yet. */
  lemma StreamingStartsEmpty(prev: seq<Message>, id: string)
    requires forall m :: m in prev ==> m.id != id
    ensures Streaming(prev, id, "", "") == prev + [Message(id, Assistant, "", Some(""))]
  {
    StreamingShowsOnlyReply(prev, id, "", "");
  }

  /** Each update of the streaming list replaces one of the two texts. */
  lemma StreamingUpdates(prev: seq<Message>, id: string, content: string, thinking: string, t: string, c: string)
    ensures SetThinking(Streaming(prev, id, content, thinking), id, t) == Streaming(prev, id, content, t)
    ensures SetContent(Streaming(prev, id, content, thinking), id, c) == Streaming(prev, id, c, thinking)
  {
    var base := prev + [Message(id, Assistant, "", Some(""))];
    SetCommute(SetThinking(base, id, thinking), id, t, content);
    SetOverwrites(base, id, thinking, t);
    SetOverwrites(SetThinking(base, id, thinking), id, content, c);
  }

  // ---------------------------------------------------------------------
  // Storing the reply.
  // ---------------------------------------------------------------------

  /** The assistant row stored once the stream ends. */
  function Persist(conversationId: string, content: string): (r: Option<Row>)
    ensures r.Some? <==> conversationId != "" && content != ""
    ensures r.Some? ==> r.value == Row(conversationId, Assistant, content)
  {
    if conversationId != "" && content != "" then Some(Row(conversationId, Assistant, content)) else None
  }

  // ---------------------------------------------------------------------
  // Regenerate.
  // ---------------------------------------------------------------------

  /** `[...s].reverse()`. */
  function Reverse(s: seq<Message>): (r: seq<Message>)
    ensures |r| == |s|
    ensures forall k :: 0 <= k < |s| ==> r[k] == s[|s| - 1 - k]
  {
    if |s| == 0 then [] else [s[|s| - 1]] + Reverse(s[..|s| - 1])
  }

  /** `findIndex(m => m.role === "assistant")`. */
  function FindAssistant(s: seq<Message>): (i: int)
    ensures -1 <= i < |s|
    ensures i == -1 <==> forall k :: 0 <= k < |s| ==> s[k].role != Assistant
    ensures i >= 0 ==> s[i].role == Assistant && forall k :: 0 <= k < i ==> s[k].role != Assistant
  {
    if |s| == 0 then -1
    else if s[0].role == Assistant then 0
    else
      var j := FindAssistant(s[1..]);
      if j == -1 then -1 else j + 1
  }

  /** Regenerate's edit: the list cut just before its last assistant
      message, or the list itself when it has none. */
  function CutForRegenerate(prev: seq<Message>): seq<Message> {
    var ri := FindAssistant(Reverse(prev));
    if ri != -1 then prev[..|prev| - 1 - ri] else prev
  }

  /** The cut removes the last assistant message and everything after it,
      and nothing else; with no assistant message the list is unchanged. */
  lemma CutRemovesLastReply(prev: seq<Message>)
    ensures var r := CutForRegenerate(prev);
      if exists k :: 0 <= k < |prev| && prev[k].role == Assistant then
        |r| < |prev| && r == prev[..|r|] && prev[|r|].role == Assistant
        && forall k :: |r| < k < |prev| ==> prev[k].role != Assistant
      else r == prev
  {
    if exists k :: 0 <= k < |prev| && prev[k].role == Assistant {
      var k :| 0 <= k < |prev| && prev[k].role == Assistant;
      CutWithReply(prev, k);
    } else {
      CutWithoutReply(prev);
    }
  }

  lemma CutWithReply(prev: seq<Message>, k: nat)
    requires k < |prev| && prev[k].role == Assistant
    ensures var r := CutForRegenerate(prev);
      |r| < |prev| && r == prev[..|r|] && prev[|r|].role == Assistant
      && forall m :: |r| < m < |prev| ==> prev[m].role != Assistant
  {
    var rev := Reverse(prev);
    assert rev[|prev| - 1 - k] == prev[k];
    var n := |prev| - 1 - FindAssistant(rev);
    forall m | n < m < |prev| ensures prev[m].role != Assistant {
      assert rev[|prev| - 1 - m] == prev[m];
    }
  }

  lemma CutWithoutReply(prev: seq<Message>)
    requires forall k :: 0 <= k < |prev| ==> prev[k].role != Assistant
    ensures CutForRegenerate(prev) == prev
  {
    var rev := Reverse(prev);
    forall m | 0 <= m < |rev| ensures rev[m].role != Assistant {
      assert rev[m] == prev[|prev| - 1 - m];
    }
  }

  /** The cut never lengthens the list, and leaves it as it is exactly
      when it holds no assistant message. */
  lemma CutShrinks(prev: seq<Message>)
    ensures |CutForRegenerate(prev)| <= |prev|
    ensures CutForRegenerate(prev) == prev <==> forall k :: 0 <= k < |prev| ==> prev[k].role != Assistant
  {
    CutRemovesLastReply(prev);
  }
}
