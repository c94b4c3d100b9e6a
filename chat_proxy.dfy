/** The request shaping and response mapping of the chat proxy,
    supabase/functions/chat/index.ts: which text is searched for, how search
    results become a context appended to the last message, the body sent to
    the model, and the response returned for each upstream outcome. The
    search and completion calls themselves are parameters. */
module ChatProxy {
  import opened Common
  import opened Text

  const Model := "glm-4.7"

  const SystemPrompt := "你是 Z.ai，一个由智谱AI创建的智能、友好的AI助手。\n你可以帮助用户完成各种任务，包括：\n- 回答问题和提供信息\n- 帮助写作、编程和创意任务\n- 分析和解释复杂话题\n- 提供建议和推荐\n\n请始终保持专业而友好的语气，提供准确有用的回答。"

  /** One element of the search API's `search_result`. */
  datatype SearchResult = SearchResult(title: string, content: string, link: string)

  // ---------------------------------------------------------------------
  // Web search.
  // ---------------------------------------------------------------------

  /** The text searched for: the last message's content, "" without messages. */
  function SearchQuery(msgs: seq<ApiMessage>): (q: string)
    ensures |msgs| == 0 ==> q == ""
    ensures |msgs| > 0 ==> q == msgs[|msgs| - 1].content
  {
    if |msgs| == 0 then "" else msgs[|msgs| - 1].content
  }

  const ContextHeader := "\n\n【网络搜索结果】\n"
  const EntrySeparator := "\n\n"

  /** One numbered search result; `n` counts from 1. */
  function Entry(n: nat, r: SearchResult): (e: string)
    ensures StartsWith(e, Decimal(n) + ". ")
  {
    var head := Decimal(n) + ". ";
    var e := head + r.title + "\n" + r.content + "\n来源: " + r.link;
    assert e[..|head|] == head;
    e
  }

  /** The results numbered `1..n` in order. */
  function Entries(rs: seq<SearchResult>): (es: seq<string>)
    ensures |es| == |rs|
    ensures forall i :: 0 <= i < |rs| ==> es[i] == Entry(i + 1, rs[i])
  {
    seq(|rs|, i requires 0 <= i < |rs| => Entry(i + 1, rs[i]))
  }

  /** `searchContext`. `found` is `None` when the search call failed
      (an error status or a thrown error, both only logged), and otherwise
      the returned `search_result`, `[]` standing for a missing one. */
  function SearchContext(search: bool, found: Option<seq<SearchResult>>): (ctx: string)
    ensures ctx != "" <==> search && found.Some? && |found.value| > 0
    ensures ctx != "" ==>
      StartsWith(ctx, ContextHeader) && StartsWith(ctx[|ContextHeader|..], "1. ")
    ensures search && found.Some? && |found.value| == 1 ==> ctx == ContextHeader + Entry(1, found.value[0])
  {
    if search && found.Some? && |found.value| > 0 then
      var body := Join(EntrySeparator, Entries(found.value));
      var ctx := ContextHeader + body;
      assert ctx[..|ContextHeader|] == ContextHeader && ctx[|ContextHeader|..] == body;
      assert Decimal(1) == "1";
      assert body[..3] == Entries(found.value)[0][..3];
      ctx
    else ""
  }

  /** Joining one more part adds the separator and that part at the end. */
  lemma {:induction false} JoinSnoc(sep: string, parts: seq<string>, p: string)
    requires |parts| > 0
    ensures Join(sep, parts + [p]) == Join(sep, parts) + sep + p
    decreases |parts|
  {
    if |parts| == 1 {
      assert parts + [p] == [parts[0], p];
      assert [parts[0], p][1..] == [p];
    } else {
      assert (parts + [p])[1..] == parts[1..] + [p];
      JoinSnoc(sep, parts[1..], p);
    }
  }

  /** One more search result adds one more numbered entry at the end of the context. */
  lemma ContextGrows(rs: seq<SearchResult>, r: SearchResult)
    requires |rs| > 0
    ensures SearchContext(true, Some(rs + [r]))
         == SearchContext(true, Some(rs)) + EntrySeparator + Entry(|rs| + 1, r)
  {
    EntriesSnoc(rs, r);
    JoinSnoc(EntrySeparator, Entries(rs), Entry(|rs| + 1, r));
  }

  lemma EntriesSnoc(rs: seq<SearchResult>, r: SearchResult)
    ensures Entries(rs + [r]) == Entries(rs) + [Entry(|rs| + 1, r)]
  {
    var a, b := Entries(rs + [r]), Entries(rs) + [Entry(|rs| + 1, r)];
    forall i | 0 <= i < |a| ensures a[i] == b[i] {
      if i < |rs| {
        assert (rs + [r])[i] == rs[i];
      }
    }
  }

  /** The `i`-th entry (from 0) opens with a numeral that reads back as
      `i + 1`, followed by `. `. */
  lemma EntriesNumbered(rs: seq<SearchResult>, i: nat)
    requires i < |rs|
    ensures var e, n := Entries(rs)[i], |Decimal(i + 1)|;
      n + 2 <= |e| && e[..n] == Decimal(i + 1) && e[n..n + 2] == ". "
      && DecimalValue(Decimal(i + 1)) == i + 1
  {
    var e, n := Entries(rs)[i], |Decimal(i + 1)|;
    assert e[..n + 2] == Decimal(i + 1) + ". ";
    assert e[..n] == e[..n + 2][..n];
    assert e[n..n + 2] == e[..n + 2][n..];
    DecimalRoundTrip(i + 1);
  }

  // ---------------------------------------------------------------------
  // The request sent to the model.
  // ---------------------------------------------------------------------

  /** `processedMessages`: the context appended to the last message only. */
  function ProcessMessages(msgs: seq<ApiMessage>, ctx: string): (r: seq<ApiMessage>)
    ensures |r| == |msgs|
    ensures forall i :: 0 <= i < |msgs| - 1 ==> r[i] == msgs[i]
    ensures ctx == "" ==> r == msgs
    ensures |msgs| > 0 && ctx != "" ==>
      r[|msgs| - 1] == ApiMessage(msgs[|msgs| - 1].role, msgs[|msgs| - 1].content + ctx)
  {
    seq(|msgs|, i requires 0 <= i < |msgs| =>
      if i == |msgs| - 1 && ctx != "" then msgs[i].(content := msgs[i].content + ctx) else msgs[i])
  }

  /** The searched-for text is exactly what the context is appended to:
      after processing, the last message reads the query followed by the
      context. Without messages there is nothing to append to, and the
      context is dropped. */
  lemma QueryThenContext(msgs: seq<ApiMessage>, ctx: string)
    ensures |msgs| > 0 ==> SearchQuery(ProcessMessages(msgs, ctx)) == SearchQuery(msgs) + ctx
    ensures |msgs| == 0 ==> ProcessMessages(msgs, ctx) == []
  {
    if |msgs| > 0 && ctx == "" {
      assert SearchQuery(msgs) + "" == SearchQuery(msgs);
    }
  }

  /** The body of the completion request. `thinking` is `thinking.type`. */
  datatype RequestBody = RequestBody(
    model: string, messages: seq<ApiMessage>, stream: bool,
    temperature: real, topP: real, thinking: string)

  /** `requestBody`, with `thinking` set from the `think` flag. */
  function BuildRequest(msgs: seq<ApiMessage>, ctx: string, think: bool): (b: RequestBody)
    ensures b.model == Model && b.stream && b.temperature == 0.7 && b.topP == 0.95
    ensures |b.messages| == |msgs| + 1 && b.messages[0] == ApiMessage(System, SystemPrompt)
    ensures b.messages[1..] == ProcessMessages(msgs, ctx)
    ensures b.thinking == "enabled" <==> think
    ensures b.thinking == "disabled" <==> !think
  {
    RequestBody(Model, [ApiMessage(System, SystemPrompt)] + ProcessMessages(msgs, ctx),
      true, 0.7, 0.95, if think then "enabled" else "disabled")
  }

  /** Without search results the model sees the system prompt and then the
      client's messages unchanged; with them, only the last one differs. */
  lemma RequestKeepsHistory(msgs: seq<ApiMessage>, search: bool, found: Option<seq<SearchResult>>, think: bool)
    ensures var b := BuildRequest(msgs, SearchContext(search, found), think);
      forall i :: 0 <= i < |msgs| - 1 ==> b.messages[i + 1] == msgs[i]
    ensures !search ==> BuildRequest(msgs, SearchContext(search, found), think).messages
                        == [ApiMessage(System, SystemPrompt)] + msgs
  {
    var b := BuildRequest(msgs, SearchContext(search, found), think);
    forall i | 0 <= i < |msgs| - 1 ensures b.messages[i + 1] == msgs[i] {
      assert b.messages[1..][i] == b.messages[i + 1];
    }
  }

  // ---------------------------------------------------------------------
  // The response.
  // ---------------------------------------------------------------------

  /** A value thrown in the handler: an `Error` with its message, or anything else. */
  datatype Thrown = ErrorValue(message: string) | OtherValue

  /** What a call to the completion API did: it threw, or it answered with
      a status and, when not ok, the text of its body. */
  datatype Upstream = Threw(error: Thrown) | Answered(status: int, text: string)

  /** The body of the proxy's response: the upstream event stream passed
      through, or a JSON object `{ error }`. */
  datatype Body = EventStream | ErrorJson(error: string)

  datatype Response = Response(status: int, body: Body)

  const NoKeyMessage := "ZHIPU_API_KEY is not configured"
  const RateLimitedMessage := "请求频率过高，请稍后再试。"
  const BadKeyMessage := "API Key 无效，请检查配置。"
  const UpstreamErrorPrefix := "AI 服务错误: "
  const UnknownErrorMessage := "未知错误"

  /** `response.ok`. */
  predicate IsOk(status: int) {
    200 <= status <= 299
  }

  /** The `catch` of the handler: a 500 carrying the error's message. */
  function Failure(e: Thrown): (r: Response)
    ensures r.status == 500 && r.body.ErrorJson?
    ensures e.ErrorValue? ==> r.body.error == e.message
    ensures e.OtherValue? ==> r.body.error == UnknownErrorMessage
  {
    Response(500, ErrorJson(if e.ErrorValue? then e.message else UnknownErrorMessage))
  }

  /** The response for one request. `bodyError` is what reading the request
      body threw, if anything; `key` is the configured API key ("" when
      unset); `upstream` is what the completion call did. */
  function Respond(bodyError: Option<Thrown>, key: string, upstream: Upstream): (r: Response)
    ensures r.body == EventStream <==> bodyError.None? && key != "" && upstream.Answered? && IsOk(upstream.status)
    ensures r.body == EventStream ==> r.status == 200
    ensures bodyError.Some? ==> r == Failure(bodyError.value)
    ensures bodyError.None? && key == "" ==> r == Failure(ErrorValue(NoKeyMessage))
    ensures bodyError.None? && key != "" && upstream.Threw? ==> r == Failure(upstream.error)
  {
    if bodyError.Some? then Failure(bodyError.value)
    else if key == "" then Failure(ErrorValue(NoKeyMessage))
    else match upstream
      case Threw(e) => Failure(e)
      case Answered(status, text) =>
        if IsOk(status) then Response(200, EventStream)
        else if status == 429 then Response(429, ErrorJson(RateLimitedMessage))
        else if status == 401 then Response(401, ErrorJson(BadKeyMessage))
        else Response(500, ErrorJson(UpstreamErrorPrefix + text))
  }

  /** Every upstream failure is reported as an error object: 429 and 401 keep
      their status, any other failing status becomes 500 with the upstream
      text after a fixed prefix. */
  lemma UpstreamStatusMapped(key: string, status: int, text: string)
    requires key != "" && !IsOk(status)
    ensures var r := Respond(None, key, Answered(status, text));
      r.body.ErrorJson?
      && (status == 429 ==> r == Response(429, ErrorJson(RateLimitedMessage)))
      && (status == 401 ==> r == Response(401, ErrorJson(BadKeyMessage)))
      && (status != 429 && status != 401 ==>
            r.status == 500 && StartsWith(r.body.error, UpstreamErrorPrefix)
            && r.body.error[|UpstreamErrorPrefix|..] == text)
  {
    var r := Respond(None, key, Answered(status, text));
    if status != 429 && status != 401 {
      assert r.body.error[..|UpstreamErrorPrefix|] == UpstreamErrorPrefix;
    }
  }

  /** A request that never reaches the model (unreadable body, or no key)
      is answered with 500, whatever the model would have said. */
  lemma EarlyFailureIgnoresUpstream(bodyError: Option<Thrown>, key: string, u: Upstream, v: Upstream)
    requires bodyError.Some? || key == ""
    ensures Respond(bodyError, key, u) == Respond(bodyError, key, v)
    ensures Respond(bodyError, key, u).status == 500
  {
  }
}
