/** The prompt-based tool-call adapter for a local chat server that has no
    native function calling. It keeps the whole conversation in `history`
    and recognises a tool call by a JSON object, usually fenced as
    ```json ... ```, in the model's plain-text reply.

    The server request is not modelled: the reply (or a transport failure)
    is an input of `GenerateContent`. `json.loads` and `json.dumps` are
    parameters (`decode`, `dumps`), so every property here holds for any
    decoder and encoder. */
module OllamaClient {
  import opened Wrappers
  import opened JsonValue
  import opened PyStrings

  const UserRole: string := "user"
  const AssistantRole: string := "assistant"
  const SystemRole: string := "system"

  /** The opening fence that marks a JSON block, and the closing fence. */
  const JsonFence: string := "```json"
  const Fence: string := "```"

  /** Text that, written right after a closing "```", turns its last one
      or two backticks into the start of a "```json". */
  predicate CompletesOpening(post: string)
  {
    (|post| >= 5 && post[..5] == "`json") || (|post| >= 6 && post[..6] == "``json")
  }

  /** One chat message as sent to the server. The content of an assistant
      turn is whatever the server returned, possibly nothing. */
  datatype Message = Message(role: string, content: Option<string>)

  /** What the extractor hands back: the two fields, copied unchanged. */
  datatype ToolCall = ToolCall(name: Json, arguments: Json)

  /** The outcome of the chat-completion request. */
  datatype Reply = Completion(content: Option<string>) | TransportError

  /** The three turns every conversation starts with. */
  function SeedHistory(systemPrompt: string): (h: seq<Message>)
    ensures |h| == 3 && h[2] == Message(SystemRole, Some(systemPrompt))
  {
    [Message(UserRole, Some("Hello")),
     Message(AssistantRole, Some("Hello! How can I help you today?")),
     Message(SystemRole, Some(systemPrompt))]
  }

  /** Python truthiness of the optional inputs of `generate_content`. */
  predicate HasText(s: Option<string>)
  {
    s.Some? && s.value != ""
  }

  predicate HasResult(r: Option<map<string, Json>>)
  {
    r.Some? && |r.value| > 0
  }

  const SummaryLead: string := "You have received the following data from the weather tool: "
  const SummaryTail: string :=
    ". Use this data to answer the user's request. If the user asked a general question (e.g., 'what is the weather?'), "
    + "provide a full summary in a natural language. If the user asked a specific question (e.g., 'what is the temperature?'), "
    + "provide a direct answer to that specific question. Use natural language."

  /** The user-role turn that reports a tool result in prose, around the
      encoded result. */
  function SummaryPrompt(dumped: string): (p: string)
    ensures |p| == |SummaryLead| + |dumped| + |SummaryTail|
    ensures p[..|SummaryLead|] == SummaryLead && p[|SummaryLead|..|SummaryLead| + |dumped|] == dumped
  {
    SummaryLead + dumped + SummaryTail
  }

  /** The turns `generate_content` appends before it sends the request:
      the user's text if there is any, then the tool-result summary if
      there is a non-empty result. */
  function PendingTurns(userInput: Option<string>, result: Option<map<string, Json>>,
                        dumps: map<string, Json> -> string): seq<Message>
  {
    (if HasText(userInput) then [Message(UserRole, userInput)] else [])
    + (if HasResult(result) then [Message(UserRole, Some(SummaryPrompt(dumps(result.value))))] else [])
  }

  /** The history after one call of `generate_content`. The pending turns
      are appended before the request is made, so a transport failure
      leaves them in place; a completion adds the assistant turn. */
  function NextHistory(h: seq<Message>, userInput: Option<string>, result: Option<map<string, Json>>,
                       dumps: map<string, Json> -> string, reply: Reply): (h': seq<Message>)
    ensures |h'| >= |h| && h'[..|h|] == h
    ensures |h'| == |h| + (if HasText(userInput) then 1 else 0) + (if HasResult(result) then 1 else 0)
                        + (if reply.Completion? then 1 else 0)
    ensures HasText(userInput) ==> h'[|h|] == Message(UserRole, userInput)
    ensures HasResult(result) ==>
              h'[|h| + (if HasText(userInput) then 1 else 0)]
                == Message(UserRole, Some(SummaryPrompt(dumps(result.value))))
    ensures reply.Completion? ==> h'[|h'| - 1] == Message(AssistantRole, reply.content)
    ensures forall k :: |h| <= k < |h'| ==> h'[k].role == UserRole || h'[k].role == AssistantRole
    ensures forall k :: |h| <= k < |h'| && h'[k].role == AssistantRole ==> reply.Completion? && k == |h'| - 1
  {
    h + PendingTurns(userInput, result, dumps)
      + (if reply.Completion? then [Message(AssistantRole, reply.content)] else [])
  }

  /** One call of `generate_content` as a value, for stating what a run of
      calls does to the history. */
  datatype Exchange = Exchange(userInput: Option<string>, result: Option<map<string, Json>>, reply: Reply)

  function Replay(h: seq<Message>, calls: seq<Exchange>, dumps: map<string, Json> -> string): seq<Message>
    decreases |calls|
  {
    if calls == [] then h
    else Replay(NextHistory(h, calls[0].userInput, calls[0].result, dumps, calls[0].reply), calls[1..], dumps)
  }

  function Completions(calls: seq<Exchange>): (n: nat)
    ensures n <= |calls|
  {
    if calls == [] then 0 else (if calls[0].reply.Completion? then 1 else 0) + Completions(calls[1..])
  }

  /** Over any run of calls the history only grows: what was there stays a
      prefix, nothing is added under a role other than user or assistant,
      each call adds at most three turns, and each completed call adds at
      least its assistant turn. There is no bound on the length. */
  lemma {:induction false} ReplayGrows(h: seq<Message>, calls: seq<Exchange>, dumps: map<string, Json> -> string)
    ensures var h' := Replay(h, calls, dumps);
      |h'| >= |h| && h'[..|h|] == h
      && Completions(calls) <= |h'| - |h| <= 3 * |calls|
      && (forall k :: |h| <= k < |h'| ==> h'[k].role == UserRole || h'[k].role == AssistantRole)
    decreases |calls|
  {
    if calls != [] {
      var c := calls[0];
      var h1 := NextHistory(h, c.userInput, c.result, dumps, c.reply);
      ReplayGrows(h1, calls[1..], dumps);
      var h' := Replay(h1, calls[1..], dumps);
      assert h'[..|h1|] == h1;
      assert h'[..|h|] == h1[..|h|];
      forall k | |h| <= k < |h'|
        ensures h'[k].role == UserRole || h'[k].role == AssistantRole
      {
        if k < |h1| {
          assert h'[k] == h1[k];
        }
      }
    }
  }

  /** `json.loads(...).get("tool_call")` followed by the shape test: only
      a dict has `get` (anything else is the swallowed AttributeError), a
      missing key reads as None, and the value must be a truthy dict that
      holds both "name" and "arguments". */
  function ToolCallOf(parsed: Json): Option<ToolCall>
  {
    match parsed
    case JObject(fields) =>
      if "tool_call" in fields then
        var tc := fields["tool_call"];
        if Truthy(tc) && tc.JObject? && "name" in tc.fields && "arguments" in tc.fields
        then Some(ToolCall(tc.fields["name"], tc.fields["arguments"]))
        else None
      else None
    case _ => None
  }

  /** A decoded value of the shape `{"tool_call": {"name": n, "arguments": a, ...}, ...}`. */
  ghost predicate IsToolCallJson(j: Json, n: Json, a: Json)
  {
    j.JObject? && "tool_call" in j.fields && j.fields["tool_call"].JObject?
    && var tc := j.fields["tool_call"].fields;
       "name" in tc && "arguments" in tc && tc["name"] == n && tc["arguments"] == a
  }

  /** The shape test accepts exactly the tool-call shape, and then copies
      the two fields unchanged. The truthiness test is implied: a dict
      with two keys is never empty. */
  lemma ToolCallOfShape(j: Json, n: Json, a: Json)
    ensures ToolCallOf(j) == Some(ToolCall(n, a)) <==> IsToolCallJson(j, n, a)
  {
    if IsToolCallJson(j, n, a) {
      var tc := j.fields["tool_call"];
      assert "name" in tc.fields.Keys;
      assert |tc.fields.Keys| > 0;
    }
  }

  /** The text handed to the decoder: if the reply holds "```json", the
      text after its first occurrence, cut at the next "```" by splitting,
      and stripped; otherwise the whole reply. */
  function FenceCandidate(content: string): string
  {
    if Contains(content, JsonFence)
    then Strip(Split(Split(content, JsonFence)[1], Fence)[0])
    else content
  }

  /** `get_function_call` on the latest reply: nothing for a missing or
      empty reply, nothing when decoding fails, otherwise the shape test. */
  function ExtractToolCall(content: Option<string>, decode: string -> Option<Json>): (r: Option<ToolCall>)
    ensures !HasText(content) ==> r.None?
    ensures r.Some? ==> decode(FenceCandidate(content.value)).Some?
                        && IsToolCallJson(decode(FenceCandidate(content.value)).value, r.value.name, r.value.arguments)
  {
    if !HasText(content) then None
    else
      match decode(FenceCandidate(content.value))
      case None => None
      case Some(parsed) =>
        ToolCallOf(parsed)
  }

  /** The extractor succeeds with (n, a) exactly when the reply is not
      empty and the candidate decodes to the tool-call shape holding n and
      a; a decode failure, a non-object and a missing key all give
      nothing. */
  lemma ExtractToolCallIff(content: string, decode: string -> Option<Json>, n: Json, a: Json)
    ensures ExtractToolCall(Some(content), decode) == Some(ToolCall(n, a))
            <==> content != "" && decode(FenceCandidate(content)).Some?
                 && IsToolCallJson(decode(FenceCandidate(content)).value, n, a)
  {
    if content != "" && decode(FenceCandidate(content)).Some? {
      ToolCallOfShape(decode(FenceCandidate(content)).value, n, a);
    }
  }

  /** `get_text_response`: the reply itself when it is not empty and holds
      no tool call, otherwise nothing. */
  function TextResponse(content: Option<string>, decode: string -> Option<Json>): (r: Option<string>)
    ensures r.Some? <==> HasText(content) && ExtractToolCall(content, decode).None?
    ensures r.Some? ==> r == content
  {
    if HasText(content) && ExtractToolCall(content, decode).None? then content else None
  }

  /** A reply never yields both a text reply and a tool call, and a
      non-empty reply yields exactly one of them. */
  lemma TextXorToolCall(content: Option<string>, decode: string -> Option<Json>)
    ensures !(TextResponse(content, decode).Some? && ExtractToolCall(content, decode).Some?)
    ensures HasText(content) ==> TextResponse(content, decode).Some? || ExtractToolCall(content, decode).Some?
  {
  }

  /** An occurrence fixes the characters it covers. */
  lemma OccursChars(s: string, pat: string, i: int)
    ensures Occurs(s, pat, i) ==> forall m :: i <= m < i + |pat| ==> s[m] == pat[m - i]
  {
    if Occurs(s, pat, i) {
      forall m | i <= m < i + |pat| ensures s[m] == pat[m - i] {
        assert s[i..i + |pat|][m - i] == s[m];
      }
    }
  }

  /** "```json" begins with "```". */
  lemma JsonFenceIsFence(s: string, i: int)
    requires Occurs(s, JsonFence, i)
    ensures Occurs(s, Fence, i)
  {
    assert s[i..i + 3] == s[i..i + 7][..3];
  }

  /** Find returns the first occurrence. */
  lemma FindAt(s: string, pat: string, i: int)
    requires Occurs(s, pat, i)
    requires forall j :: 0 <= j < i ==> !Occurs(s, pat, j)
    ensures Find(s, pat) == Some(i)
  {
  }

  /** Occurrences inside a prefix are occurrences in the whole text, and
      conversely when they end within the prefix. */
  lemma OccursInPrefix(s: string, pat: string, p: int, j: int)
    requires 0 <= p <= |s|
    ensures Occurs(s[..p], pat, j) <==> Occurs(s, pat, j) && j + |pat| <= p
  {
    if 0 <= j && j + |pat| <= p {
      assert s[..p][j..j + |pat|] == s[j..j + |pat|];
    }
  }

  /** "```json" cannot overlap itself, so after a prefix that does not
      contain it, its first occurrence is the one right after the prefix. */
  lemma FindJsonFenceAfter(pre: string, rest: string)
    requires !Contains(pre, JsonFence)
    ensures Find(pre + JsonFence + rest, JsonFence) == Some(|pre|)
  {
    var s := pre + JsonFence + rest;
    assert s[|pre|..|pre| + 7] == JsonFence;
    assert s[|pre|] == '`' && s[|pre| + 1] == '`' && s[|pre| + 2] == '`';
    assert JsonFence[3] == 'j' && JsonFence[4] == 's' && JsonFence[5] == 'o' && JsonFence[6] == 'n';
    forall j | 0 <= j < |pre|
      ensures !Occurs(s, JsonFence, j)
    {
      if j + 7 <= |pre| {
        OccursInPrefix(s, JsonFence, |pre|, j);
        assert s[..|pre|] == pre;
      } else {
        OccursChars(s, JsonFence, j);
        if j + 3 >= |pre| {
          assert s[j + 3] == '`';
        }
      }
    }
    FindAt(s, JsonFence, |pre|);
  }

  /** The first "```" after a body that holds none and does not end with a
      backtick is the one right after the body. */
  lemma FindFenceAfter(body: string, rest: string, j: int)
    requires !Contains(body, Fence) && (body == [] || body[|body| - 1] != '`')
    requires 0 <= j < |body|
    ensures !Occurs(body + Fence + rest, Fence, j)
  {
    var s := body + Fence + rest;
    if j + 3 <= |body| {
      OccursInPrefix(s, Fence, |body|, j);
      assert s[..|body|] == body;
    } else {
      OccursChars(s, Fence, j);
      assert s[|body| - 1] == body[|body| - 1];
    }
  }

  /** After a body that holds no "```" and does not end with a backtick,
      the first "```" is the closing fence. */
  lemma ClosingFenceFirst(body: string, post: string)
    requires !Contains(body, Fence) && (body == [] || body[|body| - 1] != '`')
    ensures Find(body + Fence + post, Fence) == Some(|body|)
  {
    var rest := body + Fence + post;
    assert rest[|body|..|body| + 3] == Fence;
    forall j | 0 <= j < |body| ensures !Occurs(rest, Fence, j) {
      FindFenceAfter(body, post, j);
    }
    FindAt(rest, Fence, |body|);
  }

  /** A "```json" starting at the second or third backtick of a "```" is
      completed by the text after that "```". */
  lemma OpeningInsideClose(post: string, k: int)
    requires k == 1 || k == 2
    requires Occurs(Fence + post, JsonFence, k)
    ensures CompletesOpening(post)
  {
    var s := Fence + post;
    if k == 1 {
      assert post[..5] == s[3..8] == s[1..8][2..];
    } else {
      assert post[..6] == s[3..9] == s[2..9][1..];
    }
  }

  /** A "```json" after such a body starts at the closing fence or after
      it, unless the text after the closing fence completes one that
      starts inside it. */
  lemma JsonFenceNotInsideClose(body: string, post: string, p: int)
    requires !Contains(body, Fence) && (body == [] || body[|body| - 1] != '`')
    requires !CompletesOpening(post)
    requires Occurs(body + Fence + post, JsonFence, p)
    ensures p == |body| || p >= |body| + 3
  {
    var rest := body + Fence + post;
    JsonFenceIsFence(rest, p);
    ClosingFenceFirst(body, post);
    if p == |body| + 1 || p == |body| + 2 {
      var tail := Fence + post;
      assert rest[|body|..] == tail;
      assert tail[p - |body|..p - |body| + 7] == rest[p..p + 7];
      OpeningInsideClose(post, p - |body|);
    }
  }

  /** Cutting a text before an index that lies past its first occurrence
      of `pat` keeps that occurrence first. */
  lemma HeadOfPrefix(s: string, pat: string, p: int, q: int)
    requires Find(s, pat) == Some(q) && q + |pat| <= p <= |s|
    ensures Head(s[..p], pat) == s[..q]
  {
    OccursInPrefix(s, pat, p, q);
    forall j | 0 <= j < q ensures !Occurs(s[..p], pat, j) {
      OccursInPrefix(s, pat, p, j);
    }
    FindAt(s[..p], pat, q);
  }

  /** Cutting a text at its first occurrence of `pat` leaves none. */
  lemma HeadOfPrefixAtFirst(s: string, pat: string, p: int)
    requires pat != "" && Find(s, pat) == Some(p)
    ensures Head(s[..p], pat) == s[..p]
  {
    forall j | 0 <= j ensures !Occurs(s[..p], pat, j) {
      OccursInPrefix(s, pat, p, j);
    }
  }

  /** The split-based cut returns the body of a well-formed fenced block:
      the body holds no "```" and does not end with a backtick, and the
      text after the closing fence does not start with "`json" or
      "``json". */
  lemma CutAtClosingFence(body: string, post: string)
    requires !Contains(body, Fence) && (body == [] || body[|body| - 1] != '`')
    requires !CompletesOpening(post)
    ensures Head(Head(body + Fence + post, JsonFence), Fence) == body
  {
    var rest := body + Fence + post;
    ClosingFenceFirst(body, post);
    assert rest[..|body|] == body;
    match Find(rest, JsonFence)
    case None =>
    case Some(p) =>
      JsonFenceNotInsideClose(body, post, p);
      if p == |body| {
        assert rest[..p] == body;
      } else {
        HeadOfPrefix(rest, Fence, p, |body|);
      }
  }

  /** The candidate cut from a well-formed fenced block is the stripped
      body of the block, when the text before it holds no "```json" and
      the text after it does not start with "`json" or "``json". */
  lemma FenceCandidateOfBlock(pre: string, body: string, post: string)
    requires !Contains(pre, JsonFence)
    requires !Contains(body, Fence) && (body == [] || body[|body| - 1] != '`')
    requires !CompletesOpening(post)
    ensures FenceCandidate(pre + JsonFence + body + Fence + post) == Strip(body)
  {
    var rest := body + Fence + post;
    var s := pre + JsonFence + rest;
    assert pre + JsonFence + body + Fence + post == s;
    FindJsonFenceAfter(pre, rest);
    assert AfterFirst(s, JsonFence) == rest;
    FenceCandidateByCuts(s);
    CutAtClosingFence(body, post);
  }

  /** The two splits of the candidate read only the text before the first
      separator: the candidate is the stripped text after the first
      "```json", cut before the next "```json" and then before the next
      "```". */
  lemma FenceCandidateByCuts(content: string)
    requires Contains(content, JsonFence)
    ensures FenceCandidate(content) == Strip(Head(Head(AfterFirst(content, JsonFence), JsonFence), Fence))
  {
  }

  /** The object the system prompt asks the model to emit has the
      tool-call shape, whatever its name and arguments. */
  lemma ToolCallLiteral(n: Json, a: Json)
    ensures IsToolCallJson(JObject(map["tool_call" := JObject(map["name" := n, "arguments" := a])]), n, a)
  {
  }

  /** A tool call fenced as ```json ... ``` is found and returned with its
      fields unchanged, whatever the decoder does elsewhere, when the text
      before the block holds no "```json", the body holds no "```" and
      does not end with a backtick, and the text after the block does not
      start with "`json" or "``json". */
  lemma FencedToolCallRoundTrip(pre: string, body: string, post: string,
                                decode: string -> Option<Json>, n: Json, a: Json)
    requires !Contains(pre, JsonFence)
    requires !Contains(body, Fence) && (body == [] || body[|body| - 1] != '`')
    requires !CompletesOpening(post)
    requires decode(Strip(body)).Some? && IsToolCallJson(decode(Strip(body)).value, n, a)
    ensures ExtractToolCall(Some(pre + JsonFence + body + Fence + post), decode) == Some(ToolCall(n, a))
  {
    FenceCandidateOfBlock(pre, body, post);
    ExtractToolCallIff(pre + JsonFence + body + Fence + post, decode, n, a);
  }

  /** The JSON object of the example reply in the system prompt. */
  const ExampleJson: string :=
    "{\n  \"tool_call\": {\n"
    + "    \"name\": \"get_current_weather\",\n"
    + "    \"arguments\": {\"location\": \"Paris\"}\n"
    + "  }\n}"

  /** The example reply the system prompt shows: the object fenced as a
      json block, each fence on its own line. */
  const ExampleReply: string := JsonFence + "\n" + ExampleJson + "\n" + Fence

  /** A reply laid out as the system prompt asks (a "```json" line, the
      JSON text, a closing "```" line) is read back as the call the JSON
      text holds, when that text has no backticks and no whitespace at
      either end. */
  lemma FencedLinesRoundTrip(text: string, decode: string -> Option<Json>, n: Json, a: Json)
    requires '`' !in text && text != [] && !IsSpace(text[0]) && !IsSpace(text[|text| - 1])
    requires decode(text).Some? && IsToolCallJson(decode(text).value, n, a)
    ensures ExtractToolCall(Some(JsonFence + "\n" + text + "\n" + Fence), decode) == Some(ToolCall(n, a))
  {
    var body := "\n" + text + "\n";
    assert JsonFence + "\n" + text + "\n" + Fence == "" + JsonFence + body + Fence + "";
    assert !Contains(body, Fence) && body[|body| - 1] != '`' by {
      FencedLinesLayout(text);
    }
    assert Strip(body) == text by {
      StripLineBreaks(text);
    }
    NothingAround();
    FencedToolCallRoundTrip("", body, "", decode, n, a);
  }

  /** Empty text around a block meets the conditions of the round trip. */
  lemma NothingAround()
    ensures !Contains("", JsonFence) && !CompletesOpening("")
  {
  }

  /** The body of the layout the system prompt asks for holds no "```"
      and ends with a line break. */
  lemma FencedLinesLayout(text: string)
    requires '`' !in text
    ensures !Contains("\n" + text + "\n", Fence)
    ensures ("\n" + text + "\n")[|text| + 1] == '\n'
  {
    NoBacktickNoFence("\n" + text + "\n");
  }

  /** An occurrence of a pattern puts its first character in the text. */
  lemma OccursFirstChar(s: string, pat: string, j: int)
    requires pat != []
    ensures Occurs(s, pat, j) ==> pat[0] in s
  {
    if Occurs(s, pat, j) {
      assert s[j] == s[j..j + |pat|][0];
    }
  }

  /** Text without backticks holds no "```". */
  lemma NoBacktickNoFence(s: string)
    requires '`' !in s
    ensures !Contains(s, Fence)
  {
    forall j ensures !Occurs(s, Fence, j) {
      OccursFirstChar(s, Fence, j);
    }
  }

  /** The JSON text of the example has no backticks and starts and ends
      with a brace. */
  lemma ExampleJsonPlain()
    ensures '`' !in ExampleJson && ExampleJson != []
    ensures ExampleJson[0] == '{' && ExampleJson[|ExampleJson| - 1] == '}'
  {
    assert '`' !in "{\n  \"tool_call\": {\n";
    assert '`' !in "    \"name\": \"get_current_weather\",\n";
    assert '`' !in "    \"arguments\": {\"location\": \"Paris\"}\n";
    assert '`' !in "  }\n}";
  }

  /** The example reply in the system prompt is read back as the
      `get_current_weather` call for Paris by any decoder that reads its
      JSON text as that object. */
  lemma ExampleReplyRoundTrip(decode: string -> Option<Json>)
    requires decode(ExampleJson).Some?
    requires IsToolCallJson(decode(ExampleJson).value,
                            JString("get_current_weather"), JObject(map["location" := JString("Paris")]))
    ensures ExtractToolCall(Some(ExampleReply), decode)
            == Some(ToolCall(JString("get_current_weather"), JObject(map["location" := JString("Paris")])))
  {
    ExampleJsonPlain();
    FencedLinesRoundTrip(ExampleJson, decode,
                         JString("get_current_weather"), JObject(map["location" := JString("Paris")]));
  }

  /** A reply with no fence is decoded whole. */
  lemma UnfencedToolCall(content: string, decode: string -> Option<Json>, n: Json, a: Json)
    requires content != "" && !Contains(content, JsonFence)
    requires decode(content).Some? && IsToolCallJson(decode(content).value, n, a)
    ensures ExtractToolCall(Some(content), decode) == Some(ToolCall(n, a))
  {
    ExtractToolCallIff(content, decode, n, a);
  }

  /** The text after the first occurrence of `sep`. */
  function AfterFirst(s: string, sep: string): (r: string)
    requires Contains(s, sep)
    ensures |r| <= |s| - |sep|
  {
    s[Find(s, sep).value + |sep|..]
  }

  /** The first "```" after the opening fence is not a backtick run glued
      onto a later "```json" (as in "a````json", where it starts one
      character before it). */
  ghost predicate FirstFenceNotGlued(rest: string)
  {
    match Find(rest, JsonFence)
    case None => true
    case Some(p) => Find(rest, Fence).Some? && (Find(rest, Fence).value == p || Find(rest, Fence).value + 3 <= p)
  }

  /** Read plainly, the candidate is the stripped text after the first
      "```json" up to the next "```" (or the end); the split-based cut
      agrees with that reading whenever the first closing fence is not
      glued onto a later opening one. */
  lemma FenceCandidateUpToNextFence(content: string)
    requires Contains(content, JsonFence)
    requires FirstFenceNotGlued(AfterFirst(content, JsonFence))
    ensures FenceCandidate(content) == Strip(Head(AfterFirst(content, JsonFence), Fence))
  {
    CutAtFirstFence(AfterFirst(content, JsonFence));
  }

  lemma CutAtFirstFence(rest: string)
    requires FirstFenceNotGlued(rest)
    ensures Head(Head(rest, JsonFence), Fence) == Head(rest, Fence)
  {
    match Find(rest, JsonFence)
    case None =>
    case Some(p) =>
      var q := Find(rest, Fence).value;
      if q == p {
        HeadOfPrefixAtFirst(rest, Fence, p);
      } else {
        HeadOfPrefix(rest, Fence, p, q);
      }
  }

  /** Where the first closing fence is glued onto a later "```json", the
      split-based cut keeps the glued backticks and ends past that fence. */
  lemma GluedCutDiffers(rest: string)
    requires !FirstFenceNotGlued(rest)
    ensures Head(Head(rest, JsonFence), Fence) != Head(rest, Fence)
  {
    var p := Find(rest, JsonFence).value;
    JsonFenceIsFence(rest, p);
    var q := Find(rest, Fence).value;
    assert q < p < q + 3;
    forall j | 0 <= j ensures !Occurs(rest[..p], Fence, j) {
      OccursInPrefix(rest, Fence, p, j);
    }
  }

  /** The split-based cut stops at the next "```" exactly when that fence
      is not glued onto a later "```json". */
  lemma CutAtNextFenceIff(rest: string)
    ensures Head(Head(rest, JsonFence), Fence) == Head(rest, Fence) <==> FirstFenceNotGlued(rest)
  {
    if FirstFenceNotGlued(rest) {
      CutAtFirstFence(rest);
    } else {
      GluedCutDiffers(rest);
    }
  }

  /** Where the fences are glued the two readings differ: after
      "```json" comes "a````json"; the split gives "a`", while cutting at
      the next "```" would give "a". */
  lemma GluedFenceCounterexample()
    ensures FenceCandidate("```json" + "a````json") == "a`"
    ensures Head("a````json", Fence) == "a"
  {
    var rest := "a````json";
    GluedCuts(rest);
    var content := "```json" + "a````json";
    FindJsonFenceAfter("", rest);
    assert "" + JsonFence + rest == content;
    assert content[|JsonFence|..] == rest;
    StripUnpadded("a`");
  }

  lemma GluedCuts(rest: string)
    requires rest == "a````json"
    ensures Head(rest, Fence) == "a"
    ensures Head(rest, JsonFence) == "a`" && Head("a`", Fence) == "a`"
  {
    assert rest[1..4] == Fence;
    assert rest[0] == 'a';
    FindAt(rest, Fence, 1);
    assert rest[2..9] == JsonFence;
    assert rest[4] == '`';
    assert JsonFence[0] == '`' && JsonFence[3] == 'j';
    OccursChars(rest, JsonFence, 0);
    OccursChars(rest, JsonFence, 1);
    FindAt(rest, JsonFence, 2);
    assert rest[..2] == "a`";
  }

  /** The adapter's state: the model name, the whole conversation sent on
      every request, and the latest reply text. */
  class Client {
    var model: string
    var history: seq<Message>
    var latestResponseContent: Option<string>

    /** A fresh session: the seeded conversation and no reply yet. The
        system prompt's wording is a parameter. */
    constructor (model: string, systemPrompt: string)
      ensures this.model == model
      ensures history == SeedHistory(systemPrompt)
      ensures latestResponseContent == None
    {
      this.model := model;
      history := SeedHistory(systemPrompt);
      latestResponseContent := None;
    }

    /** `generate_content`: append the pending turns in place, then, when
        the server answers, record its reply and append it as the
        assistant turn. On a transport failure the exception is reported
        through `raised` and the pending turns stay appended. */
    method GenerateContent(userInput: Option<string>, functionExecutionResult: Option<map<string, Json>>,
                           dumps: map<string, Json> -> string, reply: Reply) returns (raised: bool)
      modifies this
      ensures raised <==> reply.TransportError?
      ensures history == NextHistory(old(history), userInput, functionExecutionResult, dumps, reply)
      ensures latestResponseContent == if reply.Completion? then reply.content else old(latestResponseContent)
      ensures model == old(model)
    {
      ghost var before := history;
      if HasText(userInput) {
        history := history + [Message(UserRole, userInput)];
      }
      if HasResult(functionExecutionResult) {
        var summary := SummaryPrompt(dumps(functionExecutionResult.value));
        history := history + [Message(UserRole, Some(summary))];
      }
      assert history == before + PendingTurns(userInput, functionExecutionResult, dumps);
      match reply
      case TransportError =>
        raised := true;
      case Completion(content) =>
        latestResponseContent := content;
        history := history + [Message(AssistantRole, latestResponseContent)];
        raised := false;
    }

    /** `get_function_call`: a read of the latest reply. */
    function GetFunctionCall(decode: string -> Option<Json>): (r: Option<ToolCall>)
      reads this
      ensures !HasText(latestResponseContent) ==> r.None?
    {
      ExtractToolCall(latestResponseContent, decode)
    }

    /** `get_text_response`: a read of the latest reply, never present
        together with a tool call. */
    function GetTextResponse(decode: string -> Option<Json>): (r: Option<string>)
      reads this
      ensures r.Some? ==> r == latestResponseContent && GetFunctionCall(decode).None?
    {
      TextResponse(latestResponseContent, decode)
    }
  }
}
