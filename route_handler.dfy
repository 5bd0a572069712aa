/** The App Router relay (app/api/generate/route.ts, `POST`): checks the credential,
    reads and checks the prompt, composes one instruction text around it, makes one
    provider call, extracts the HTML through a three-step accessor chain whose failures
    are absorbed, and answers with a status and a JSON body. */
module RouteHandler {
  import opened Js
  import opened Http

  const MissingApiKey: string := "missing_api_key"
  const MissingPrompt: string := "missing_prompt"
  const EmptyResponse: string := "empty_response"
  const ProviderFailure: string := "openai_error"

  const ProviderModel: string := "gpt-5.1"

  /** The fixed instructions in front of the description; only their first sentence is
      kept here. */
  const Instructions: string :=
    "Tu es \"Ultimated Builder IA\", " + "une IA qui génère des sites web complets en HTML."
  const DescriptionHeading: string := "\n\nDESCRIPTION UTILISATEUR :\n\""
  const ModeHeading: string := "\"\n\nMODE : "
  const FaqLine: string := "Met un peu plus de texte explicatif et des FAQ."
  const SiteLine: string := "Concentre-toi sur un site clair qui pourrait être utilisé tel quel."

  /** The outcome of `await req.json()`: a parsed value, or the error it threw. */
  datatype JsonBody = Parsed(value: JsValue) | Malformed(error: Thrown)

  datatype Call = Call(model: string, input: string)

  /** The provider call the relay made, if any, and the reply it sent. */
  datatype Exchange = Exchange(call: Option<Call>, reply: Reply)

  /** The environment variable as JavaScript reads it: `undefined` when unset. */
  function EnvValue(apiKey: Option<string>): JsValue {
    if apiKey.Some? then Str(apiKey.value) else Undefined
  }

  /** `!process.env.OPENAI_API_KEY` is false: the variable is set and not empty. */
  predicate HasApiKey(apiKey: Option<string>): (b: bool)
    ensures b <==> Truthy(EnvValue(apiKey))
  {
    apiKey.Some? && apiKey.value != ""
  }

  /** The negation of `!prompt || typeof prompt !== "string"`. */
  predicate IsUsablePrompt(prompt: JsValue) {
    prompt.Str? && prompt.s != ""
  }

  /** The TypeError V8 throws for `const { prompt, mode } = await req.json()` when the
      body parses to `null`. */
  function DestructureError(body: JsValue): Thrown {
    ErrorObject("TypeError", "Cannot destructure property 'prompt' of '(intermediate value)' as it is "
      + (if body.Null? then "null" else "undefined") + ".")
  }

  /** What `POST` answers when an exception escapes it: the framework's own 500 reply,
      whose body is not the relay's (kept empty here). */
  const EscapedReply: Reply := Reply(500, map[])

  /** The 500 reply of the outer `catch`. When `String` throws while the `details` are
      rendered, that exception escapes `POST` in turn. */
  function FailureReply(err: Thrown): (r: Reply)
    ensures r.status == 500
    ensures Describe(err).Some? ==>
      r.body.Keys == {"error", "details"}
      && r.body["error"] == Str(ProviderFailure) && r.body["details"] == Str(Describe(err).value)
    ensures Describe(err).None? ==> r == EscapedReply
  {
    match Describe(err)
    case Some(details) => Reply(500, map["error" := Str(ProviderFailure), "details" := Str(details)])
    case None => EscapedReply
  }

  /** The line chosen by `mode === "assistant"`: strict equality with the string, so no
      other value, not even a record or a differently cased string, selects the FAQ line. */
  function ModeLine(mode: JsValue): (line: string)
    ensures line == FaqLine <==> mode == Str("assistant")
    ensures line == SiteLine <==> mode != Str("assistant")
  {
    if mode == Str("assistant") then FaqLine else SiteLine
  }

  /** The template literal's content between its outer margins: the instructions, the
      description between quotes, the mode line. */
  function PromptText(prompt: string, mode: JsValue): string {
    Instructions + DescriptionHeading + prompt + ModeHeading + ModeLine(mode)
  }

  /** The template literal before `.trim()`: it opens with a line break and closes with
      a line break and the indentation of the closing backtick. */
  function RawPrompt(prompt: string, mode: JsValue): string {
    "\n" + PromptText(prompt, mode) + "\n    "
  }

  /** The instruction text sent to the provider: the trim only removes the template's
      outer margins. */
  function ComposePrompt(prompt: string, mode: JsValue): (r: string)
    ensures r == PromptText(prompt, mode)
  {
    TrimmedTemplate(prompt, mode);
    Trim(RawPrompt(prompt, mode))
  }

  /** The description appears verbatim in `r` from index `start`, with a quote on each
      side. */
  predicate QuotedAt(r: string, start: nat, prompt: string) {
    0 < start && start + |prompt| < |r|
    && r[start - 1] == '"' && r[start..start + |prompt|] == prompt && r[start + |prompt|] == '"'
  }

  predicate EndsWithFaq(r: string) {
    |r| >= |FaqLine| && r[|r| - |FaqLine|..] == FaqLine
  }

  /** The description sits verbatim between quotes in the text sent to the provider, and
      that text ends with the FAQ line exactly in "assistant" mode. */
  lemma ComposePromptEmbeds(prompt: string, mode: JsValue)
    ensures QuotedAt(ComposePrompt(prompt, mode), |Instructions + DescriptionHeading|, prompt)
    ensures EndsWithFaq(ComposePrompt(prompt, mode)) <==> mode == Str("assistant")
  {
    var head := Instructions + DescriptionHeading + prompt + ModeHeading;
    assert ComposePrompt(prompt, mode) == PromptText(prompt, mode);
    assert PromptText(prompt, mode) == head + ModeLine(mode);
    QuotedPrompt(prompt, mode);
    EndsWithFaqIff(head, mode);
  }

  lemma QuotedPrompt(prompt: string, mode: JsValue)
    ensures QuotedAt(PromptText(prompt, mode), |Instructions + DescriptionHeading|, prompt)
  {
    var head := Instructions + DescriptionHeading;
    var tail := ModeHeading + ModeLine(mode);
    var r := PromptText(prompt, mode);
    assert r == head + prompt + tail;
    assert r[|head| - 1] == head[|head| - 1] == DescriptionHeading[|DescriptionHeading| - 1] == '"';
    assert r[|head|..|head| + |prompt|] == prompt;
    assert r[|head| + |prompt|] == tail[0] == ModeHeading[0] == '"';
  }

  lemma TrimmedTemplate(prompt: string, mode: JsValue)
    ensures Trim(RawPrompt(prompt, mode)) == PromptText(prompt, mode)
  {
    var line := ModeLine(mode);
    var body := PromptText(prompt, mode);
    assert !IsJsWhitespace(body[0]) by {
      assert body[0] == Instructions[0] == 'T';
    }
    assert !IsJsWhitespace(body[|body| - 1]) by {
      assert body[|body| - 1] == line[|line| - 1] == '.';
    }
    assert IsBlank("\n") && IsBlank("\n    ");
    TrimBetweenBlanks("\n", body, "\n    ");
  }

  /** Whatever precedes it, a text ending with the mode line ends with the FAQ line
      exactly when the mode is "assistant". */
  lemma EndsWithFaqIff(p: string, mode: JsValue)
    ensures EndsWithFaq(p + ModeLine(mode)) <==> mode == Str("assistant")
  {
    var r := p + ModeLine(mode);
    if mode == Str("assistant") {
      assert r[|r| - |FaqLine|..] == FaqLine;
    } else {
      assert r[|r| - 2] == SiteLine[|SiteLine| - 2] == 'l';
      assert FaqLine[|FaqLine| - 2] == 'Q';
    }
  }

  /** The path to the first content part: `response.output[0].content[0]`. */
  const FirstPartPath: seq<Step> := [Key("output"), Index(0), Key("content"), Index(0)]

  /** The three accessors, in priority order, applied to a content part that is not
      nullish: the bare string `text`; a truthy `text.value`; the part's string form. */
  function TextAccessor(part: JsValue): Option<JsValue> {
    var text := OptionalMember(part, Key("text"));
    if text.Str? then Some(text) else None
  }

  function ValueAccessor(part: JsValue): Option<JsValue> {
    var value := OptionalMember(OptionalMember(part, Key("text")), Key("value"));
    if Truthy(value) then Some(value) else None
  }

  /** `String(firstContent)`; when it throws, the `catch` makes the HTML "". */
  function RenderAccessor(part: JsValue): Option<JsValue> {
    Some(Str(match ToJsString(part) case Some(s) => s case None => ""))
  }

  /** The first accessor in the list that yields a value. */
  function FirstHit(accessors: seq<JsValue -> Option<JsValue>>, part: JsValue): Option<JsValue>
    decreases |accessors|
  {
    if accessors == [] then None
    else if accessors[0](part).Some? then accessors[0](part)
    else FirstHit(accessors[1..], part)
  }

  lemma FirstHitOfThree(a: JsValue -> Option<JsValue>, b: JsValue -> Option<JsValue>,
                        c: JsValue -> Option<JsValue>, part: JsValue)
    ensures FirstHit([a, b, c], part)
      == if a(part).Some? then a(part) else if b(part).Some? then b(part) else FirstHit([c], part)
    ensures FirstHit([c], part) == c(part)
  {
    assert [a, b, c][1..] == [b, c];
    assert [b, c][1..] == [c];
    assert [c][1..] == [];
  }

  /** The `try` block of lines 51-63: a missing `output[0]`, a `content[0]` that is
      missing or `null`, or a part whose `String` throws, throws, which the `catch` turns
      into the empty string. The result is falsy only when it is the empty string. */
  function ExtractHtml(response: JsValue): (html: JsValue)
    ensures Path(response, FirstPartPath).None? || IsNullish(Path(response, FirstPartPath).value)
      ==> html == Str("")
    ensures !Truthy(html) ==> html == Str("")
  {
    match Path(response, FirstPartPath)
    case None => Str("")
    case Some(part) =>
      if IsNullish(part) then Str("")
      else
        var text := Get(part, Key("text"));
        if text.Str? then text
        else
          var value := OptionalMember(text, Key("value"));
          if Truthy(value) then value
          else match ToJsString(part)
            case Some(s) => Str(s)
            case None => Str("")
  }

  /** Once `output[0].content[0]` is reached and is not nullish, the HTML is what the
      first accessor that yields gives, in the fixed order bare text, `text.value`,
      string form; so the string form is used only when neither text accessor yields. */
  lemma ExtractHtmlIsFirstHit(response: JsValue)
    requires Path(response, FirstPartPath).Some?
    requires !IsNullish(Path(response, FirstPartPath).value)
    ensures Some(ExtractHtml(response))
      == FirstHit([TextAccessor, ValueAccessor, RenderAccessor], Path(response, FirstPartPath).value)
  {
    FirstHitOfThree(TextAccessor, ValueAccessor, RenderAccessor, Path(response, FirstPartPath).value);
  }

  /** `POST(req)` as a decision over the credential, the parsed body and the provider's
      outcome. */
  function Post(apiKey: Option<string>, body: JsonBody, provider: ProviderOutcome): (x: Exchange)
    // the credential is checked first, before the body is read
    ensures !HasApiKey(apiKey) ==> x == Exchange(None, Reply(500, ErrorBody(MissingApiKey)))
    // a body that does not parse is a server error, not a client error
    ensures HasApiKey(apiKey) && body.Malformed? ==> x == Exchange(None, FailureReply(body.error))
    // a body that parses to `null` throws on destructuring and is a server error too
    ensures HasApiKey(apiKey) && body.Parsed? && IsNullish(body.value) ==>
      x == Exchange(None, FailureReply(DestructureError(body.value)))
    // a missing, empty or non-string prompt is refused and the provider is not called
    ensures x.reply.status == 400 <==>
      HasApiKey(apiKey) && body.Parsed? && !IsNullish(body.value)
      && !IsUsablePrompt(Get(body.value, Key("prompt")))
    ensures x.reply.status == 400 ==> x == Exchange(None, Reply(400, ErrorBody(MissingPrompt)))
    ensures x.call.Some? <==>
      HasApiKey(apiKey) && body.Parsed? && !IsNullish(body.value)
      && IsUsablePrompt(Get(body.value, Key("prompt")))
    ensures x.call.Some? ==>
      x.call.value == Call(ProviderModel,
        ComposePrompt(Get(body.value, Key("prompt")).s, Get(body.value, Key("mode"))))
    // a rejected call reports the error's description
    ensures x.call.Some? && provider.Rejected? ==> x.reply == FailureReply(provider.error)
    // an empty extraction is a server error; anything else is sent back unmodified
    ensures x.call.Some? && provider.Responded? ==>
      x.reply == if ExtractHtml(provider.response) == Str("")
                 then Reply(500, ErrorBody(EmptyResponse))
                 else Reply(200, map["html" := ExtractHtml(provider.response)])
    ensures x.reply.status == 200 ==> "html" in x.reply.body && Truthy(x.reply.body["html"])
    ensures x.reply.status in {200, 400, 500}
  {
    if !HasApiKey(apiKey) then Exchange(None, Reply(500, ErrorBody(MissingApiKey)))
    else match body
      case Malformed(err) => Exchange(None, FailureReply(err))
      case Parsed(v) =>
        if IsNullish(v) then Exchange(None, FailureReply(DestructureError(v)))
        else
          var prompt := Get(v, Key("prompt"));
          var mode := Get(v, Key("mode"));
          if !IsUsablePrompt(prompt) then Exchange(None, Reply(400, ErrorBody(MissingPrompt)))
          else
            Relay(Call(ProviderModel, ComposePrompt(prompt.s, mode)), provider)
  }

  /** From the provider call on: a rejection is reported, an empty extraction is a
      server error, anything else is sent back unmodified with status 200. */
  function Relay(call: Call, provider: ProviderOutcome): (x: Exchange)
    ensures x.call == Some(call)
    ensures provider.Rejected? ==> x.reply == FailureReply(provider.error)
    ensures provider.Responded? ==>
      x.reply == if ExtractHtml(provider.response) == Str("")
                 then Reply(500, ErrorBody(EmptyResponse))
                 else Reply(200, map["html" := ExtractHtml(provider.response)])
    ensures x.reply.status == 200 ==> "html" in x.reply.body && Truthy(x.reply.body["html"])
  {
    match provider
    case Rejected(err) => Exchange(Some(call), FailureReply(err))
    case Responded(response) =>
      var html := ExtractHtml(response);
      if !Truthy(html) then Exchange(Some(call), Reply(500, ErrorBody(EmptyResponse)))
      else Exchange(Some(call), Reply(200, map["html" := html]))
  }

  /** A missing credential wins over every other defect of the request. */
  lemma MissingKeyWinsOverPrompt(body: JsonBody, provider: ProviderOutcome)
    ensures Post(None, body, provider).reply == Reply(500, ErrorBody(MissingApiKey))
    ensures Post(Some(""), body, provider).reply == Reply(500, ErrorBody(MissingApiKey))
  {
  }

  /** The three accessors on concrete response shapes: a bare text string, a text record
      with a value, a string part, and a record part without usable text (rendered as
      "[object Object]" and sent with status 200). */
  lemma ExtractHtmlShapes(s: string)
    requires s != ""
    ensures ExtractHtml(Obj(map["output" := Arr([Obj(map["content" :=
              Arr([Obj(map["text" := Str(s)])])])])])) == Str(s)
    ensures ExtractHtml(Obj(map["output" := Arr([Obj(map["content" :=
              Arr([Obj(map["text" := Obj(map["value" := Str(s)])])])])])])) == Str(s)
    ensures ExtractHtml(Obj(map["output" := Arr([Obj(map["content" := Arr([Str(s)])])])])) == Str(s)
    ensures ExtractHtml(Obj(map["output" := Arr([Obj(map["content" :=
              Arr([Obj(map["text" := Obj(map[])])])])])])) == Str("[object Object]")
  {
    var text := Obj(map["text" := Str(s)]);
    assert TextAccessor(text) == Some(Str(s));
    var record := Obj(map["text" := Obj(map["value" := Str(s)])]);
    assert TextAccessor(record) == None;
    assert ValueAccessor(record) == Some(Str(s));
    assert TextAccessor(Str(s)) == None;
    assert ValueAccessor(Str(s)) == None;
    var bare := Obj(map["text" := Obj(map[])]);
    assert TextAccessor(bare) == None;
    assert ValueAccessor(bare) == None;
  }

  /** Shapes whose access throws, so the relay answers 500: an empty `output`, an empty
      `content`, a `null` first content part, and a part without text whose own
      `toString` key makes `String` throw. */
  lemma ExtractHtmlEmptyShapes()
    ensures ExtractHtml(Obj(map["output" := Arr([])])) == Str("")
    ensures ExtractHtml(Obj(map["output" := Arr([Obj(map["content" := Arr([])])])])) == Str("")
    ensures ExtractHtml(Obj(map["output" := Arr([Obj(map["content" := Arr([Null])])])])) == Str("")
    ensures ExtractHtml(Obj(map["output" := Arr([Obj(map["content" :=
              Arr([Obj(map["toString" := Str("x")])])])])])) == Str("")
  {
    var noContent := Obj(map["output" := Arr([Obj(map["content" := Arr([])])])]);
    assert Path(noContent, FirstPartPath) == Some(Undefined);
    var nullPart := Obj(map["output" := Arr([Obj(map["content" := Arr([Null])])])]);
    assert Path(nullPart, FirstPartPath) == Some(Null);
    var rec := Obj(map["toString" := Str("x")]);
    var recPart := Obj(map["output" := Arr([Obj(map["content" := Arr([rec])])])]);
    assert Path(recPart, FirstPartPath) == Some(rec);
    assert Get(rec, Key("text")) == Undefined && ToJsString(rec) == None;
  }
}
