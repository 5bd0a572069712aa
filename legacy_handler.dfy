/** The serverless relay (api/generate.js, `handler`): checks the HTTP method and the
    prompt, chooses the system instructions and the output-token budget from the mode,
    makes one provider call, reads the text at `output[0].content[0].text.value`, and
    answers with a status and a JSON body. */
module LegacyHandler {
  import opened Js
  import opened Http

  const MethodNotAllowedMessage: string := "Méthode non autorisée"
  const MissingPromptMessage: string := "Prompt manquant"
  const NoOutputMessage: string := "Aucune réponse générée. Vérifie ta clé API et ton crédit."
  const ProviderErrorMessage: string :=
    "Erreur lors de la génération. Vérifie OPENAI_API_KEY sur Vercel et ton crédit."

  const ProviderModel: string := "gpt-5.1"

  /** The budget `maxTokens` starts with; both branches overwrite it before the call. */
  const InitialMaxTokens: nat := 1200
  const ChatMaxTokens: nat := 700
  const SiteMaxTokens: nat := 2800

  /** System instructions of the two modes; only their first sentence is kept here. */
  const ChatInstructions: string := "Tu es l'assistant interne \"Support IA — Ultimated\"."
  const SiteInstructions: string := "Tu es un expert en design web ultra luxe (noir & or, style Ultimated Studio)."

  /** An incoming request: its method and its parsed body (`Undefined` when absent). */
  datatype Request = Request(verb: string, body: JsValue)

  datatype Message = Message(role: string, content: string)

  /** The arguments of the one provider call. */
  datatype Call = Call(model: string, input: seq<Message>, maxOutputTokens: nat)

  /** The provider call the relay made, if any, and the reply it sent. */
  datatype Exchange = Exchange(call: Option<Call>, reply: Reply)

  /** `const { prompt, mode } = req.body || {}`: a falsy body reads as an empty object,
      so destructuring it never throws. */
  function BodyField(body: JsValue, name: string): (r: JsValue)
    ensures !Truthy(body) ==> r == Undefined
    ensures body.Obj? ==> r == if name in body.fields then body.fields[name] else Undefined
    ensures !body.Obj? ==> r == Undefined
  {
    var b := if Truthy(body) then body else Obj(map[]);
    Get(b, Key(name))
  }

  /** The negation of `!prompt || typeof prompt !== "string"`. */
  predicate IsUsablePrompt(prompt: JsValue) {
    prompt.Str? && prompt.s != ""
  }

  /** `mode === "chat"` selects the short budget, any other mode (absent included) the
      long one; the initial 1200 never reaches the call. */
  function MaxTokens(mode: JsValue): (n: nat)
    ensures n == ChatMaxTokens <==> mode == Str("chat")
    ensures n == SiteMaxTokens <==> mode != Str("chat")
    ensures n != InitialMaxTokens
  {
    if mode == Str("chat") then ChatMaxTokens else SiteMaxTokens
  }

  /** `mode === "chat"` selects the support instructions; every other mode, absent
      included, the site instructions. */
  function SystemPrompt(mode: JsValue): (p: string)
    ensures p == ChatInstructions <==> mode == Str("chat")
    ensures p == SiteInstructions <==> mode != Str("chat")
  {
    if mode == Str("chat") then ChatInstructions else SiteInstructions
  }

  /** The call to the fixed model: the mode's system message first, then the user's
      prompt unchanged, with the mode's token budget. */
  function ProviderCall(prompt: string, mode: JsValue): (c: Call)
    ensures |c.input| == 2
    ensures c.model == ProviderModel
    ensures c.input[0] == Message("system", SystemPrompt(mode)) && c.input[1] == Message("user", prompt)
    ensures c.maxOutputTokens == MaxTokens(mode)
  {
    Call(ProviderModel, [Message("system", SystemPrompt(mode)), Message("user", prompt)], MaxTokens(mode))
  }

  /** Mode "chat" sends the support instructions with 700 tokens; every other mode sends
      the site instructions with 2800. */
  lemma ProviderCallByMode(prompt: string, mode: JsValue)
    ensures mode == Str("chat") ==>
      ProviderCall(prompt, mode).input[0].content == ChatInstructions
      && ProviderCall(prompt, mode).maxOutputTokens == 700
    ensures mode != Str("chat") ==>
      ProviderCall(prompt, mode).input[0].content == SiteInstructions
      && ProviderCall(prompt, mode).maxOutputTokens == 2800
  {
  }

  /** The accessor path the relay reads: `output[0].content[0].text.value`. */
  const TextValuePath: seq<Step> :=
    [Key("output"), Index(0), Key("content"), Index(0), Key("text"), Key("value")]

  /** The guarded `&&` chain of the inner `try`: each step is taken only when the value
      before it is truthy, and a nullish response throws at the first access, which the
      inner `catch` absorbs. The text is taken exactly when plain access along the path
      reaches a string, so no falsy intermediate value changes the outcome. */
  function ExtractOutput(response: JsValue): (r: string)
    ensures r == match Path(response, TextValuePath)
                 case Some(Str(s)) => s
                 case _ => ""
  {
    if IsNullish(response) then ""
    else
      var output := Get(response, Key("output"));
      if !Truthy(output) then "" else
      var item := Get(output, Index(0));
      if !Truthy(item) then "" else
      var content := Get(item, Key("content"));
      if !Truthy(content) then "" else
      var part := Get(content, Index(0));
      if !Truthy(part) then "" else
      var text := Get(part, Key("text"));
      if !Truthy(text) then "" else
      var value := Get(text, Key("value"));
      if value.Str? then value.s else ""
  }

  /** `handler(req, res)` as a decision over the request and the provider's outcome. */
  function Handle(req: Request, provider: ProviderOutcome): (x: Exchange)
    // any method but POST is refused before the body is looked at
    ensures req.verb != "POST" ==> x == Exchange(None, Reply(405, ErrorBody(MethodNotAllowedMessage)))
    // a missing, empty or non-string prompt is refused and the provider is not called
    ensures req.verb == "POST" && !IsUsablePrompt(BodyField(req.body, "prompt")) ==>
      x == Exchange(None, Reply(400, ErrorBody(MissingPromptMessage)))
    ensures x.call.Some? <==> req.verb == "POST" && IsUsablePrompt(BodyField(req.body, "prompt"))
    ensures x.call.Some? ==>
      x.call.value == ProviderCall(BodyField(req.body, "prompt").s, BodyField(req.body, "mode"))
    // a rejected provider call gives the fixed server error
    ensures x.call.Some? && provider.Rejected? ==> x.reply == Reply(500, ErrorBody(ProviderErrorMessage))
    // success: status 200 with a non-empty `output`, the extracted text or the fixed notice
    ensures x.reply.status == 200 <==> x.call.Some? && provider.Responded?
    ensures x.reply.status == 200 ==>
      var text := ExtractOutput(provider.response);
      x.reply.body == map["output" := Str(if text != "" then text else NoOutputMessage)]
    ensures x.reply.status == 200 ==> Truthy(x.reply.body["output"])
    ensures x.reply.status in {200, 400, 405, 500}
  {
    if req.verb != "POST" then Exchange(None, Reply(405, ErrorBody(MethodNotAllowedMessage)))
    else
      var prompt := BodyField(req.body, "prompt");
      var mode := BodyField(req.body, "mode");
      if !IsUsablePrompt(prompt) then Exchange(None, Reply(400, ErrorBody(MissingPromptMessage)))
      else
        var call := ProviderCall(prompt.s, mode);
        match provider
        case Rejected(_) => Exchange(Some(call), Reply(500, ErrorBody(ProviderErrorMessage)))
        case Responded(response) =>
          var extracted := ExtractOutput(response);
          var output := if extracted == "" then NoOutputMessage else extracted;
          Exchange(Some(call), Reply(200, map["output" := Str(output)]))
  }

  /** The documented response shape yields its text verbatim with status 200. */
  lemma HandleReturnsProviderText(prompt: string, html: string)
    requires prompt != "" && html != ""
    ensures
      var part := Obj(map["text" := Obj(map["value" := Str(html)])]);
      var item := Obj(map["content" := Arr([part])]);
      var response := Obj(map["output" := Arr([item])]);
      var req := Request("POST", Obj(map["prompt" := Str(prompt)]));
      Handle(req, Responded(response)).reply == Reply(200, map["output" := Str(html)])
  {
    var part := Obj(map["text" := Obj(map["value" := Str(html)])]);
    var item := Obj(map["content" := Arr([part])]);
    var response := Obj(map["output" := Arr([item])]);
    assert ExtractOutput(response) == html;
  }

  /** A text that is a bare string (`content[0].text === "…"`) is not read by this relay:
      the reply is the fixed notice. */
  lemma HandleIgnoresBareText(prompt: string, html: string)
    requires prompt != "" && html != ""
    ensures
      var part := Obj(map["text" := Str(html)]);
      var response := Obj(map["output" := Arr([Obj(map["content" := Arr([part])])])]);
      var req := Request("POST", Obj(map["prompt" := Str(prompt)]));
      Handle(req, Responded(response)).reply == Reply(200, map["output" := Str(NoOutputMessage)])
  {
    var part := Obj(map["text" := Str(html)]);
    var response := Obj(map["output" := Arr([Obj(map["content" := Arr([part])])])]);
    assert ExtractOutput(response) == "";
  }
}
