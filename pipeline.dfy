/** The page and a relay together: the page posts `{ prompt: input }` to `/api/generate`
    and reads the relay's reply as a `fetch` response. Either relay may answer that path,
    so each is connected to the page here. */
module Pipeline {
  import opened Js
  import opened Http
  import LegacyHandler
  import RouteHandler
  import HomePage

  /** The body the page sends: `JSON.stringify({ prompt: input })`, parsed back. */
  function PageBody(input: string): JsValue {
    Obj(map["prompt" := Str(input)])
  }

  /** How the page's `fetch` sees a reply: `res.ok` holds for a status from 200 to 299,
      and `res.json()` then yields the reply's object body. */
  function ClientView(reply: Reply): (o: HomePage.FetchOutcome)
    ensures o.NotOk? <==> !(200 <= reply.status <= 299)
    ensures o.Delivered? ==> o.data == Obj(reply.body)
    ensures !o.Failed?
  {
    if 200 <= reply.status <= 299 then HomePage.Delivered(Obj(reply.body)) else HomePage.NotOk
  }

  /** A description the page agrees to send is one both relays accept. */
  lemma {:induction false} SentPromptIsUsable(input: string)
    requires !IsBlank(input)
    ensures LegacyHandler.IsUsablePrompt(LegacyHandler.BodyField(PageBody(input), "prompt"))
    ensures RouteHandler.IsUsablePrompt(Get(PageBody(input), Key("prompt")))
  {
    assert input != [] by {
      if input == [] {
        assert IsBlank(input);
      }
    }
  }

  /** With the serverless relay: the provider is called with the description; the page
      previews the relay's `output` (the extracted text, or the fixed notice when there is
      none), and a failed provider call shows the generation error. */
  lemma {:induction false} LegacyRoundTrip(input: string, provider: ProviderOutcome)
    requires !IsBlank(input)
    ensures
      var x := LegacyHandler.Handle(LegacyHandler.Request("POST", PageBody(input)), provider);
      x.call.Some? && x.call.value.input[1].content == input
      && HomePage.Settle(ClientView(x.reply)) ==
         match provider
         case Rejected(_) => HomePage.Fail(HomePage.GenerationError)
         case Responded(response) =>
           var text := LegacyHandler.ExtractOutput(response);
           HomePage.Show(if text != "" then text else LegacyHandler.NoOutputMessage)
  {
    SentPromptIsUsable(input);
    var x := LegacyHandler.Handle(LegacyHandler.Request("POST", PageBody(input)), provider);
    match provider {
      case Rejected(_) =>
        assert x.reply.status == 500;
      case Responded(response) =>
        var text := LegacyHandler.ExtractOutput(response);
        var output := if text != "" then text else LegacyHandler.NoOutputMessage;
        assert x.reply == Reply(200, map["output" := Str(output)]);
        var data := Obj(x.reply.body);
        assert Get(data, Key("html")) == Undefined;
        assert Get(data, Key("result")) == Undefined;
        assert Get(data, Key("output")) == Str(output);
        HomePage.ContentPriority(data);
        assert HomePage.Content(data) == Str(output);
    }
  }

  /** With the route relay: a missing key and a failed provider call both show the
      generation error; an empty extraction does too (the relay answers 500); any other
      extraction is previewed as its string form, or ends in the network error when
      `String` of it throws on the page. */
  lemma {:induction false} RouteRoundTrip(apiKey: Option<string>, input: string, provider: ProviderOutcome)
    requires !IsBlank(input)
    ensures
      var x := RouteHandler.Post(apiKey, RouteHandler.Parsed(PageBody(input)), provider);
      (x.call.Some? <==> RouteHandler.HasApiKey(apiKey))
      && HomePage.Settle(ClientView(x.reply)) ==
         if !RouteHandler.HasApiKey(apiKey) || provider.Rejected? then HomePage.Fail(HomePage.GenerationError)
         else
           var html := RouteHandler.ExtractHtml(provider.response);
           if html == Str("") then HomePage.Fail(HomePage.GenerationError)
           else HomePage.Preview(html)
  {
    SentPromptIsUsable(input);
    var body := PageBody(input);
    var x := RouteHandler.Post(apiKey, RouteHandler.Parsed(body), provider);
    if RouteHandler.HasApiKey(apiKey) {
      var prompt := Get(body, Key("prompt"));
      var call := RouteHandler.Call(RouteHandler.ProviderModel,
        RouteHandler.ComposePrompt(prompt.s, Get(body, Key("mode"))));
      assert x == RouteHandler.Relay(call, provider);
      RelayAsSeenByPage(call, provider);
    }
  }

  /** What the page makes of the route relay's reply once the provider has been called. */
  lemma RelayAsSeenByPage(call: RouteHandler.Call, provider: ProviderOutcome)
    ensures
      HomePage.Settle(ClientView(RouteHandler.Relay(call, provider).reply)) ==
        if provider.Rejected? then HomePage.Fail(HomePage.GenerationError)
        else
          var html := RouteHandler.ExtractHtml(provider.response);
          if html == Str("") then HomePage.Fail(HomePage.GenerationError)
          else HomePage.Preview(html)
  {
    var x := RouteHandler.Relay(call, provider);
    if provider.Responded? {
      var html := RouteHandler.ExtractHtml(provider.response);
      if html != Str("") {
        assert x.reply == Reply(200, map["html" := html]);
        var data := Obj(x.reply.body);
        assert Get(data, Key("html")) == html && Truthy(html);
        HomePage.ContentPriority(data);
      }
    }
  }

  /** Neither relay's reply makes the page report an empty page. The serverless relay's
      reply is previewed or shows the generation error. The route relay's reply shows the
      network error exactly when it passes on, with status 200, a value whose `String`
      throws on the page. */
  lemma RelaysNeverLookEmpty(apiKey: Option<string>, input: string, provider: ProviderOutcome)
    requires !IsBlank(input)
    ensures
      var legacy := HomePage.Settle(ClientView(
        LegacyHandler.Handle(LegacyHandler.Request("POST", PageBody(input)), provider).reply));
      legacy.Show? || legacy == HomePage.Fail(HomePage.GenerationError)
    ensures
      var route := HomePage.Settle(ClientView(
        RouteHandler.Post(apiKey, RouteHandler.Parsed(PageBody(input)), provider).reply));
      route != HomePage.Fail(HomePage.NoPageError) && route != HomePage.Fail(HomePage.NetworkError)
      && (HomePage.ShownError(route) == Some(HomePage.NetworkError) <==>
          RouteHandler.HasApiKey(apiKey) && provider.Responded?
          && RouteHandler.ExtractHtml(provider.response) != Str("")
          && ToJsString(RouteHandler.ExtractHtml(provider.response)).None?)
  {
    LegacyRoundTrip(input, provider);
    RouteRoundTrip(apiKey, input, provider);
    assert HomePage.GenerationError != HomePage.NetworkError;
  }

  /** A provider `text.value` that is a record with its own `toString` key passes the
      route relay as the HTML, with status 200, and then makes the page's `String` throw:
      the user sees the network error. */
  lemma RecordWithOwnToString(apiKey: string, input: string)
    requires apiKey != "" && !IsBlank(input)
    ensures
      var rec := Obj(map["toString" := Str("x")]);
      var part := Obj(map["text" := Obj(map["value" := rec])]);
      var response := Obj(map["output" := Arr([Obj(map["content" := Arr([part])])])]);
      var x := RouteHandler.Post(Some(apiKey), RouteHandler.Parsed(PageBody(input)), Responded(response));
      x.reply == Reply(200, map["html" := rec])
      && HomePage.Settle(ClientView(x.reply)) == HomePage.StringThrew
  {
    var rec := Obj(map["toString" := Str("x")]);
    var part := Obj(map["text" := Obj(map["value" := rec])]);
    var response := Obj(map["output" := Arr([Obj(map["content" := Arr([part])])])]);
    assert Path(response, RouteHandler.FirstPartPath) == Some(part);
    assert RouteHandler.ExtractHtml(response) == rec;
    RouteRoundTrip(Some(apiKey), input, Responded(response));
  }
}
