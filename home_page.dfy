/** The client page (app/page.tsx, `HomePage`): its state cells and the handlers that
    update them. The `fetch` to the relay is an input, its outcome given to the handler
    that runs when the request settles. */
module HomePage {
  import opened Js
  import Slug

  const GenerationError: string := "Erreur pendant la génération (voir logs Vercel)."
  const NoPageError: string := "Aucune page générée."
  const NetworkError: string := "Erreur réseau ou serveur."

  /** The two screens: 1 is the idea form, 2 the dashboard with the preview. */
  type Step = n: int | n == 1 || n == 2 witness 1

  /** How the request to the relay settles: a response whose `ok` is false; a rejection
      (network failure, or a body that is not JSON); or the parsed JSON body of an ok
      response. */
  datatype FetchOutcome = NotOk | Failed | Delivered(data: JsValue)

  /** The first value in the list that is neither `null` nor `undefined`, else "". */
  function FirstPresent(values: seq<JsValue>): (r: JsValue)
    ensures !IsNullish(r)
    decreases |values|
  {
    if values == [] then Str("")
    else if !IsNullish(values[0]) then values[0]
    else FirstPresent(values[1..])
  }

  /** `data.html ?? data.result ?? data.output ?? data.text ?? ""` */
  function Content(data: JsValue): (c: JsValue)
    requires !IsNullish(data)
    ensures c == FirstPresent([Get(data, Key("html")), Get(data, Key("result")),
                               Get(data, Key("output")), Get(data, Key("text"))])
  {
    var html, result, output, text :=
      Get(data, Key("html")), Get(data, Key("result")), Get(data, Key("output")), Get(data, Key("text"));
    FirstPresentOfFour(html, result, output, text);
    Coalesce(Coalesce(Coalesce(Coalesce(html, result), output), text), Str(""))
  }

  /** A left-nested `??` chain ending in "" picks the first present value. */
  lemma {:induction false} FirstPresentOfFour(a: JsValue, b: JsValue, c: JsValue, d: JsValue)
    ensures FirstPresent([a, b, c, d])
      == Coalesce(Coalesce(Coalesce(Coalesce(a, b), c), d), Str(""))
  {
    assert [a, b, c, d][1..] == [b, c, d];
    assert [b, c, d][1..] == [c, d];
    assert [c, d][1..] == [d];
    assert [d][1..] == [];
    assert FirstPresent([d]) == Coalesce(d, Str(""));
    assert FirstPresent([c, d]) == Coalesce(c, FirstPresent([d]));
    assert FirstPresent([b, c, d]) == Coalesce(b, FirstPresent([c, d]));
    assert FirstPresent([a, b, c, d]) == Coalesce(a, FirstPresent([b, c, d]));
  }

  /** A present but empty `html` shadows every later field: the page reports that no
      page was generated even when `output` holds text. */
  lemma EmptyHtmlShadows(text: string)
    ensures Content(Obj(map["html" := Str(""), "output" := Str(text)])) == Str("")
  {
  }

  /** A field is used only when every field before it is absent. */
  lemma ContentPriority(data: JsValue)
    requires !IsNullish(data)
    ensures !IsNullish(Get(data, Key("html"))) ==> Content(data) == Get(data, Key("html"))
    ensures IsNullish(Get(data, Key("html"))) && !IsNullish(Get(data, Key("result"))) ==>
      Content(data) == Get(data, Key("result"))
    ensures IsNullish(Get(data, Key("html"))) && IsNullish(Get(data, Key("result")))
            && !IsNullish(Get(data, Key("output")))
            ==> Content(data) == Get(data, Key("output"))
    ensures IsNullish(Get(data, Key("html"))) && IsNullish(Get(data, Key("result")))
            && IsNullish(Get(data, Key("output")))
            ==> Content(data) == Coalesce(Get(data, Key("text")), Str(""))
  {
  }

  /** What a settled request leads to: the HTML to preview; a message to show; or
      `String(content)` throwing after the slug and the preview loader were set, which
      the `catch` reports as the network error. */
  datatype Verdict = Show(html: string) | Fail(message: string) | StringThrew

  /** The error message the page shows for a verdict, if any. */
  function ShownError(v: Verdict): Option<string> {
    match v
    case Show(_) => None
    case Fail(message) => Some(message)
    case StringThrew => Some(NetworkError)
  }

  /** A truthy content is previewed as `String(content)`, unless that throws. */
  function Preview(content: JsValue): (v: Verdict)
    ensures v.Show? <==> ToJsString(content).Some?
    ensures v.Show? ==> v.html == ToJsString(content).value
    ensures !v.Show? ==> v == StringThrew
  {
    match ToJsString(content)
    case Some(s) => Show(s)
    case None => StringThrew
  }

  /** The decision of lines 43-73: a response that is not ok, a rejection, a body on
      which reading `data.html` throws, and an empty content each give their message; a
      truthy content is previewed as `String(content)`, and a `String` that throws ends
      in the network error after the slug was set. */
  function Settle(outcome: FetchOutcome): (v: Verdict)
    ensures v.Show? || v == StringThrew <==>
      outcome.Delivered? && !IsNullish(outcome.data) && Truthy(Content(outcome.data))
    ensures v.Show? || v == StringThrew ==> v == Preview(Content(outcome.data))
    ensures outcome.NotOk? ==> v == Fail(GenerationError)
    ensures outcome.Failed? || (outcome.Delivered? && IsNullish(outcome.data)) ==> v == Fail(NetworkError)
    ensures outcome.Delivered? && !IsNullish(outcome.data) && !Truthy(Content(outcome.data)) ==>
      v == Fail(NoPageError)
  {
    match outcome
    case NotOk => Fail(GenerationError)
    case Failed => Fail(NetworkError)
    case Delivered(data) =>
      if IsNullish(data) then Fail(NetworkError)
      else
        var content := Content(data);
        if !Truthy(content) then Fail(NoPageError) else Preview(content)
  }

  /** The page's React state cells. */
  class Page {
    var input: string
    var html: Option<string>
    var error: Option<string>
    var loading: bool
    var step: Step
    var slug: Option<string>
    var publishing: bool
    var previewLoading: bool

    /** What every handler keeps: a slug, once set, is a slug; the dashboard has one;
        HTML is shown only on the dashboard and never beside an error; and a request in
        flight has cleared the error. */
    ghost predicate Valid()
      reads this
    {
      (slug.Some? ==> Slug.IsSlug(slug.value))
      && (step == 2 ==> slug.Some?)
      && (html.Some? ==> step == 2)
      && (error.Some? ==> html.None?)
      && (loading ==> error.None?)
    }

    constructor ()
      ensures Valid()
      ensures input == "" && html.None? && error.None? && !loading && step == 1
      ensures slug.None? && !publishing && !previewLoading
    {
      input := "";
      html := None;
      error := None;
      loading := false;
      step := 1;
      slug := None;
      publishing := false;
      previewLoading := false;
    }

    /** The text area's `onChange` and the example chips: `setInput`. */
    method EditInput(text: string)
      requires Valid()
      modifies this
      ensures Valid()
      ensures input == text
      ensures html == old(html) && error == old(error) && loading == old(loading)
      ensures step == old(step) && slug == old(slug)
      ensures publishing == old(publishing) && previewLoading == old(previewLoading)
    {
      input := text;
    }

    /** The start of `generateSite`: nothing happens for a blank description or while a
        request is in flight; otherwise the request starts with the error cleared. */
    method BeginGenerate() returns (started: bool)
      requires Valid()
      modifies this
      ensures Valid()
      ensures started <==> !IsBlank(old(input)) && !old(loading)
      ensures !started ==> unchanged(this)
      ensures started ==> loading && error.None?
      ensures started ==> input == old(input) && html == old(html) && step == old(step)
      ensures started ==> slug == old(slug) && publishing == old(publishing)
      ensures started ==> previewLoading == old(previewLoading)
    {
      TrimEmptyIffBlank(input);
      if Trim(input) == [] || loading {
        return false;
      }
      loading := true;
      error := None;
      return true;
    }

    /** The rest of `generateSite`, once the request for the description `submitted` has
        settled: an error leaves the screen as it is and clears the HTML; a content moves
        to the dashboard with the slug of the description and the preview loader on. The
        request ends with `loading` false in every case. */
    method ReceiveResponse(submitted: string, outcome: FetchOutcome)
      requires Valid() && loading
      modifies this
      ensures Valid()
      ensures !loading
      ensures input == old(input) && publishing == old(publishing)
      ensures Settle(outcome).Fail? ==>
        html.None? && error == Some(Settle(outcome).message)
        && step == old(step) && slug == old(slug) && previewLoading == old(previewLoading)
      ensures Settle(outcome).Show? ==>
        html == Some(Settle(outcome).html) && error.None? && step == 2
        && slug == Some(Slug.Slugify(submitted)) && previewLoading
      ensures Settle(outcome) == StringThrew ==>
        html.None? && error == Some(NetworkError) && step == old(step)
        && slug == Some(Slug.Slugify(submitted)) && previewLoading
    {
      ApplyVerdict(Slug.Slugify(submitted), Settle(outcome));
    }

    /** The cells each branch of the `try` at lines 43-73 sets, by the branch's verdict:
        a failure clears the HTML and sets its message; a preview opens the dashboard; a
        `String(content)` that throws leaves the slug and the preview loader set by lines
        64-66 and shows the network error. The `finally` then ends the request. */
    method ApplyVerdict(s: string, v: Verdict)
      requires Valid() && loading && Slug.IsSlug(s)
      modifies this
      ensures Valid()
      ensures !loading
      ensures v.Show? ==> error.None?
      ensures input == old(input) && publishing == old(publishing)
      ensures v.Fail? ==>
        html.None? && error == Some(v.message)
        && step == old(step) && slug == old(slug) && previewLoading == old(previewLoading)
      ensures v.Show? ==> html == Some(v.html) && step == 2 && slug == Some(s) && previewLoading
      ensures v == StringThrew ==>
        html.None? && error == Some(NetworkError) && step == old(step)
        && slug == Some(s) && previewLoading
    {
      match v {
        case Fail(message) =>
          error := Some(message);
          html := None;
        case Show(page) =>
          OpenDashboard(s, page);
        case StringThrew =>
          slug := Some(s);
          previewLoading := true;
          error := Some(NetworkError);
          html := None;
      }
      loading := false;
    }

    /** The success branch of `generateSite`: the slug, the preview loader, the HTML and
        the dashboard screen are set together. */
    method OpenDashboard(s: string, page: string)
      requires Valid() && loading && Slug.IsSlug(s)
      modifies this
      ensures Valid()
      ensures slug == Some(s) && previewLoading && html == Some(page) && step == 2
      ensures error.None? && loading
      ensures input == old(input) && publishing == old(publishing)
    {
      slug := Some(s);
      previewLoading := true;
      html := Some(page);
      step := 2;
    }

    /** `generateSite` as one click whose request settles with `outcome`. */
    method GenerateSite(outcome: FetchOutcome)
      requires Valid()
      modifies this
      ensures Valid()
      ensures IsBlank(old(input)) || old(loading) ==> unchanged(this)
      ensures !IsBlank(old(input)) && !old(loading) ==>
        !loading && input == old(input) && publishing == old(publishing)
        && match Settle(outcome)
           case Fail(message) =>
             html.None? && error == Some(message)
             && step == old(step) && slug == old(slug) && previewLoading == old(previewLoading)
           case Show(page) =>
             html == Some(page) && error.None? && step == 2
             && slug == Some(Slug.Slugify(old(input))) && previewLoading
           case StringThrew =>
             html.None? && error == Some(NetworkError) && step == old(step)
             && slug == Some(Slug.Slugify(old(input))) && previewLoading
    {
      var started := BeginGenerate();
      if started {
        ReceiveResponse(input, outcome);
      }
    }

    /** The back button: the idea screen again, without HTML or error; the description
        and the slug stay. */
    method Back()
      requires Valid()
      modifies this
      ensures Valid()
      ensures step == 1 && html.None? && error.None?
      ensures input == old(input) && slug == old(slug) && loading == old(loading)
      ensures publishing == old(publishing) && previewLoading == old(previewLoading)
    {
      step := 1;
      html := None;
      error := None;
    }

    /** `handlePublish`: nothing happens without a slug; otherwise publishing starts. */
    method HandlePublish()
      requires Valid()
      modifies this
      ensures Valid()
      ensures old(slug).None? || old(slug) == Some("") ==> unchanged(this)
      ensures old(slug).Some? && old(slug) != Some("") ==>
        publishing && input == old(input) && html == old(html) && error == old(error)
        && loading == old(loading) && step == old(step) && slug == old(slug)
        && previewLoading == old(previewLoading)
    {
      if slug.None? || slug.value == "" {
        return;
      }
      publishing := true;
    }

    /** The timer set by `handlePublish` fires: publishing ends. */
    method PublishTimerFired()
      requires Valid()
      modifies this
      ensures Valid()
      ensures !publishing
      ensures input == old(input) && html == old(html) && error == old(error)
      ensures loading == old(loading) && step == old(step) && slug == old(slug)
      ensures previewLoading == old(previewLoading)
    {
      publishing := false;
    }

    /** The preview frame's `onLoad`: the preview loader goes away. */
    method PreviewLoaded()
      requires Valid()
      modifies this
      ensures Valid()
      ensures !previewLoading
      ensures input == old(input) && html == old(html) && error == old(error)
      ensures loading == old(loading) && step == old(step) && slug == old(slug)
      ensures publishing == old(publishing)
    {
      previewLoading := false;
    }
  }
}
