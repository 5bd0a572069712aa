/** What crosses the HTTP boundary: the reply a relay sends, and the outcome of the one
    outbound call a relay makes to the text-generation provider. */
module Http {
  import opened Js

  /** An HTTP status and a JSON object body. */
  datatype Reply = Reply(status: nat, body: map<string, JsValue>)

  /** The provider call as seen by a relay: it resolves to a response value or rejects
      with a thrown error. The call itself is a foreign network call and is not modelled. */
  datatype ProviderOutcome = Responded(response: JsValue) | Rejected(error: Thrown)

  /** A JSON body carrying a single `error` string. */
  function ErrorBody(message: string): (b: map<string, JsValue>)
    ensures b.Keys == {"error"} && b["error"] == Str(message)
  {
    map["error" := Str(message)]
  }
}
