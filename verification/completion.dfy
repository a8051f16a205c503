/** The single completion request and how its outcome becomes reply text
    (`get_deepseek_response`, main.py:52-59). The HTTP exchange itself is not
    modelled: its outcome is an input. */
module Completion {
  import opened Wrappers

  /** A decoded JSON value (numbers kept as integers; they never matter here). */
  datatype Json =
    | JNull
    | JBool(b: bool)
    | JNumber(n: int)
    | JString(s: string)
    | JArray(items: seq<Json>)
    | JObject(fields: map<string, Json>)

  /** What the network call produced: no response at all (connection error,
      timeout), or a status code and a body that may not decode as JSON. */
  datatype HttpOutcome =
    | TransportFailure
    | Response(status: int, body: Option<Json>)

  /** The ways the call can fail; each one is caught by the same handler. */
  datatype ApiError =
    | TransportError
    | HttpError(status: int)
    | MalformedResponse

  /** The text the user sees whenever the call fails: a fixed, non-empty
      message that carries no detail of the error. */
  const Fallback: string := "Что-то пошло не так с моим мозгом (API). Проверь ключ или интернет."

  lemma FallbackIsVisible()
    ensures |Fallback| > 0
  {
  }

  /** `raise_for_status` raises for client (4xx) and server (5xx) errors only;
      informational, success and redirect statuses pass. */
  predicate IsErrorStatus(status: int)
    ensures IsErrorStatus(status) <==> status / 100 == 4 || status / 100 == 5
  {
    var clientError := 400 <= status < 500;
    var serverError := 500 <= status < 600;
    clientError || serverError
  }

  /** `data[key]` on a JSON object; anything else raises. */
  function Field(data: Json, key: string): (r: Option<Json>)
    ensures r.Some? <==> data.JObject? && key in data.fields
    ensures r.Some? ==> r.value == data.fields[key]
  {
    if data.JObject? && key in data.fields then Some(data.fields[key]) else None
  }

  /** `data[0]` on a non-empty JSON array. On a non-empty JSON string Python
      returns its first character instead, but the next step of the chain,
      `['message']` on a string, raises; the model fails at this step, so the
      chain as a whole fails on exactly the same inputs. Anything else raises. */
  function First(data: Json): (r: Option<Json>)
    ensures r.Some? <==> data.JArray? && |data.items| > 0
    ensures r.Some? ==> r.value == data.items[0]
  {
    if data.JArray? && |data.items| > 0 then Some(data.items[0]) else None
  }

  /** `data` carries a string at `choices[0].message.content`, whatever other
      fields it and its objects have. */
  predicate HasContent(data: Json) {
    data.JObject? && "choices" in data.fields &&
    data.fields["choices"].JArray? && |data.fields["choices"].items| > 0 &&
    var choice := data.fields["choices"].items[0];
    choice.JObject? && "message" in choice.fields &&
    var message := choice.fields["message"];
    message.JObject? && "content" in message.fields &&
    message.fields["content"].JString?
  }

  /** The string at `choices[0].message.content`. */
  function ContentAt(data: Json): string
    requires HasContent(data)
  {
    data.fields["choices"].items[0].fields["message"].fields["content"].s
  }

  /** `data['choices'][0]['message']['content']`, when every step succeeds and
      the field holds a string. */
  function ContentOf(data: Json): (r: Option<string>)
    ensures r.Some? <==> HasContent(data)
    ensures r.Some? ==> r.value == ContentAt(data)
  {
    match Field(data, "choices")
    case None => None
    case Some(choices) =>
      match First(choices)
      case None => None
      case Some(choice) =>
        match Field(choice, "message")
        case None => None
        case Some(message) =>
          match Field(message, "content")
          case Some(JString(s)) => Some(s)
          case _ => None
  }

  /** The smallest body a successful completion response has: one choice whose
      message content is `text`. */
  function CompletionBody(text: string): Json
  {
    JObject(map["choices" := JArray([JObject(map["message" := JObject(map["content" := JString(text)])])])])
  }

  /** Outcome of the guarded block: the content on success, otherwise the kind
      of exception that the handler catches. */
  function Complete(outcome: HttpOutcome): (r: Result<string, ApiError>)
    ensures outcome.TransportFailure? ==> r == Failure(TransportError)
    ensures outcome.Response? && IsErrorStatus(outcome.status) ==> r == Failure(HttpError(outcome.status))
    ensures outcome.Response? && !IsErrorStatus(outcome.status) && r.Failure? ==> r.error == MalformedResponse
    ensures r.Success? <==>
              outcome.Response? && !IsErrorStatus(outcome.status) &&
              outcome.body.Some? && HasContent(outcome.body.value)
    ensures r.Success? ==> r.value == ContentAt(outcome.body.value)
  {
    match outcome
    case TransportFailure => Failure(TransportError)
    case Response(status, body) =>
      if IsErrorStatus(status) then Failure(HttpError(status))
      else if body.None? then Failure(MalformedResponse)
      else match ContentOf(body.value)
        case None => Failure(MalformedResponse)
        case Some(text) => Success(text)
  }

  /** The value `get_deepseek_response` returns: the content, verbatim, or the
      fallback text for every failure. */
  function AiResponse(outcome: HttpOutcome): (text: string)
    ensures Complete(outcome).Failure? ==> text == Fallback
    ensures Complete(outcome).Success? ==> text == Complete(outcome).value
  {
    match Complete(outcome)
    case Success(content) => content
    case Failure(_) => Fallback
  }

  /** Extraction undoes the response shape: the body built around a text
      carries the content path, and it holds exactly that text. */
  lemma ContentOfCompletionBody(text: string)
    ensures HasContent(CompletionBody(text)) && ContentAt(CompletionBody(text)) == text
  {
    var message := JObject(map["content" := JString(text)]);
    var choice := JObject(map["message" := message]);
    assert CompletionBody(text).fields["choices"] == JArray([choice]);
    assert JArray([choice]).items[0] == choice;
    assert choice.fields["message"] == message;
  }

  /** A non-error status with a body that carries the content path, whatever
      other fields it has, yields that content unchanged (the fallback text
      included). */
  lemma AiResponseVerbatim(status: int, body: Json)
    requires !IsErrorStatus(status) && HasContent(body)
    ensures AiResponse(Response(status, Some(body))) == ContentAt(body)
  {
  }
}
