/**
  The two calls the widget makes to the chatbot backend, as abstract
  outcomes. The HTTP exchange itself (building the URL, `fetch`, reading the
  body as text or JSON) is not modelled; what the widget sees of it is one of
  four outcomes, supplied by the caller.
 */
module Backend {
  import opened Basics
  import opened JsText

  /** What awaiting a `fetch` and reading its body can end in. */
  datatype Outcome<T> =
    | FetchFailed(message: string)                            // `fetch` itself rejected
    | HttpError(status: nat, statusText: string, body: string) // `response.ok` was false; the body was read as text
    | BodyUnreadable(message: string)                         // reading or parsing the body threw
    | Received(data: T)                                       // `response.ok` and the JSON body parsed

  /** The JSON body of a chat query reply: `{ response?, quick_replies? }`
      (each quick reply is shown by its `text`). */
  datatype QueryData = QueryData(response: Option<string>, quickReplies: Option<seq<string>>)

  /** The JSON body of a session-start reply: `{ session, welcome_message?, quick_replies? }`. */
  datatype SessionData = SessionData(session: Option<string>, welcomeMessage: Option<string>, quickReplies: Option<seq<string>>)

  /** JavaScript truthiness of an optional string: present and not empty. */
  predicate Truthy(s: Option<string>) {
    s.Some? && s.value != ""
  }

  /** `s || fallback` for an optional string. */
  function OrElse(s: Option<string>, fallback: string): string
  {
    if Truthy(s) then s.value else fallback
  }

  /** `a || fallback` for an optional array: any array, even an empty one, is truthy. */
  function ListOrElse(a: Option<seq<string>>, fallback: seq<string>): seq<string>
  {
    if a.Some? then a.value else fallback
  }

  const FallbackReply := "Sorry, I couldn't get a proper response."
  const DefaultWelcome := "Hello! I'm the Anurag College assistant. How can I help you today?"
  const DefaultQuickReplies: seq<string> := ["Course Information", "Admission Process", "Fee Structure", "Campus Location"]
  const MissingSessionMessage := "Session ID not received from backend."

  /** The `message` of the error a failed chat query is caught with. */
  function QueryErrorMessage(o: Outcome<QueryData>): string
    requires !o.Received?
  {
    match o
    case FetchFailed(m) => m
    case HttpError(status, statusText, body) => "API error: " + Decimal(status) + " " + statusText + " - " + body
    case BodyUnreadable(m) => m
  }

  /** A session start succeeds only on a parsed body with a truthy `session`. */
  predicate SessionEstablished(o: Outcome<SessionData>) {
    o.Received? && Truthy(o.data.session)
  }

  /** The `message` of the error a failed session start is caught with. */
  function SessionErrorMessage(o: Outcome<SessionData>): string
    requires !SessionEstablished(o)
  {
    match o
    case FetchFailed(m) => m
    case HttpError(status, _, body) => "Failed to create session: " + Decimal(status) + " - " + body
    case BodyUnreadable(m) => m
    case Received(_) => MissingSessionMessage
  }
}
