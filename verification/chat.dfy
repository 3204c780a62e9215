/**
  The chat widget as a state machine over values. Each handler of the page
  script (send a query, start a session, open, close, send the typed text,
  click a quick reply) is a function from the widget state, and the outcome of
  the network call it makes, to the new state. Handlers run to completion.

  The state holds the script's module-level variables (visibility, base URL,
  session id, typing-indicator id), the `disabled` flags of the input box and
  the send button, the input box's text, the transcript (the children of the
  messages element) and a trace of the observable steps (entries added and
  removed, quick replies removed, controls toggled, requests issued), which
  records the ORDER in which a handler does things.
 */
module Chat {
  import opened Basics
  import opened JsText
  import opened Backend
  import opened Unescape
  import Markup

  datatype Sender = User | Bot

  /** One child of the messages element. */
  datatype Entry =
    | Message(sender: Sender, text: string, html: string, replies: seq<string>)
    | TypingIndicator(id: nat)

  datatype Request =
    | StartSession(base: string)                           // POST {base}/session
    | Query(base: string, session: string, text: string)   // GET {base}/chatbot?session=..&query=..

  /** An observable step of a handler. */
  datatype Step =
    | Added(entry: Entry)
    | Removed(entry: Entry)
    | RepliesCleared(index: nat)
    | ControlsDisabled(disabled: bool)
    | Sent(request: Request)

  datatype State = State(
    visible: bool,
    baseUrl: string,         // "" when no endpoint is configured
    session: Option<string>,
    typing: Option<nat>,     // id of the typing indicator last shown, until it is removed
    inputDisabled: bool,
    sendDisabled: bool,
    inputValue: string,
    transcript: seq<Entry>,
    clock: nat,              // source of fresh indicator ids
    trace: seq<Step>)

  const NotActiveText := "Session not active. Please try reopening the chat."
  const NotConfiguredText := "Chatbot service not configured. Please set the API URL in extension options and refresh."

  /** The widget as injected: hidden, no session, both controls disabled, nothing shown. */
  function Initial(baseUrl: string): State {
    State(false, baseUrl, None, None, true, true, "", [], 0, [])
  }

  /** No handler is part-way: no indicator is shown or remembered. */
  predicate Idle(w: State) {
    w.typing.None? && forall i :: 0 <= i < |w.transcript| ==> w.transcript[i].Message?
  }

  /** The invariant every handler keeps. */
  predicate Valid(w: State) {
    Idle(w) && (w.session.Some? ==> w.session.value != "")
  }

  /** Between handlers, the two controls are enabled together, and exactly
      when a session is active. */
  predicate ControlsFollowSession(w: State) {
    w.inputDisabled == w.sendDisabled && (w.inputDisabled <==> !Truthy(w.session))
  }

  /** The injected widget meets both invariants, so every handler starts from them. */
  lemma InitialValid(baseUrl: string)
    ensures Valid(Initial(baseUrl)) && ControlsFollowSession(Initial(baseUrl))
  {
  }

  // ---------------------------------------------------------------------
  // Transcript steps
  // ---------------------------------------------------------------------

  /** A regular message: its text is unescaped, then marked up. */
  function RenderedMessage(decode: Decoder, sender: Sender, text: string, replies: seq<string>): Entry {
    Message(sender, text, Markup.Render(Unescaped(decode, text)), replies)
  }

  function AddMessage(w: State, decode: Decoder, text: string, sender: Sender, replies: seq<string>): State {
    var e := RenderedMessage(decode, sender, text, replies);
    w.(transcript := w.transcript + [e], trace := w.trace + [Added(e)])
  }

  /** Appends a typing indicator under a fresh id and remembers the id. */
  function ShowTyping(w: State): State {
    var e := TypingIndicator(w.clock);
    w.(typing := Some(w.clock), clock := w.clock + 1,
       transcript := w.transcript + [e], trace := w.trace + [Added(e)])
  }

  /** Position of the first occurrence of `e`. */
  function FirstIndex(s: seq<Entry>, e: Entry): (i: nat)
    requires e in s
    ensures i < |s| && s[i] == e && e !in s[..i]
  {
    if s[0] == e then 0
    else
      var i := 1 + FirstIndex(s[1..], e);
      assert s[..i] == [s[0]] + s[1..][..i - 1];
      i
  }

  /** `s` without its first occurrence of `e`, as `Element.remove` leaves
      the children of the element's parent. */
  function RemoveFirst(s: seq<Entry>, e: Entry): (r: seq<Entry>)
    ensures e !in s ==> r == s
    ensures e in s ==> r == s[..FirstIndex(s, e)] + s[FirstIndex(s, e) + 1..]
  {
    if s == [] then []
    else if s[0] == e then s[1..]
    else
      var rest := RemoveFirst(s[1..], e);
      assert s == [s[0]] + s[1..];
      assert e in s ==> FirstIndex(s, e) == 1 + FirstIndex(s[1..], e);
      [s[0]] + rest
  }

  /** Removes the remembered indicator if it is still shown, and forgets its
      id; does nothing otherwise. */
  function HideTyping(w: State): State {
    if w.typing.Some? && TypingIndicator(w.typing.value) in w.transcript then
      var e := TypingIndicator(w.typing.value);
      w.(typing := None, transcript := RemoveFirst(w.transcript, e), trace := w.trace + [Removed(e)])
    else w
  }

  function SetControls(w: State, disabled: bool): State {
    w.(inputDisabled := disabled, sendDisabled := disabled, trace := w.trace + [ControlsDisabled(disabled)])
  }

  function Issue(w: State, req: Request): State {
    w.(trace := w.trace + [Sent(req)])
  }

  /** Removes the quick-reply buttons of entry `k`. */
  function ClearReplies(w: State, k: nat): State
    requires k < |w.transcript| && w.transcript[k].Message?
  {
    w.(transcript := w.transcript[k := w.transcript[k].(replies := [])], trace := w.trace + [RepliesCleared(k)])
  }

  // ---------------------------------------------------------------------
  // Handlers
  // ---------------------------------------------------------------------

  /** Sends `text` to the chatbot and shows its reply. */
  function SendBotRequest(w: State, decode: Decoder, text: string, o: Outcome<QueryData>): State {
    if !Truthy(w.session) then AddMessage(w, decode, NotActiveText, Bot, [])
    else
      var waiting := Issue(ShowTyping(SetControls(w, true)), Query(w.baseUrl, w.session.value, text));
      SetControls(Answer(waiting, decode, o), false)
  }

  /** The text of the bot entry a chat query ends with. */
  function QueryText(o: Outcome<QueryData>): string {
    if o.Received? then OrElse(o.data.response, FallbackReply) else "Error: " + QueryErrorMessage(o)
  }

  /** The quick replies offered under it. */
  function QueryButtons(o: Outcome<QueryData>): seq<string> {
    if o.Received? then ListOrElse(o.data.quickReplies, []) else []
  }

  /** The part of a query after the request is issued, up to the reply. */
  function Answer(waiting: State, decode: Decoder, o: Outcome<QueryData>): State {
    // a failed fetch throws before the indicator is looked up, so only the
    // handler removes it; otherwise it is removed once the response arrives,
    // and a non-ok or unreadable response has the handler look it up again
    var hidden := if o.FetchFailed? || o.Received? then HideTyping(waiting) else HideTyping(HideTyping(waiting));
    AddMessage(hidden, decode, QueryText(o), Bot, QueryButtons(o))
  }

  /** Starts a session; the flag says whether one was established. */
  function InitializeChatSession(w: State, decode: Decoder, o: Outcome<SessionData>): (State, bool) {
    if w.baseUrl == "" then (SetControls(AddMessage(w, decode, NotConfiguredText, Bot, []), true), false)
    else Conclude(Issue(ShowTyping(SetControls(w, true)), StartSession(w.baseUrl)), decode, o)
  }

  /** The text of the bot entry a session start ends with. */
  function SessionText(o: Outcome<SessionData>): string {
    if SessionEstablished(o) then OrElse(o.data.welcomeMessage, DefaultWelcome)
    else "Error starting chat: " + SessionErrorMessage(o) + ". Check console and API."
  }

  /** The quick replies offered under it. */
  function SessionButtons(o: Outcome<SessionData>): seq<string> {
    if SessionEstablished(o) then ListOrElse(o.data.quickReplies, DefaultQuickReplies) else []
  }

  /** The part of a session start after the request is issued. */
  function Conclude(waiting: State, decode: Decoder, o: Outcome<SessionData>): (State, bool) {
    if SessionEstablished(o) then
      var started := HideTyping(waiting).(session := o.data.session);
      (SetControls(AddMessage(started, decode, SessionText(o), Bot, SessionButtons(o)), false), true)
    else
      var failed := if o.FetchFailed? then HideTyping(waiting) else HideTyping(HideTyping(waiting));
      (SetControls(AddMessage(failed, decode, SessionText(o), Bot, []), true), false)
  }

  /** Clicking the chat icon. */
  function OpenChat(w: State, decode: Decoder, o: Outcome<SessionData>): State {
    if w.visible then w
    else
      var shown := w.(visible := true);
      if !Truthy(shown.session) then InitializeChatSession(shown, decode, o).0 else shown
  }

  /** Clicking the close button. */
  function CloseChat(w: State): State {
    w.(visible := false)
  }

  /** Sending what is typed in the input box. */
  function HandleSendMessage(w: State, decode: Decoder, o: Outcome<QueryData>): State {
    var typed := Trim(w.inputValue);
    if typed == "" then w
    else SendBotRequest(AddMessage(w, decode, typed, User, []).(inputValue := ""), decode, typed, o)
  }

  /** Clicking the send button or pressing Enter in the input box: the
      browser delivers no click to a disabled button, and the Enter handler
      checks the button itself, so either sends only while it is enabled. */
  function SendIfEnabled(w: State, decode: Decoder, o: Outcome<QueryData>): State {
    if !w.sendDisabled then HandleSendMessage(w, decode, o) else w
  }

  /** A quick reply button exists for reply `j` of bot entry `k`. */
  predicate HasQuickReply(w: State, k: nat, j: nat) {
    k < |w.transcript| && w.transcript[k].Message? && w.transcript[k].sender == Bot && j < |w.transcript[k].replies|
  }

  /** Clicking quick reply `j` of entry `k`. */
  function ClickQuickReply(w: State, decode: Decoder, k: nat, j: nat, o: Outcome<QueryData>): State
    requires HasQuickReply(w, k, j)
  {
    var caption := w.transcript[k].replies[j];
    SendBotRequest(ClearReplies(AddMessage(w, decode, caption, User, []), k), decode, caption, o)
  }

  // ---------------------------------------------------------------------
  // What the handlers promise
  // ---------------------------------------------------------------------

  /** The bot entry a chat query ends with, by outcome. */
  function QueryReply(decode: Decoder, o: Outcome<QueryData>): Entry {
    RenderedMessage(decode, Bot, QueryText(o), QueryButtons(o))
  }

  /** The bot entry a session start ends with, by outcome. */
  function SessionReply(decode: Decoder, o: Outcome<SessionData>): Entry {
    RenderedMessage(decode, Bot, SessionText(o), SessionButtons(o))
  }

  /** The steps a chat query takes, in order: with a session, disable the
      controls, show the indicator, issue the query, remove the indicator,
      append the reply, enable the controls; without one, only the reconnect
      prompt. */
  function QuerySteps(w: State, decode: Decoder, text: string, o: Outcome<QueryData>): seq<Step> {
    if Truthy(w.session) then
      var ind := TypingIndicator(w.clock);
      [ControlsDisabled(true)] + [Added(ind)] + [Sent(Query(w.baseUrl, w.session.value, text))]
        + [Removed(ind)] + [Added(QueryReply(decode, o))] + [ControlsDisabled(false)]
    else [Added(RenderedMessage(decode, Bot, NotActiveText, []))]
  }

  /** A query issues a request exactly when a session is active, and that
      request carries the current session and exactly the text given. */
  lemma QueryStepsSend(w: State, decode: Decoder, text: string, o: Outcome<QueryData>, req: Request)
    ensures Sent(req) in QuerySteps(w, decode, text, o) <==> Truthy(w.session) && req == Query(w.baseUrl, w.session.value, text)
  {
    var steps := QuerySteps(w, decode, text, o);
    if Truthy(w.session) {
      assert steps[2] == Sent(Query(w.baseUrl, w.session.value, text));
    }
  }

  /** Appending an entry and removing it again gives back the transcript. */
  lemma RemoveAppended(s: seq<Entry>, e: Entry)
    requires e !in s
    ensures RemoveFirst(s + [e], e) == s
  {
    assert (s + [e])[|s|] == e;
    var i := FirstIndex(s + [e], e);
    assert forall j :: 0 <= j < |s| ==> (s + [e])[j] == s[j];
    assert (s + [e])[..|s|] == s;
  }

  /** The indicator a handler has just shown (before issuing its request) is
      the one hiding removes, leaving the transcript as it was before; a
      second hide does nothing. */
  lemma HideShown(u: State, req: Request)
    requires forall i :: 0 <= i < |u.transcript| ==> u.transcript[i].Message?
    ensures var waiting := Issue(ShowTyping(u), req);
      && HideTyping(waiting) == waiting.(typing := None, transcript := u.transcript,
                                         trace := waiting.trace + [Removed(TypingIndicator(u.clock))])
      && HideTyping(HideTyping(waiting)) == HideTyping(waiting)
  {
    var ind := TypingIndicator(u.clock);
    assert forall i :: 0 <= i < |u.transcript| ==> u.transcript[i] != ind;
    RemoveAppended(u.transcript, ind);
    assert (u.transcript + [ind])[|u.transcript|] == ind;
  }

  /** Hiding is idempotent, and removes nothing but the indicator. */
  lemma HideTypingIdempotent(w: State)
    ensures HideTyping(HideTyping(w)) == HideTyping(w)
    ensures HideTyping(w).typing.None? || HideTyping(w) == w
    ensures HideTyping(w) != w ==> exists i :: 0 <= i < |w.transcript| && w.transcript[i].TypingIndicator?
                                      && HideTyping(w).transcript == w.transcript[..i] + w.transcript[i + 1..]
  {
    var h := HideTyping(w);
    if h != w {
      var e := TypingIndicator(w.typing.value);
      var i := FirstIndex(w.transcript, e);
      assert h.transcript == w.transcript[..i] + w.transcript[i + 1..];
    }
  }

  /** With no session, a query only shows the reconnect prompt: no request,
      no indicator, controls untouched. */
  lemma SendWithoutSession(w: State, decode: Decoder, text: string, o: Outcome<QueryData>)
    requires !Truthy(w.session)
    ensures var r := SendBotRequest(w, decode, text, o);
      var e := RenderedMessage(decode, Bot, NotActiveText, []);
      && r.transcript == w.transcript + [e]
      && r.trace == w.trace + [Added(e)]
      && r.inputDisabled == w.inputDisabled && r.sendDisabled == w.sendDisabled
      && r.session == w.session && r.typing == w.typing && r.visible == w.visible
      && r.inputValue == w.inputValue
  {
  }

  /** Once the indicator is hidden for good, a query's outcome appends
      exactly its reply. */
  lemma AnswerAppendsReply(waiting: State, decode: Decoder, o: Outcome<QueryData>)
    requires HideTyping(HideTyping(waiting)) == HideTyping(waiting)
    ensures var reply := QueryReply(decode, o);
      Answer(waiting, decode, o) == AddMessage(HideTyping(waiting), decode, reply.text, Bot, reply.replies)
  {
  }

  /** With a session, a query disables the controls, shows the indicator,
      issues one request with the current session, removes the indicator,
      appends exactly the reply for the outcome, and enables the controls,
      in that order and whatever the outcome. */
  lemma SendWithSession(w: State, decode: Decoder, text: string, o: Outcome<QueryData>)
    requires Truthy(w.session) && Idle(w)
    ensures var r := SendBotRequest(w, decode, text, o);
      var ind := TypingIndicator(w.clock);
      var reply := QueryReply(decode, o);
      && r.trace == w.trace + [ControlsDisabled(true)] + [Added(ind)] + [Sent(Query(w.baseUrl, w.session.value, text))]
                            + [Removed(ind)] + [Added(reply)] + [ControlsDisabled(false)]
      && r.transcript == w.transcript + [reply]
      && !r.inputDisabled && !r.sendDisabled
      && Idle(r) && r.session == w.session && r.visible == w.visible && r.baseUrl == w.baseUrl
      && r.inputValue == w.inputValue
  {
    var ind := TypingIndicator(w.clock);
    var req := Query(w.baseUrl, w.session.value, text);
    var waiting := Issue(ShowTyping(SetControls(w, true)), req);
    HideShown(SetControls(w, true), req);
    var hidden := HideTyping(waiting);
    assert hidden.transcript == w.transcript && hidden.typing.None?;
    assert hidden.trace == w.trace + [ControlsDisabled(true)] + [Added(ind)] + [Sent(req)] + [Removed(ind)];
    AnswerAppendsReply(waiting, decode, o);
    var reply := QueryReply(decode, o);
    var answered := Answer(waiting, decode, o);
    assert answered.transcript == w.transcript + [reply];
    assert answered.trace == hidden.trace + [Added(reply)];
  }

  /** A reply without a usable `response` field shows the fixed apology;
      failures show `Error: ` and the message. */
  lemma QueryReplyText(decode: Decoder, o: Outcome<QueryData>)
    ensures o.Received? && !Truthy(o.data.response) ==> QueryReply(decode, o).text == FallbackReply
    ensures o.Received? && Truthy(o.data.response) ==> QueryReply(decode, o).text == o.data.response.value
    ensures !o.Received? ==> QueryReply(decode, o).text == "Error: " + QueryErrorMessage(o)
    ensures (o.FetchFailed? || o.BodyUnreadable?) ==> QueryErrorMessage(o) == o.message
    ensures !o.Received? ==> QueryReply(decode, o).replies == []
  {
  }

  /** With no base URL, starting a session issues no request, reports the
      missing configuration, disables the controls and fails. */
  lemma StartWithoutBaseUrl(w: State, decode: Decoder, o: Outcome<SessionData>)
    requires w.baseUrl == ""
    ensures var (r, ok) := InitializeChatSession(w, decode, o);
      var e := RenderedMessage(decode, Bot, NotConfiguredText, []);
      && !ok
      && r.trace == w.trace + [Added(e)] + [ControlsDisabled(true)]
      && r.transcript == w.transcript + [e]
      && r.inputDisabled && r.sendDisabled && r.session == w.session
  {
  }

  /** With a base URL, a session is established exactly when the response is
      ok and carries a truthy `session`; only then is the id stored and are
      the controls left enabled. Otherwise the session is left as it was and
      the controls end disabled. */
  lemma StartWithBaseUrl(w: State, decode: Decoder, o: Outcome<SessionData>)
    requires w.baseUrl != "" && Idle(w)
    ensures var (r, ok) := InitializeChatSession(w, decode, o);
      && (ok <==> SessionEstablished(o))
      && (ok ==> r.session == o.data.session && !r.inputDisabled && !r.sendDisabled)
      && (!ok ==> r.session == w.session && r.inputDisabled && r.sendDisabled)
  {
    var waiting := Issue(ShowTyping(SetControls(w, true)), StartSession(w.baseUrl));
    HideShown(SetControls(w, true), StartSession(w.baseUrl));
    ConcludeAppendsReply(waiting, decode, o);
  }

  /** A session start with a base URL disables the controls, shows the
      indicator, issues one request, removes the indicator, appends exactly
      the reply for the outcome and sets the controls, in that order. */
  lemma StartSteps(w: State, decode: Decoder, o: Outcome<SessionData>)
    requires w.baseUrl != "" && Idle(w)
    ensures var (r, ok) := InitializeChatSession(w, decode, o);
      var ind := TypingIndicator(w.clock);
      var reply := SessionReply(decode, o);
      && r.trace == w.trace + [ControlsDisabled(true)] + [Added(ind)] + [Sent(StartSession(w.baseUrl))]
                            + [Removed(ind)] + [Added(reply)] + [ControlsDisabled(!ok)]
      && r.transcript == w.transcript + [reply]
      && Idle(r) && r.visible == w.visible
  {
    var waiting := Issue(ShowTyping(SetControls(w, true)), StartSession(w.baseUrl));
    HideShown(SetControls(w, true), StartSession(w.baseUrl));
    ConcludeAppendsReply(waiting, decode, o);
  }

  /** Once the indicator is hidden for good, a session start's outcome
      appends exactly its reply and sets the session only on success. */
  lemma ConcludeAppendsReply(waiting: State, decode: Decoder, o: Outcome<SessionData>)
    requires HideTyping(HideTyping(waiting)) == HideTyping(waiting)
    ensures var reply := SessionReply(decode, o);
      var hidden := HideTyping(waiting);
      var ok := SessionEstablished(o);
      Conclude(waiting, decode, o)
        == (SetControls(AddMessage(if ok then hidden.(session := o.data.session) else hidden,
                                   decode, reply.text, Bot, reply.replies), !ok), ok)
  {
  }

  /** The greeting and the first quick replies fall back to fixed defaults:
      four topics, in order. */
  lemma SessionDefaults(decode: Decoder, o: Outcome<SessionData>)
    requires SessionEstablished(o)
    ensures !Truthy(o.data.welcomeMessage) ==> SessionReply(decode, o).text == DefaultWelcome
    ensures o.data.quickReplies.None? ==>
      SessionReply(decode, o).replies == ["Course Information", "Admission Process", "Fee Structure", "Campus Location"]
    ensures o.data.quickReplies.Some? ==> SessionReply(decode, o).replies == o.data.quickReplies.value
  {
  }

  /** Opening acts only on a hidden widget, and starts a session only when
      none exists; a request is issued only then. */
  lemma OpenChatActs(w: State, decode: Decoder, o: Outcome<SessionData>)
    ensures w.visible ==> OpenChat(w, decode, o) == w
    ensures !w.visible && Truthy(w.session) ==> OpenChat(w, decode, o) == w.(visible := true)
    ensures !w.visible && !Truthy(w.session) ==>
      OpenChat(w, decode, o) == InitializeChatSession(w.(visible := true), decode, o).0
    ensures OpenChat(w, decode, o).visible
  {
  }

  /** Closing hides the widget and keeps everything else, the session included. */
  lemma CloseKeepsSession(w: State)
    ensures var r := CloseChat(w);
      !r.visible && r.session == w.session && r.transcript == w.transcript && r.trace == w.trace
      && r.inputDisabled == w.inputDisabled && r.sendDisabled == w.sendDisabled
      && r.typing == w.typing && r.inputValue == w.inputValue && r.baseUrl == w.baseUrl && r.clock == w.clock
  {
  }

  /** The entry a query ends with: the reply with a session, the reconnect
      prompt without one. */
  function ReplyFor(w: State, decode: Decoder, o: Outcome<QueryData>): Entry {
    if Truthy(w.session) then QueryReply(decode, o) else RenderedMessage(decode, Bot, NotActiveText, [])
  }

  /** Whether or not a session exists, a query keeps what was shown and what
      happened before, takes exactly its steps, appends exactly one entry,
      keeps the session, and leaves no indicator. */
  lemma SendAppendsOne(w: State, decode: Decoder, text: string, o: Outcome<QueryData>)
    requires Valid(w)
    ensures var r := SendBotRequest(w, decode, text, o);
      && r.transcript == w.transcript + [ReplyFor(w, decode, o)]
      && r.trace == w.trace + QuerySteps(w, decode, text, o)
      && r.session == w.session && r.visible == w.visible && r.inputValue == w.inputValue
      && Valid(r)
      && (ControlsFollowSession(w) ==> ControlsFollowSession(r))
  {
    if Truthy(w.session) {
      SendWithSession(w, decode, text, o);
      var ind := TypingIndicator(w.clock);
      Regroup(w.trace, ControlsDisabled(true), Added(ind), Sent(Query(w.baseUrl, w.session.value, text)),
              Removed(ind), Added(QueryReply(decode, o)), ControlsDisabled(false));
    } else {
      SendWithoutSession(w, decode, text, o);
    }
  }

  /** Appending six steps at once is appending them one by one. */
  lemma Regroup(t: seq<Step>, a: Step, b: Step, c: Step, d: Step, e: Step, f: Step)
    ensures t + ([a] + [b] + [c] + [d] + [e] + [f]) == t + [a] + [b] + [c] + [d] + [e] + [f]
  {
  }

  /** Sending blank text does nothing. */
  lemma SendBlankIgnored(w: State, decode: Decoder, o: Outcome<QueryData>)
    requires Trim(w.inputValue) == ""
    ensures HandleSendMessage(w, decode, o) == w
  {
  }

  /** Echoing `typed` as a user entry, clearing the input box and sending
      `typed`: the echo precedes the steps of the query for `typed`, whose
      entry follows it. */
  lemma EchoThenSend(w: State, decode: Decoder, typed: string, o: Outcome<QueryData>)
    requires Valid(w)
    ensures var r := SendBotRequest(AddMessage(w, decode, typed, User, []).(inputValue := ""), decode, typed, o);
      var user := RenderedMessage(decode, User, typed, []);
      && r.inputValue == ""
      && r.trace == w.trace + [Added(user)] + QuerySteps(w, decode, typed, o)
      && r.transcript == w.transcript + [user, ReplyFor(w, decode, o)]
      && Valid(r)
      && (ControlsFollowSession(w) ==> ControlsFollowSession(r))
  {
    var user := RenderedMessage(decode, User, typed, []);
    var asked := AddMessage(w, decode, typed, User, []).(inputValue := "");
    assert asked.transcript == w.transcript + [user];
    assert asked.trace == w.trace + [Added(user)];
    assert Valid(asked);
    SendAppendsOne(asked, decode, typed, o);
    assert ReplyFor(asked, decode, o) == ReplyFor(w, decode, o);
    assert QuerySteps(asked, decode, typed, o) == QuerySteps(w, decode, typed, o);
  }

  /** Sending non-blank text appends the trimmed text as a user entry before
      the query for exactly that text is made, clears the input box, and the
      query's entry follows. */
  lemma SendTypedText(w: State, decode: Decoder, o: Outcome<QueryData>)
    requires Valid(w) && Trim(w.inputValue) != ""
    ensures var r := HandleSendMessage(w, decode, o);
      var typed := Trim(w.inputValue);
      var user := RenderedMessage(decode, User, typed, []);
      && r.inputValue == ""
      && r.trace == w.trace + [Added(user)] + QuerySteps(w, decode, typed, o)
      && r.transcript == w.transcript + [user, ReplyFor(w, decode, o)]
      && Valid(r)
  {
    EchoThenSend(w, decode, Trim(w.inputValue), o);
  }

  /** A quick-reply click appends a user entry carrying the button's caption and
      removes that entry's buttons; then the query for exactly the caption
      takes its steps. */
  lemma QuickReplyFirstEchoes(w: State, decode: Decoder, k: nat, j: nat, o: Outcome<QueryData>)
    requires Valid(w) && HasQuickReply(w, k, j)
    ensures var r := ClickQuickReply(w, decode, k, j, o);
      var caption := w.transcript[k].replies[j];
      var user := RenderedMessage(decode, User, caption, []);
      && r.trace == w.trace + [Added(user)] + [RepliesCleared(k)] + QuerySteps(w, decode, caption, o)
      && r.transcript == w.transcript[k := w.transcript[k].(replies := [])] + [user, ReplyFor(w, decode, o)]
      && Valid(r)
      && (ControlsFollowSession(w) ==> ControlsFollowSession(r))
  {
    var caption := w.transcript[k].replies[j];
    var user := RenderedMessage(decode, User, caption, []);
    var asked := ClearReplies(AddMessage(w, decode, caption, User, []), k);
    assert asked.transcript == w.transcript[k := w.transcript[k].(replies := [])] + [user];
    assert asked.trace == w.trace + [Added(user)] + [RepliesCleared(k)];
    assert Valid(asked);
    SendAppendsOne(asked, decode, caption, o);
    assert ReplyFor(asked, decode, o) == ReplyFor(w, decode, o);
    assert QuerySteps(asked, decode, caption, o) == QuerySteps(w, decode, caption, o);
  }

  /** A session start keeps the invariant: no indicator is left behind, and
      a stored session id is never empty. */
  lemma StartKeepsValid(w: State, decode: Decoder, o: Outcome<SessionData>)
    requires Valid(w)
    ensures Valid(InitializeChatSession(w, decode, o).0)
  {
    if w.baseUrl != "" {
      StartWithBaseUrl(w, decode, o);
      StartSteps(w, decode, o);
    }
  }

  /** Opening and closing keep the invariant. */
  lemma WidgetKeepsValid(w: State, decode: Decoder, o: Outcome<SessionData>)
    requires Valid(w)
    ensures Valid(OpenChat(w, decode, o))
    ensures Valid(CloseChat(w))
  {
    if !w.visible {
      StartKeepsValid(w.(visible := true), decode, o);
    }
  }

  /** Opening and closing keep the controls in step with the session: a
      session start enables them exactly when it establishes a session. */
  lemma OpenCloseKeepControls(w: State, decode: Decoder, o: Outcome<SessionData>)
    requires Valid(w) && ControlsFollowSession(w)
    ensures ControlsFollowSession(OpenChat(w, decode, o))
    ensures ControlsFollowSession(CloseChat(w))
  {
    if !w.visible && !Truthy(w.session) {
      var shown := w.(visible := true);
      if w.baseUrl == "" {
        StartWithoutBaseUrl(shown, decode, o);
      } else {
        StartWithBaseUrl(shown, decode, o);
      }
    }
  }

  /** Sending, by button, by Enter or by a quick reply, keeps the controls in
      step with the session. */
  lemma SendKeepsControls(w: State, decode: Decoder, k: nat, j: nat, o: Outcome<QueryData>)
    requires Valid(w) && ControlsFollowSession(w)
    ensures ControlsFollowSession(HandleSendMessage(w, decode, o))
    ensures ControlsFollowSession(SendIfEnabled(w, decode, o))
    ensures HasQuickReply(w, k, j) ==> ControlsFollowSession(ClickQuickReply(w, decode, k, j, o))
  {
    var typed := Trim(w.inputValue);
    if typed != "" {
      EchoThenSend(w, decode, typed, o);
    }
    if HasQuickReply(w, k, j) {
      QuickReplyFirstEchoes(w, decode, k, j, o);
    }
  }

  /** Sending what is typed, by button or by Enter, keeps the invariant. */
  lemma SendKeepsValid(w: State, decode: Decoder, o: Outcome<QueryData>)
    requires Valid(w)
    ensures Valid(HandleSendMessage(w, decode, o))
    ensures Valid(SendIfEnabled(w, decode, o))
  {
    var typed := Trim(w.inputValue);
    if typed != "" {
      EchoThenSend(w, decode, typed, o);
    }
  }
}
