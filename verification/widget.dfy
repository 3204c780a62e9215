/**
  The injected chat widget as an object: the script's module-level variables
  and the parts of the page it changes become fields, and each helper and
  event handler becomes a method that updates them in place. Every method is
  proved to take the widget exactly where the matching function of `Chat`
  takes its state, so the properties proved there hold of the object.
 */
module Widget {
  import opened Basics
  import opened Backend
  import opened Unescape
  import Markup
  import Chat

  class ChatWidget {
    /** The browser's entity decoder (a textarea's `innerHTML` read back as its `value`). */
    const decode: Decoder

    var visible: bool
    var baseUrl: string
    var session: Option<string>
    var typing: Option<nat>
    var inputDisabled: bool
    var sendDisabled: bool
    var inputValue: string
    var transcript: seq<Chat.Entry>
    var clock: nat
    ghost var trace: seq<Chat.Step>

    /** The widget's state as a value. */
    ghost function Model(): Chat.State
      reads this
    {
      Chat.State(visible, baseUrl, session, typing, inputDisabled, sendDisabled, inputValue, transcript, clock, trace)
    }

    /** Injecting the widget once the endpoint setting (or its absence) is known. */
    constructor (baseUrl: string, decode: Decoder)
      ensures Model() == Chat.Initial(baseUrl) && this.decode == decode
    {
      this.decode := decode;
      visible := false;
      this.baseUrl := baseUrl;
      session := None;
      typing := None;
      inputDisabled := true;
      sendDisabled := true;
      inputValue := "";
      transcript := [];
      clock := 0;
      trace := [];
    }

    /** The user editing the input box, which a disabled input does not allow. */
    method Type(text: string)
      requires !inputDisabled
      modifies this
      ensures Model() == old(Model()).(inputValue := text)
    {
      inputValue := text;
    }

    /** Appends a regular message: unescaped, then marked up. */
    method AddMessage(text: string, sender: Chat.Sender, replies: seq<string>)
      modifies this
      ensures Model() == Chat.AddMessage(old(Model()), decode, text, sender, replies)
    {
      var unescaped := FullyUnescape(decode, text);
      var e := Chat.Message(sender, text, Markup.Render(unescaped), replies);
      transcript := transcript + [e];
      trace := trace + [Chat.Added(e)];
    }

    /** Appends the typing indicator under a fresh id. */
    method ShowTyping()
      modifies this
      ensures Model() == Chat.ShowTyping(old(Model()))
    {
      var e := Chat.TypingIndicator(clock);
      typing := Some(clock);
      clock := clock + 1;
      transcript := transcript + [e];
      trace := trace + [Chat.Added(e)];
    }

    /** Looks the remembered indicator up and removes it if it is shown. */
    method HideTyping()
      modifies this
      ensures Model() == Chat.HideTyping(old(Model()))
    {
      if typing.Some? && Chat.TypingIndicator(typing.value) in transcript {
        var e := Chat.TypingIndicator(typing.value);
        transcript := Chat.RemoveFirst(transcript, e);
        typing := None;
        trace := trace + [Chat.Removed(e)];
      }
    }

    method SetControls(disabled: bool)
      modifies this
      ensures Model() == Chat.SetControls(old(Model()), disabled)
    {
      inputDisabled := disabled;
      sendDisabled := disabled;
      trace := trace + [Chat.ControlsDisabled(disabled)];
    }

    method Issue(req: Chat.Request)
      modifies this
      ensures Model() == Chat.Issue(old(Model()), req)
    {
      trace := trace + [Chat.Sent(req)];
    }

    /** Sends `text` as a chat query; `o` is how the request ends. */
    method SendBotRequest(text: string, o: Outcome<QueryData>)
      modifies this
      ensures Model() == Chat.SendBotRequest(old(Model()), decode, text, o)
    {
      if !Truthy(session) {
        AddMessage(Chat.NotActiveText, Chat.Bot, []);
        return;
      }
      SetControls(true);
      ShowTyping();
      Issue(Chat.Query(baseUrl, session.value, text));
      match o {
        case FetchFailed(m) =>
          HideTyping();
          AddMessage("Error: " + m, Chat.Bot, []);
        case Received(d) =>
          HideTyping();
          AddMessage(OrElse(d.response, FallbackReply), Chat.Bot, ListOrElse(d.quickReplies, []));
        case _ =>
          HideTyping();
          HideTyping();
          AddMessage("Error: " + QueryErrorMessage(o), Chat.Bot, []);
      }
      SetControls(false);
    }

    /** Starts a session; `ok` says whether one was established. */
    method InitializeChatSession(o: Outcome<SessionData>) returns (ok: bool)
      modifies this
      ensures (Model(), ok) == Chat.InitializeChatSession(old(Model()), decode, o)
    {
      if baseUrl == "" {
        AddMessage(Chat.NotConfiguredText, Chat.Bot, []);
        SetControls(true);
        return false;
      }
      ghost var w := Model();
      SetControls(true);
      ShowTyping();
      Issue(Chat.StartSession(baseUrl));
      assert Chat.InitializeChatSession(w, decode, o) == Chat.Conclude(Model(), decode, o);
      if SessionEstablished(o) {
        HideTyping();
        session := o.data.session;
        AddMessage(OrElse(o.data.welcomeMessage, DefaultWelcome), Chat.Bot, ListOrElse(o.data.quickReplies, DefaultQuickReplies));
        SetControls(false);
        ok := true;
      } else {
        HideTyping();
        if !o.FetchFailed? {
          HideTyping();
        }
        AddMessage("Error starting chat: " + SessionErrorMessage(o) + ". Check console and API.", Chat.Bot, []);
        SetControls(true);
        ok := false;
      }
    }

    /** Clicking the chat icon. */
    method OpenChat(o: Outcome<SessionData>)
      modifies this
      ensures Model() == Chat.OpenChat(old(Model()), decode, o)
    {
      if !visible {
        visible := true;
        if !Truthy(session) {
          var _ := InitializeChatSession(o);
        }
      }
    }

    /** Clicking the close button. */
    method CloseChat()
      modifies this
      ensures Model() == Chat.CloseChat(old(Model()))
    {
      visible := false;
    }

    /** The send handler, reached through `ClickSend` and `PressEnter`. */
    method HandleSendMessage(o: Outcome<QueryData>)
      modifies this
      ensures Model() == Chat.HandleSendMessage(old(Model()), decode, o)
    {
      ghost var w := Model();
      var typed := JsText.Trim(inputValue);
      if typed == "" {
        return;
      }
      AddMessage(typed, Chat.User, []);
      inputValue := "";
      assert Model() == Chat.AddMessage(w, decode, typed, Chat.User, []).(inputValue := "");
      SendBotRequest(typed, o);
    }

    /** Clicking the send button: a disabled button receives no click. */
    method ClickSend(o: Outcome<QueryData>)
      modifies this
      ensures Model() == Chat.SendIfEnabled(old(Model()), decode, o)
    {
      if !sendDisabled {
        HandleSendMessage(o);
      }
    }

    /** A key press of Enter in the input box. */
    method PressEnter(o: Outcome<QueryData>)
      modifies this
      ensures Model() == Chat.SendIfEnabled(old(Model()), decode, o)
    {
      if !sendDisabled {
        HandleSendMessage(o);
      }
    }

    /** Clicking quick reply `j` under entry `k`. */
    method ClickQuickReply(k: nat, j: nat, o: Outcome<QueryData>)
      requires Chat.HasQuickReply(Model(), k, j)
      modifies this
      ensures Model() == Chat.ClickQuickReply(old(Model()), decode, k, j, o)
    {
      var caption := transcript[k].replies[j];
      AddMessage(caption, Chat.User, []);
      transcript := transcript[k := transcript[k].(replies := [])];
      trace := trace + [Chat.RepliesCleared(k)];
      SendBotRequest(caption, o);
    }
  }
}
