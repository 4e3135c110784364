/** What translation does to a chat message: the automatic handlers for
    character replies and user messages, the translate button on each
    message, and the `/llm-translate` command. A message keeps its text in
    `mes`; the translator marks it with `extra.llm_translated` and shows
    other text through `extra.display_text`. */
module Messages {
  import opened Common
  import opened Config
  import opened Orchestrator
  import AutoTrigger

  /** The two `extra` fields the translator reads and writes; an absent
      `llm_translated` reads as `false`. */
  datatype Extra = Extra(displayText: Option<string>, translated: bool)

  datatype MessageState = MessageState(mes: string, isUser: bool, extra: Option<Extra>)

  predicate IsTranslated(st: MessageState) {
    st.extra.Some? && st.extra.value.translated
  }

  /** What the chat shows: the display override when one is set, otherwise
      the message text. */
  function Displayed(st: MessageState): string {
    if st.extra.Some? && st.extra.value.displayText.Some? then st.extra.value.displayText.value else st.mes
  }

  /** The effect of one handler run on one message: its new state, the
      request sent, and whether it was re-rendered and the chat saved. */
  datatype Effect = Effect(state: MessageState, sent: Option<Request>, saved: bool)

  function Unchanged(st: MessageState, sent: Option<Request>): Effect {
    Effect(st, sent, false)
  }

  /** Set `display_text` and `llm_translated`. */
  function Marked(st: MessageState, display: string): (r: MessageState)
    ensures IsTranslated(r) && Displayed(r) == display
    ensures r.mes == st.mes && r.isUser == st.isUser
    ensures r.extra == Some(Extra(Some(display), true))
  {
    st.(extra := Some(Extra(Some(display), true)))
  }

  /** Delete `display_text` and `llm_translated`. */
  function Unmarked(st: MessageState): (r: MessageState)
    requires st.extra.Some?
    ensures !IsTranslated(r) && Displayed(r) == st.mes
    ensures r.mes == st.mes && r.isUser == st.isUser
    ensures r.extra == Some(Extra(None, false))
  {
    st.(extra := Some(Extra(None, false)))
  }

  // ---------------------------------------------------------------------
  // The handlers as functions of the settings and the message

  /** `autoTranslateIncoming`: a character reply that is not yet translated
      and has text is translated, and the translation is shown in place of
      the text, which is kept. */
  function AutoIncoming(c: Config, st: MessageState, client: Request -> ClientOutcome): (e: Effect)
    ensures e.state.mes == st.mes && e.state.isUser == st.isUser
    ensures st.isUser || IsTranslated(st) || c.profileId == "" || IsBlank(st.mes) ==> e == Unchanged(st, None)
    ensures !e.saved ==> e.state == st
    ensures !(st.isUser || IsTranslated(st) || c.profileId == "" || IsBlank(st.mes)) ==>
      && e.sent == Translate(c, st.mes, client).sent
      && (e.saved <==> Truthy(Translate(c, st.mes, client).result))
    ensures e.saved ==>
      && !IsTranslated(st) && IsTranslated(e.state)
      && Truthy(Translate(c, st.mes, client).result)
      && e.state == Marked(st, Translate(c, st.mes, client).result.text)
      && Displayed(e.state) == Translate(c, st.mes, client).result.text
  {
    if st.isUser || IsTranslated(st) || c.profileId == "" || IsBlank(st.mes) then Unchanged(st, None)
    else
      var a := Translate(c, st.mes, client);
      if Truthy(a.result) then Effect(Marked(st, a.result.text), a.sent, true) else Unchanged(st, a.sent)
  }

  /** `autoTranslateOutgoing`: a user message is swapped: its text becomes
      the translation and the original is kept for display. */
  function AutoOutgoing(c: Config, st: MessageState, client: Request -> ClientOutcome): (e: Effect)
    ensures e.state.isUser == st.isUser
    ensures !st.isUser || IsTranslated(st) || c.profileId == "" || IsBlank(st.mes) ==> e == Unchanged(st, None)
    ensures !e.saved ==> e.state == st
    ensures !(!st.isUser || IsTranslated(st) || c.profileId == "" || IsBlank(st.mes)) ==>
      && e.sent == Translate(c, st.mes, client).sent
      && (e.saved <==> Truthy(Translate(c, st.mes, client).result))
    ensures e.saved ==>
      && !IsTranslated(st) && IsTranslated(e.state)
      && Truthy(Translate(c, st.mes, client).result)
      && e.state.mes == Translate(c, st.mes, client).result.text
      && e.state.extra == Some(Extra(Some(st.mes), true))
      && Displayed(e.state) == st.mes
  {
    if !st.isUser || IsTranslated(st) || c.profileId == "" || IsBlank(st.mes) then Unchanged(st, None)
    else
      var a := Translate(c, st.mes, client);
      if Truthy(a.result) then
        Effect(st.(mes := a.result.text, extra := Some(Extra(Some(st.mes), true))), a.sent, true)
      else Unchanged(st, a.sent)
  }

  /** `handleIncomingMessage`: the character-reply handler, when the mode
      covers replies. */
  function OnIncoming(c: Config, st: MessageState, client: Request -> ClientOutcome): (e: Effect)
    ensures !AutoTrigger.ShouldAutoTranslate(c.autoMode, AutoTrigger.IncomingTypes) ==> e == Unchanged(st, None)
    ensures AutoTrigger.ShouldAutoTranslate(c.autoMode, AutoTrigger.IncomingTypes) ==> e == AutoIncoming(c, st, client)
    ensures st.isUser ==> e == Unchanged(st, None)
    ensures e.state.mes == st.mes
  {
    if AutoTrigger.ShouldAutoTranslate(c.autoMode, AutoTrigger.IncomingTypes) then AutoIncoming(c, st, client)
    else Unchanged(st, None)
  }

  /** `handleOutgoingMessage`: the user-message handler, when the mode
      covers inputs. */
  function OnOutgoing(c: Config, st: MessageState, client: Request -> ClientOutcome): (e: Effect)
    ensures !AutoTrigger.ShouldAutoTranslate(c.autoMode, AutoTrigger.OutgoingTypes) ==> e == Unchanged(st, None)
    ensures AutoTrigger.ShouldAutoTranslate(c.autoMode, AutoTrigger.OutgoingTypes) ==> e == AutoOutgoing(c, st, client)
    ensures !st.isUser ==> e == Unchanged(st, None)
  {
    if AutoTrigger.ShouldAutoTranslate(c.autoMode, AutoTrigger.OutgoingTypes) then AutoOutgoing(c, st, client)
    else Unchanged(st, None)
  }

  /** `onMessageTranslateClick`: a translated message is reverted without a
      request; otherwise a message with text is translated for display.
      The button never changes the message text, in either direction. */
  function ManualToggle(c: Config, st: MessageState, client: Request -> ClientOutcome): (e: Effect)
    ensures e.state.mes == st.mes && e.state.isUser == st.isUser
    ensures IsBlank(st.mes) ==> e == Unchanged(st, None)
    ensures !IsBlank(st.mes) && IsTranslated(st) ==>
      e.sent.None? && e.saved && e.state == Unmarked(st) && !IsTranslated(e.state) && Displayed(e.state) == st.mes
    ensures !IsBlank(st.mes) && !IsTranslated(st) ==>
      && e.sent == Translate(c, st.mes, client).sent
      && (e.saved <==> Truthy(Translate(c, st.mes, client).result))
      && (e.saved ==> e.state == Marked(st, Translate(c, st.mes, client).result.text))
      && (e.saved ==> IsTranslated(e.state) && Displayed(e.state) == Translate(c, st.mes, client).result.text)
      && (!e.saved ==> e.state == st)
  {
    if IsBlank(st.mes) then Unchanged(st, None)
    else if IsTranslated(st) then Effect(Unmarked(st), None, true)
    else
      var a := Translate(c, st.mes, client);
      if Truthy(a.result) then Effect(Marked(st, a.result.text), a.sent, true) else Unchanged(st, a.sent)
  }

  // ---------------------------------------------------------------------
  // Properties of the message handlers

  /** A message is translated automatically at most once: after a successful
      automatic translation, neither handler sends another request for it,
      whatever the settings. */
  lemma AutoTranslatesOnce(c: Config, st: MessageState, client: Request -> ClientOutcome,
                           c2: Config, client2: Request -> ClientOutcome)
    ensures var s1 := OnIncoming(c, st, client);
      s1.saved ==> (OnIncoming(c2, s1.state, client2) == Unchanged(s1.state, None)
                    && OnOutgoing(c2, s1.state, client2) == Unchanged(s1.state, None))
    ensures var s1 := OnOutgoing(c, st, client);
      s1.saved ==> (OnIncoming(c2, s1.state, client2) == Unchanged(s1.state, None)
                    && OnOutgoing(c2, s1.state, client2) == Unchanged(s1.state, None))
  {
  }

  /** Each event reaches only its own direction: replies are never touched
      by the user-message handler and user messages never by the reply
      handler, and a mode that does not cover a direction sends nothing. */
  lemma HandlersFollowMode(c: Config, st: MessageState, client: Request -> ClientOutcome)
    ensures !AutoTrigger.Covers(AutoTrigger.ParseMode(c.autoMode), AutoTrigger.Incoming) ==>
      OnIncoming(c, st, client) == Unchanged(st, None)
    ensures !AutoTrigger.Covers(AutoTrigger.ParseMode(c.autoMode), AutoTrigger.Outgoing) ==>
      OnOutgoing(c, st, client) == Unchanged(st, None)
  {
    AutoTrigger.ShouldAutoTranslateCovers(c.autoMode, AutoTrigger.Incoming);
    AutoTrigger.ShouldAutoTranslateCovers(c.autoMode, AutoTrigger.Outgoing);
  }

  /** Translating with the button and clicking again restores what the chat
      showed and clears the mark, with a single request in all. */
  lemma ToggleRoundTrip(c: Config, st: MessageState, client: Request -> ClientOutcome,
                        c2: Config, client2: Request -> ClientOutcome)
    requires !IsTranslated(st) && !IsBlank(st.mes)
    requires Truthy(Translate(c, st.mes, client).result)
    requires st.extra.None? || st.extra.value.displayText.None?
    ensures var e1 := ManualToggle(c, st, client);
      var e2 := ManualToggle(c2, e1.state, client2);
      && IsTranslated(e1.state) && Displayed(e1.state) == Translate(c, st.mes, client).result.text
      && e2.sent.None? && !IsTranslated(e2.state)
      && e2.state.mes == st.mes && Displayed(e2.state) == Displayed(st)
  {
  }

  /** Clicking a user message that was translated automatically removes the
      mark and the display override, but the message text stays the
      translation: the original input is no longer shown. (A translation of
      only whitespace, possible with the filter off, makes the button do
      nothing at all.) */
  lemma RevertAfterAutoOutgoing(c: Config, st: MessageState, client: Request -> ClientOutcome,
                                c2: Config, client2: Request -> ClientOutcome)
    requires AutoOutgoing(c, st, client).saved
    requires !IsBlank(AutoOutgoing(c, st, client).state.mes)
    ensures var e1 := AutoOutgoing(c, st, client);
      var e2 := ManualToggle(c2, e1.state, client2);
      && e2.sent.None? && !IsTranslated(e2.state)
      && e2.state.mes == Translate(c, st.mes, client).result.text
      && Displayed(e2.state) == Translate(c, st.mes, client).result.text
  {
  }

  // ---------------------------------------------------------------------
  // The slash command

  /** What the command reads as its input: the trimmed argument, or else
      the text of the last chat message. */
  function SlashText(value: string, last: Option<MessageState>): string {
    if Trim(value) != "" then Trim(value) else if last.Some? then last.value.mes else ""
  }

  /** The command's result: its output, the request sent, the last message
      afterwards, and the settings afterwards. */
  datatype SlashResult = SlashResult(output: string, sent: Option<Request>, last: Option<MessageState>, settings: Config)

  /** The `lang` override applied to the settings. */
  function Overridden(c: Config, lang: string): Config {
    if lang != "" then c.(targetLanguage := lang) else c
  }

  /** The `/llm-translate` callback as written: the override is applied
      before the input is read, and the restoring `finally` only covers the
      translation, so an empty input returns with the override still in
      place. */
  function SlashAsWritten(c: Config, lang: string, value: string, last: Option<MessageState>,
                          client: Request -> ClientOutcome): (r: SlashResult)
    ensures SlashText(value, last) == "" ==> r == SlashResult("", None, last, Overridden(c, lang))
    ensures SlashText(value, last) != "" ==> r.settings == c
    ensures Trim(value) != "" ==> r.last == last
    ensures r.output != "" ==>
      var a := Translate(Overridden(c, lang), SlashText(value, last), client);
      Truthy(a.result) && r.output == a.result.text && r.sent == a.sent
    ensures SlashText(value, last) != "" ==>
      var a := Translate(Overridden(c, lang), SlashText(value, last), client);
      && r.sent == a.sent
      && r.output == (if Truthy(a.result) then a.result.text else "")
      && (!Truthy(a.result) || last.None? ==> r.last == last)
      && (Truthy(a.result) && Trim(value) == "" && last.Some? ==>
            && r.last == Some(Marked(last.value, a.result.text))
            && r.last.Some? && IsTranslated(r.last.value)
            && Displayed(r.last.value) == a.result.text
            && r.last.value.mes == last.value.mes)
  {
    var c1 := Overridden(c, lang);
    var text := SlashText(value, last);
    if text == "" then SlashResult("", None, last, c1)
    else
      var a := Translate(c1, text, client);
      var marked := if Truthy(a.result) && Trim(value) == "" && last.Some? then Some(Marked(last.value, a.result.text)) else last;
      SlashResult(if Truthy(a.result) then a.result.text else "", a.sent, marked, c)
  }

  /** The command with the override undone on every path. */
  function Slash(c: Config, lang: string, value: string, last: Option<MessageState>,
                 client: Request -> ClientOutcome): (r: SlashResult)
    ensures r.settings == c
    ensures r.output == SlashAsWritten(c, lang, value, last, client).output
    ensures r.sent == SlashAsWritten(c, lang, value, last, client).sent
    ensures r.last == SlashAsWritten(c, lang, value, last, client).last
  {
    SlashAsWritten(c, lang, value, last, client).(settings := c)
  }

  /** As written, the command leaves the settings changed exactly when a
      different language was given and there was nothing to translate. */
  lemma SlashOverrideLeaks(c: Config, lang: string, value: string, last: Option<MessageState>,
                           client: Request -> ClientOutcome)
    ensures SlashAsWritten(c, lang, value, last, client).settings != c
        <==> lang != "" && lang != c.targetLanguage && SlashText(value, last) == ""
  {
    if lang != "" && SlashText(value, last) == "" {
      assert SlashAsWritten(c, lang, value, last, client).settings.targetLanguage == lang;
    }
  }

  /** A concrete run: `/llm-translate lang=Japanese` in an empty chat, with
      English as the target language, returns nothing, and every later
      translation targets Japanese. */
  lemma SlashOverrideLeaksExample(c: Config, client: Request -> ClientOutcome)
    requires c.targetLanguage == "English"
    ensures SlashAsWritten(c, "Japanese", "", None, client).output == ""
    ensures SlashAsWritten(c, "Japanese", "", None, client).settings.targetLanguage == "Japanese"
    ensures Slash(c, "Japanese", "", None, client).settings.targetLanguage == "English"
  {
    assert Trim("") == "";
    assert SlashText("", None) == "";
  }

  /** With text to translate, the override is used for that one request. */
  lemma SlashUsesOverride(c: Config, lang: string, value: string, last: Option<MessageState>,
                          client: Request -> ClientOutcome)
    requires SlashText(value, last) != ""
    ensures Slash(c, lang, value, last, client).sent == Translate(Overridden(c, lang), SlashText(value, last), client).sent
  {
  }

  // ---------------------------------------------------------------------
  // The chat message object and the handlers as methods

  class Message {
    var mes: string
    var isUser: bool
    var extra: Option<Extra>

    function State(): MessageState
      reads this
    {
      MessageState(mes, isUser, extra)
    }
  }

  /** The state of the last message of a chat, if there is one. */
  function LastState(chat: seq<Message>): Option<MessageState>
    reads if chat == [] then {} else {chat[|chat| - 1]}
  {
    if chat == [] then None else Some(chat[|chat| - 1].State())
  }

  method AutoTranslateIncoming(settings: Settings, message: Message?, client: Request -> ClientOutcome)
    returns (sent: Option<Request>, saved: bool)
    modifies message
    ensures message == null ==> sent.None? && !saved
    ensures message != null ==>
      var e := AutoIncoming(old(settings.Snapshot()), old(message.State()), client);
      message.State() == e.state && sent == e.sent && saved == e.saved
  {
    sent, saved := None, false;
    if message == null || message.isUser {
      return;
    }
    if message.extra.Some? && message.extra.value.translated {
      return;
    }
    if settings.profileId == "" {
      return;
    }
    var originalText := message.mes;
    if IsBlank(originalText) {
      return;
    }
    var attempt := Translate(settings.Snapshot(), originalText, client);
    sent := attempt.sent;
    if Truthy(attempt.result) {
      message.extra := Some(Extra(Some(attempt.result.text), true));
      saved := true;
    }
  }

  method AutoTranslateOutgoing(settings: Settings, message: Message?, client: Request -> ClientOutcome)
    returns (sent: Option<Request>, saved: bool)
    modifies message
    ensures message == null ==> sent.None? && !saved
    ensures message != null ==>
      var e := AutoOutgoing(old(settings.Snapshot()), old(message.State()), client);
      message.State() == e.state && sent == e.sent && saved == e.saved
  {
    sent, saved := None, false;
    if message == null || !message.isUser {
      return;
    }
    if message.extra.Some? && message.extra.value.translated {
      return;
    }
    if settings.profileId == "" {
      return;
    }
    var originalText := message.mes;
    if IsBlank(originalText) {
      return;
    }
    var attempt := Translate(settings.Snapshot(), originalText, client);
    sent := attempt.sent;
    if Truthy(attempt.result) {
      message.extra := Some(Extra(Some(originalText), true));
      message.mes := attempt.result.text;
      saved := true;
    }
  }

  method HandleIncomingMessage(settings: Settings, message: Message?, client: Request -> ClientOutcome)
    returns (sent: Option<Request>, saved: bool)
    modifies message
    ensures message == null ==> sent.None? && !saved
    ensures message != null ==>
      var e := OnIncoming(old(settings.Snapshot()), old(message.State()), client);
      message.State() == e.state && sent == e.sent && saved == e.saved
  {
    sent, saved := None, false;
    if AutoTrigger.ShouldAutoTranslate(settings.autoMode, AutoTrigger.IncomingTypes) {
      sent, saved := AutoTranslateIncoming(settings, message, client);
    }
  }

  method HandleOutgoingMessage(settings: Settings, message: Message?, client: Request -> ClientOutcome)
    returns (sent: Option<Request>, saved: bool)
    modifies message
    ensures message == null ==> sent.None? && !saved
    ensures message != null ==>
      var e := OnOutgoing(old(settings.Snapshot()), old(message.State()), client);
      message.State() == e.state && sent == e.sent && saved == e.saved
  {
    sent, saved := None, false;
    if AutoTrigger.ShouldAutoTranslate(settings.autoMode, AutoTrigger.OutgoingTypes) {
      sent, saved := AutoTranslateOutgoing(settings, message, client);
    }
  }

  method MessageTranslateClick(settings: Settings, message: Message?, client: Request -> ClientOutcome)
    returns (sent: Option<Request>, saved: bool)
    modifies message
    ensures message == null ==> sent.None? && !saved
    ensures message != null ==>
      var e := ManualToggle(old(settings.Snapshot()), old(message.State()), client);
      message.State() == e.state && sent == e.sent && saved == e.saved
  {
    sent, saved := None, false;
    if message == null {
      return;
    }
    var originalText := message.mes;
    if IsBlank(originalText) {
      return;
    }
    if message.extra.Some? && message.extra.value.translated {
      message.extra := Some(Extra(None, false));
      saved := true;
      return;
    }
    var translation := Translate(settings.Snapshot(), originalText, client);
    sent := translation.sent;
    if Truthy(translation.result) {
      message.extra := Some(Extra(Some(translation.result.text), true));
      saved := true;
    }
  }

  /** The `/llm-translate` callback as written. */
  method SlashCommandAsWritten(settings: Settings, chat: seq<Message>, lang: string, value: string,
                               client: Request -> ClientOutcome)
    returns (output: string, sent: Option<Request>)
    modifies settings, if chat == [] then {} else {chat[|chat| - 1]}
    ensures var r := SlashAsWritten(old(settings.Snapshot()), lang, value, old(LastState(chat)), client);
      output == r.output && sent == r.sent && settings.Snapshot() == r.settings && LastState(chat) == r.last
  {
    ghost var c0 := settings.Snapshot();
    ghost var last0 := LastState(chat);
    var originalLang := settings.targetLanguage;
    if lang != "" {
      settings.targetLanguage := lang;
    }
    assert settings.Snapshot() == Overridden(c0, lang);
    var text := Trim(value);
    var message: Message? := null;
    if text == "" && chat != [] {
      message := chat[|chat| - 1];
      text := message.mes;
    }
    assert text == SlashText(value, last0);
    if text == "" {
      return "", None;
    }
    var attempt := Translate(settings.Snapshot(), text, client);
    sent := attempt.sent;
    if Truthy(attempt.result) && message != null {
      message.extra := Some(Extra(Some(attempt.result.text), true));
      assert LastState(chat) == Some(Marked(last0.value, attempt.result.text));
    } else {
      assert LastState(chat) == last0;
    }
    output := if Truthy(attempt.result) then attempt.result.text else "";
    settings.targetLanguage := originalLang;
  }

  /** The `/llm-translate` callback with the language restored on every
      path: the callback as written, followed by the restore. */
  method SlashCommand(settings: Settings, chat: seq<Message>, lang: string, value: string,
                      client: Request -> ClientOutcome)
    returns (output: string, sent: Option<Request>)
    modifies settings, if chat == [] then {} else {chat[|chat| - 1]}
    ensures var r := Slash(old(settings.Snapshot()), lang, value, old(LastState(chat)), client);
      output == r.output && sent == r.sent && settings.Snapshot() == r.settings && LastState(chat) == r.last
    ensures settings.Snapshot() == old(settings.Snapshot())
  {
    var originalLang := settings.targetLanguage;
    output, sent := SlashCommandAsWritten(settings, chat, lang, value, client);
    settings.targetLanguage := originalLang;
  }
}
