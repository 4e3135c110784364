/** `translateText`: the three configuration gates, the request sent to the
    connection profile, and the reply turned into a translation. The
    connection manager is a parameter: a total function from the request to
    what the request resolves or rejects with. */
module Orchestrator {
  import opened Common
  import opened Config
  import PromptBuilder
  import ResponseExtractor

  /** The arguments of `sendRequest`. */
  datatype Request = Request(profileId: string, prompt: string, maxTokens: int)

  /** What a request resolves with: a plain string, or an object whose
      `content` and `text` fields are read in that order ("" when the field
      is missing or empty). */
  datatype Reply = Bare(body: string) | Structured(content: string, text: string)

  datatype ClientOutcome = Ok(reply: Reply) | Err(message: string)

  /** What `translateText` returns: `null` at one of the three gates, nothing
      after a rejected request, otherwise the cleaned reply. */
  datatype Translation =
    | NoProfile
    | NoLanguage
    | NoPreset
    | Failed(message: string)
    | Translated(text: string)

  /** The callers act on a translation only when it is a non-empty string. */
  predicate Truthy(t: Translation) {
    t.Translated? && t.text != ""
  }

  /** One call of `translateText`: the request it sent, if any, and what it
      returned. */
  datatype Attempt = Attempt(sent: Option<Request>, result: Translation)

  const NoTextMessage: string := "reply carries no text"

  /** `result?.content || result?.text || result`. */
  function ReplyText(r: Reply): (t: Option<string>)
    ensures r.Bare? ==> t == Some(r.body)
    ensures r.Structured? ==> (t.None? <==> r.content == "" && r.text == "")
    ensures r.Structured? && r.content != "" ==> t == Some(r.content)
    ensures r.Structured? && r.content == "" && r.text != "" ==> t == Some(r.text)
  {
    match r
    case Bare(s) => Some(s)
    case Structured(content, text) =>
      if content != "" then Some(content) else if text != "" then Some(text) else None
  }

  /** `settings.maxTokens || 1024`. */
  function RequestedMaxTokens(m: int): (r: int)
    ensures m == 0 ==> r == 1024
    ensures m != 0 ==> r == m
  {
    if m == 0 then DefaultMaxTokens else m
  }

  /** All three gates pass: a profile, a target language and a selected
      preset. */
  predicate Ready(c: Config) {
    c.profileId != "" && c.targetLanguage != "" && SelectedPreset(c).Some?
  }

  /** The request a ready configuration sends for `text`: the selected
      preset's template filled with the target language and the text, and
      the token budget with its fallback. */
  function RequestFor(c: Config, text: string): (q: Request)
    requires Ready(c)
    ensures q.profileId == c.profileId
    ensures q.prompt == PromptBuilder.BuildPrompt(c.presets[c.selectedPresetIndex].prompt, c.targetLanguage, text)
    ensures q.maxTokens == (if c.maxTokens == 0 then 1024 else c.maxTokens)
  {
    Request(c.profileId,
            PromptBuilder.BuildPrompt(SelectedPreset(c).value.prompt, c.targetLanguage, text),
            RequestedMaxTokens(c.maxTokens))
  }

  /** The reply after the code-block filter. */
  function Receive(outcome: ClientOutcome, filterCodeBlock: bool): (t: Translation)
    ensures t.Failed? || t.Translated?
    ensures outcome.Err? ==> t == Failed(outcome.message)
    ensures t.Translated? && filterCodeBlock ==> IsTrimmed(t.text)
    ensures outcome.Ok? && outcome.reply.Bare? && !filterCodeBlock ==> t == Translated(outcome.reply.body)
    ensures outcome.Ok? && ReplyText(outcome.reply).Some? ==>
      t == Translated(ResponseExtractor.Extract(ReplyText(outcome.reply).value, filterCodeBlock))
    ensures outcome.Ok? && ReplyText(outcome.reply).None? ==> t == Failed(NoTextMessage)
  {
    match outcome
    case Err(message) => Failed(message)
    case Ok(reply) =>
      match ReplyText(reply)
      case None => Failed(NoTextMessage)
      case Some(s) => Translated(ResponseExtractor.Extract(s, filterCodeBlock))
  }

  /** `translateText`. The gates are checked in order (profile, language,
      preset) and a request is sent exactly when all of them pass. */
  function Translate(c: Config, text: string, client: Request -> ClientOutcome): (a: Attempt)
    ensures a.sent.Some? <==> Ready(c)
    ensures c.profileId == "" ==> a.result == NoProfile
    ensures c.profileId != "" && c.targetLanguage == "" ==> a.result == NoLanguage
    ensures c.profileId != "" && c.targetLanguage != "" && SelectedPreset(c).None? ==> a.result == NoPreset
    ensures Ready(c) ==> a.sent == Some(RequestFor(c, text)) && (a.result.Failed? || a.result.Translated?)
    ensures Ready(c) ==> a.result == Receive(client(RequestFor(c, text)), c.filterCodeBlock)
    ensures Truthy(a.result) ==> Ready(c)
  {
    if c.profileId == "" then Attempt(None, NoProfile)
    else if c.targetLanguage == "" then Attempt(None, NoLanguage)
    else if SelectedPreset(c).None? then Attempt(None, NoPreset)
    else
      var q := RequestFor(c, text);
      Attempt(Some(q), Receive(client(q), c.filterCodeBlock))
  }

  /** The connection is consulted on the one request and nothing else: two
      clients that answer that request alike give the same attempt. */
  lemma TranslateAsksOnce(c: Config, text: string, client1: Request -> ClientOutcome, client2: Request -> ClientOutcome)
    requires Ready(c) ==> client1(RequestFor(c, text)) == client2(RequestFor(c, text))
    ensures Translate(c, text, client1) == Translate(c, text, client2)
  {
  }

  /** A rejected request yields no translation, and the failure carries the
      rejection's message. */
  lemma TranslateRejected(c: Config, text: string, client: Request -> ClientOutcome)
    requires Ready(c) && client(RequestFor(c, text)).Err?
    ensures Translate(c, text, client).result == Failed(client(RequestFor(c, text)).message)
    ensures !Truthy(Translate(c, text, client).result)
  {
  }

  /** With the filter on, a reply that is one fenced block of a trimmed line
      comes back as that line. */
  lemma TranslateFencedReply(c: Config, text: string, client: Request -> ClientOutcome, reply: string, line: string)
    requires Ready(c) && c.filterCodeBlock
    requires client(RequestFor(c, text)) == Ok(Bare(reply))
    requires reply == "```\n" + line + "\n```" && line != [] && IsTrimmed(line) && '`' !in line
    ensures Translate(c, text, client).result == Translated(line)
  {
    ReceiveFencedReply(reply, line);
  }

  lemma ReceiveFencedReply(reply: string, line: string)
    requires reply == "```\n" + line + "\n```" && IsTrimmed(line) && '`' !in line
    ensures Receive(Ok(Bare(reply)), true) == Translated(line)
  {
    ResponseExtractor.BacktickFree(line);
    ResponseExtractor.ExtractFencedLine(reply, "\n", line);
  }

  /** The settings the auto mode and the message handlers keep do not take
      part in a translation. */
  lemma TranslateIgnoresAutoMode(c: Config, mode: string, text: string, client: Request -> ClientOutcome)
    ensures Translate(c.(autoMode := mode), text, client) == Translate(c, text, client)
  {
    assert SelectedPreset(c.(autoMode := mode)) == SelectedPreset(c);
  }

  /** The end-to-end example: the default preset, target language Spanish,
      the filter on, and a model that answers with a fenced block. */
  lemma TranslateExample(c: Config, reply: string, client: Request -> ClientOutcome)
    requires c == Defaults.(profileId := "main", targetLanguage := "Spanish", filterCodeBlock := true)
    requires reply == "```\nHola\n```"
    requires forall q :: client(q) == Ok(Bare(reply))
    ensures Translate(c, "Hello", client).sent
         == Some(Request("main", PromptBuilder.DefaultIntro + "Spanish" + PromptBuilder.DefaultInstruction
                                 + PromptBuilder.DefaultLead + "Hello", 1024))
    ensures Translate(c, "Hello", client).result == Translated("Hola")
  {
    ExampleArguments();
    PromptBuilder.DefaultPrompt("Spanish", "Hello");
    ResponseExtractor.ExtractFencedExample();
  }

  lemma ExampleArguments()
    ensures '{' !in "Spanish" && '$' !in "Spanish" && '$' !in "Hello"
  {
  }
}
