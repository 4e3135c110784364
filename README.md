# LLM Translator — a Dafny model of its translation core

The LLM Translator is a chat-application extension. It translates chat
messages by sending a prompt to a language-model connection profile. It can:

- translate a message when the user clicks the globe button on it, and revert it with a second click;
- translate character replies and the user's own messages automatically, depending on the `autoMode` setting;
- translate arbitrary text, or the last message, through the `/llm-translate` command.

The reply is optionally cleaned of Markdown code fences before it is used.
Every entry point goes through `translateText`:

1. It checks three settings in order: a connection profile, a target language, a selected preset.
2. It fills the preset's prompt template.
3. It sends the request.
4. It passes the reply through `extractFromCodeBlock`.

The model has seven modules, one per part of `index.js`:

| file | module | part of the extension |
|---|---|---|
| `common.dfy` | `Common` | `Option`, JavaScript whitespace and `String.prototype.trim` |
| `response_extractor.dfy` | `ResponseExtractor` | `extractFromCodeBlock`; each regular expression is written out as the scan a backtracking matcher performs |
| `prompt_builder.dfy` | `PromptBuilder` | placeholder substitution, including JavaScript's `$` replacement patterns; the default template |
| `auto_trigger.dfy` | `AutoTrigger` | the auto-mode values and `shouldAutoTranslate`, with a reference lattice of directions |
| `config.dfy` | `Config` | the settings, `loadSettings`, and the preset handlers, as pure functions and as a `Settings` class whose methods update it in place |
| `orchestrator.dfy` | `Orchestrator` | `translateText`; the connection manager is a function parameter |
| `messages.dfy` | `Messages` | the message handlers, the translate button and the slash command, as pure functions and as methods on a `Message` class |

Behaviour worth knowing, read from the code:

- **Substitution order.** The two placeholders are replaced one after the other, not independently. A target language that reads `{{targetmessage}}` is itself replaced by the message (`BuildPromptOrder`).
- **`$` in replacement text.** Both replacements are `String.prototype.replace` with a string argument, so `$$`, `$&`, `` $` `` and `$'` in the language or the message are expanded. The message therefore does not always appear verbatim in the prompt (`BuildPromptDollarPatterns`).
- **The translate button never changes `mes`**, for user messages as well as replies. It only sets `display_text` (`ManualToggle`).
- **Reverting an automatically translated user message** clears the mark and the display override, but `mes` keeps the translation (`RevertAfterAutoOutgoing`). The translate-then-revert round trip restores the display only for button translations (`ToggleRoundTrip`).
- **An empty stored preset list is kept by `loadSettings`**, because `[]` is truthy. Only the preset handlers keep the list non-empty (`PresetsNeverEmpty`).

## Model

| member | source | states |
|---|---|---|
| Common.Trim | index.js:288 | the result neither starts nor ends with JavaScript whitespace; it is empty exactly when the input is all whitespace; a trimmed input is returned unchanged |
| Common.TrimIdempotent | index.js:288 | trimming twice equals trimming once |
| Common.TrimSurrounded | index.js:288 | trim removes exactly the whitespace around a trimmed core |
| ResponseExtractor.FindFence | index.js:275 | the result is the first fence at or after the start index; there is none exactly when no fence follows |
| ResponseExtractor.HeaderEnd | index.js:275 | the fence header is the fence, the maximal run of word characters after it, then one CR if there is one and one LF if there is one; it holds no further backtick |
| ResponseExtractor.WholeBlock | index.js:275-277 | the whole-response pattern matches exactly when the text holds two non-overlapping fences; the capture runs from the end of the first fence's header up to the next fence, and holds no fence |
| ResponseExtractor.StripOpenFrom | index.js:279 | the multi-line opening-fence replace leaves text unchanged when no fence starts a line (what it removes otherwise: `StripOpenUpTo`) |
| ResponseExtractor.StripOpenUpTo | index.js:279 | the opening-fence replace copies every stretch in which no fence starts a line, and at a fence that starts a line removes exactly its header |
| ResponseExtractor.ClosingMatchEnd | index.js:280 | the closing-fence pattern matches at an index exactly when an optional CR, an optional LF and a fence follow and the fence ends a line; the match found is such a match and ends a line |
| ResponseExtractor.StripCloseFrom | index.js:280 | the multi-line closing-fence replace leaves fence-free text unchanged (what it removes otherwise: `StripCloseUpTo`) |
| ResponseExtractor.StripCloseUpTo | index.js:280 | the closing-fence replace copies every stretch in which no closing match starts, and at a closing match removes exactly the match |
| ResponseExtractor.UnwrapInline | index.js:283-286 | a single inline code span is unwrapped to its non-empty, backtick-free content; anything else is left alone |
| ResponseExtractor.Extract | index.js:268-289 | with the filter off the reply is returned unchanged and untrimmed; with it on, the result is trimmed |
| ResponseExtractor.ExtractWithoutFence | index.js:279-288 | fence-free text only goes through the inline-span rule and the trim |
| ResponseExtractor.ExtractBacktickFree | index.js:268-288 | text without backticks is only trimmed |
| ResponseExtractor.ExtractFencedBlock | index.js:275-288 | for text in which no fence starts, a fence, a language tag, a line break (none, CR, LF or CRLF), a body in which no fence starts, a fence and any rest, the result is the body, unwrapped if it is one inline span, and trimmed |
| ResponseExtractor.ExtractUnclosedFence | index.js:279-288 | an opening fence with a tag and a newline but no closing fence is stripped; the trimmed body remains |
| ResponseExtractor.ExtractTrailingFence | index.js:280-288 | a reply that only ends with a fence loses the fence; the trimmed body remains |
| ResponseExtractor.ExtractInlineSpan | index.js:283-288 | a reply that is one inline code span around trimmed text yields that text |
| ResponseExtractor.ExtractFencedLine | index.js:275-288 | a trimmed fence-free line between a fence line and a fence, with LF or CRLF breaks, yields the line, inline code included |
| ResponseExtractor.ExtractPadded | index.js:288 | backtick-free text around a trimmed core yields the core |
| ResponseExtractor.ExtractFencedExample | index.js:275-288 | "```\nHola\n```" yields "Hola" |
| ResponseExtractor.ExtractCrlfExample | index.js:275-288 | "```\r\nHola\r\n```" yields "Hola" |
| ResponseExtractor.ExtractInnerBackticksExample | index.js:275-288 | a fenced "use `x`" line yields "use `x`", its inline code kept |
| ResponseExtractor.ExtractLanguageTagExample | index.js:275 | "```Hola```" yields "": the word after the fence is taken for a language tag |
| ResponseExtractor.ExtractInlineExample | index.js:283-288 | "`Hola`" yields "Hola" |
| ResponseExtractor.ExtractPlainExample | index.js:268-288 | "  Hola \n" yields "Hola" with the filter on, and itself with the filter off |
| PromptBuilder.Expand | index.js:311-312 | a replacement without `$` is inserted verbatim |
| PromptBuilder.ReplaceAllFromLiteral | index.js:311-312 | without `$` in the replacement, the global replace from any index equals the literal left-to-right replace of the rest |
| PromptBuilder.ReplaceAll | index.js:311-312 | the global replace with a `$`-free replacement equals the literal reference replace |
| PromptBuilder.ReplaceAllFrom | index.js:311-312 | with no occurrence from the scan index on, the rest of the text is copied, whatever the replacement |
| PromptBuilder.ReplaceAllAbsent | index.js:311-312 | a text without the pattern is left unchanged |
| PromptBuilder.ReplaceAllFromSkips | index.js:311-312 | a stretch with no first character of the pattern is copied verbatim |
| PromptBuilder.SingleOccurrence | index.js:311-312 | one occurrence of the pattern is replaced by the expanded replacement, with the text before and after it; the rest is copied |
| PromptBuilder.WholeMatch | index.js:311-312 | a text that is exactly the pattern becomes the expanded replacement, with nothing before or after it |
| PromptBuilder.LanguagePass | index.js:311 | the language pass puts the language in place of `{{language}}` and leaves `{{targetmessage}}` alone |
| PromptBuilder.MessagePass | index.js:312 | the message pass inserts the message, `$` patterns expanded against the surrounding text |
| PromptBuilder.BuildPrompt | index.js:310-312 | with a `$`-free language and message, the prompt is the literal replace of `{{language}}` by the language, followed by the literal replace of `{{targetmessage}}` by the message |
| PromptBuilder.BuildPromptNoPlaceholder | index.js:310-312 | a template with no placeholder is sent as it is |
| PromptBuilder.BuildPromptShape | index.js:310-312 | in a template `a{{language}}b{{targetmessage}}c` the language and the message land in their places; a message without `$` goes in verbatim |
| PromptBuilder.BuildPromptOrder | index.js:310-312 | the replacements are sequential: a language reading `{{targetmessage}}` becomes the message |
| PromptBuilder.BuildPromptDollarPatterns | index.js:312 | a message `$$5` is inserted as `$5`, and a message `$&` as the placeholder itself |
| PromptBuilder.DefaultPrompt | index.js:18-21 | the default template asks for the language and ends with the message |
| PromptBuilder.BuildPromptExample | index.js:310-312 | "Translate to {{language}}: {{targetmessage}}" with Spanish and Hello gives "Translate to Spanish: Hello" |
| AutoTrigger.ShouldAutoTranslate | index.js:130-133 | a set mode triggers exactly when listed; an unset mode counts as `none`, so it triggers exactly when `none` is listed |
| AutoTrigger.ParseMode | index.js:11-16 | only the three active option values map to an active mode |
| AutoTrigger.ShouldAutoTranslateCovers | index.js:130-133 | for every setting value and direction, the handlers' list test agrees with the lattice `none` < `responses`, `inputs` < `both` |
| AutoTrigger.ModeTable | index.js:212-224 | `both` triggers both directions, `responses` and `inputs` only their own, and `none`, unset or unknown values neither |
| Config.SelectedPreset | index.js:304-305 | a preset is selected exactly when the index is inside the list, and it is the preset at that index |
| Config.RemoveAt | index.js:262 | `splice(i, 1)` drops exactly element `i`, shifting the rest, as a multiset difference |
| Config.LoadSettings | index.js:38-56 | an empty stored object takes all defaults; a missing preset list takes the default list with index 0; a stored list keeps its stored index, and without one selects nothing; a missing or empty mode becomes `none`; a missing or zero budget becomes 1024; other stored values are kept, and missing ones read as empty or `false` |
| Config.LoadIdempotent | index.js:38-56 | loading settings that were already loaded changes nothing |
| Config.LoadValid | index.js:44-47 | a load with a missing list, or a stored list with a valid index, selects a preset |
| Config.AddPreset | index.js:226-238 | a cancelled name changes nothing; otherwise a preset with the default prompt is appended and selected by its index, the new last one, and nothing else changes |
| Config.RenameSelected | index.js:240-248 | only the selected preset's name changes; nothing changes without a selection or a name |
| Config.EditSelectedPrompt | index.js:105-110 | only the selected preset's prompt changes; nothing changes without a selection |
| Config.DeleteOutcomeOf | index.js:251-260 | refused exactly when at most one preset exists; deleted exactly when more exist, one is selected and the user confirms |
| Config.DeleteSelected | index.js:251-266 | a deletion removes exactly the selected preset and selects the one before it, or the first, keeping a valid selection; any other outcome changes nothing |
| Config.SelectIndex | index.js:98-103 | the parsed index is stored unchecked and nothing else changes; an index in range selects that preset |
| Config.WithMaxTokens | index.js:124-128 | an unparsable or zero budget becomes 1024; any other value is kept; nothing else changes |
| Config.PresetsNeverEmpty | index.js:254-257 | no sequence of preset edits empties a non-empty list |
| Config.ValidAfterEdit | index.js:226-266 | every preset edit keeps a valid selection valid, given the dropdown selects an existing preset |
| Config.Settings.Load | index.js:38-56 | the live settings are the loaded ones |
| Config.Settings.SetLanguage | index.js:86-90 | only the target language changes |
| Config.Settings.SetProfile | index.js:92-96 | only the profile id changes; a missing profile stores "" |
| Config.Settings.SetFilterCodeBlock | index.js:112-116 | only the filter switch changes |
| Config.Settings.SetAutoMode | index.js:118-122 | only the auto mode changes |
| Config.Settings.SetMaxTokens | index.js:124-128 | the new state is `WithMaxTokens` of the old one |
| Config.Settings.SelectPreset | index.js:98-103 | the new state is `SelectIndex` of the old one |
| Config.Settings.EditPrompt | index.js:105-110 | the new state is `EditSelectedPrompt` of the old one; a valid selection stays valid |
| Config.Settings.NewPreset | index.js:226-238 | the new state is `AddPreset` of the old one and is valid after a named preset |
| Config.Settings.RenamePreset | index.js:240-248 | the new state is `RenameSelected` of the old one; a valid selection stays valid |
| Config.Settings.DeletePreset | index.js:251-266 | returns the outcome; the new state is `DeleteSelected` of the old one; the list never becomes empty |
| Orchestrator.ReplyText | index.js:321 | a string reply is used as it is; an object gives `content`, else `text`, else nothing |
| Orchestrator.RequestedMaxTokens | index.js:318 | a zero budget is sent as 1024, and a non-zero setting as it is |
| Orchestrator.RequestFor | index.js:304-319 | the request goes to the configured profile, with the selected preset's template filled with the target language and the text, and the budget with its 1024 fallback |
| Orchestrator.Receive | index.js:320-329 | a rejection becomes a failure carrying its message; a reply with text becomes that text passed through `extractFromCodeBlock`; a reply without text is a failure |
| Orchestrator.Translate | index.js:291-330 | a request is sent exactly when profile, language and preset are all set; each failed gate, in order, gives its own null result; otherwise the result is the received reply to the request sent |
| Orchestrator.TranslateAsksOnce | index.js:314-319 | the connection is consulted on the one request only: two clients that answer it alike give the same attempt |
| Orchestrator.TranslateRejected | index.js:326-329 | a rejected request yields a falsy result carrying the rejection message |
| Orchestrator.TranslateFencedReply | index.js:314-325 | with the filter on, a fenced one-line reply yields the line |
| Orchestrator.ReceiveFencedReply | index.js:320-325 | with the filter on, a received string that is one fenced block of a trimmed backtick-free line becomes that line |
| Orchestrator.TranslateIgnoresAutoMode | index.js:291-330 | the auto mode plays no part in a translation |
| Orchestrator.TranslateExample | index.js:291-330 | default preset, Spanish, filter on, reply "```\nHola\n```": the prompt is the default one for Spanish and "Hello", 1024 tokens, and the result is "Hola" |
| Messages.Marked | index.js:160-164 | `display_text` is the given text and `llm_translated` is set, so the message shows that text; `mes` and the sender are kept |
| Messages.Unmarked | index.js:348-350 | both `display_text` and `llm_translated` are deleted, so the message shows `mes`; `mes` and the sender are kept |
| Messages.AutoIncoming | index.js:135-172 | user messages, translated messages, no profile and blank text send nothing; otherwise the translation request is sent, and the chat is saved exactly when the translation is truthy, with the reply marked and showing the translation while `mes` is kept; otherwise nothing changes |
| Messages.AutoOutgoing | index.js:174-210 | replies, translated messages, no profile and blank text send nothing; otherwise the translation request is sent, and the chat is saved exactly when the translation is truthy, with `mes` set to the translation and the original kept for display; otherwise nothing changes |
| Messages.OnIncoming | index.js:212-217 | a mode that covers replies runs the incoming translation; any other mode does nothing, and user messages are never touched |
| Messages.OnOutgoing | index.js:219-224 | a mode that covers inputs runs the outgoing translation; any other mode does nothing, and replies are never touched |
| Messages.ManualToggle | index.js:332-376 | `mes` never changes; blank text does nothing; a translated message reverts without a request to exactly `Unmarked`; otherwise the message is marked and shows the translation exactly when it is truthy, as `Marked` with the translation |
| Messages.AutoTranslatesOnce | index.js:143-145 | after a successful automatic translation neither handler sends another request for that message |
| Messages.HandlersFollowMode | index.js:212-224 | a mode that does not cover a direction sends nothing in that direction |
| Messages.ToggleRoundTrip | index.js:348-372 | translating with the button and clicking again restores the display and clears the mark, with one request in all |
| Messages.RevertAfterAutoOutgoing | index.js:199-203 | reverting an automatically translated user message leaves the translation in `mes` and on display |
| Messages.SlashAsWritten | index.js:469-512 | with nothing to translate the output is empty, no request is sent and the language override stays; with text, the translation request is made with the override, the output is the translation or "", the settings are restored, and a truthy translation of the last message leaves it exactly `Marked` with the translation, `mes` and the sender kept; explicit text never touches the chat |
| Messages.Slash | index.js:469-512 | the settings are restored on every path; output, request and chat update are those of the callback as written |
| Messages.SlashOverrideLeaks | index.js:491-493 | as written, the settings stay changed exactly when a different language was given and there was nothing to translate |
| Messages.SlashOverrideLeaksExample | index.js:474-493 | from English, `lang=Japanese` in an empty chat outputs "" and leaves Japanese as the target language; the corrected command leaves English |
| Messages.SlashUsesOverride | index.js:474-496 | with text to translate, the request is made with the override applied |
| Messages.AutoTranslateIncoming | index.js:135-172 | the message's new state, the request and the save are those of `AutoIncoming` |
| Messages.AutoTranslateOutgoing | index.js:174-210 | the message's new state, the request and the save are those of `AutoOutgoing` |
| Messages.HandleIncomingMessage | index.js:212-217 | the message's new state, the request and the save are those of `OnIncoming` |
| Messages.HandleOutgoingMessage | index.js:219-224 | the message's new state, the request and the save are those of `OnOutgoing` |
| Messages.MessageTranslateClick | index.js:332-376 | the message's new state, the request and the save are those of `ManualToggle` |
| Messages.SlashCommandAsWritten | index.js:469-512 | output, request, settings and last message are those of `SlashAsWritten` |
| Messages.SlashCommand | index.js:469-512 | output, request, settings and last message are those of `Slash`; the settings end as they began |

## Left out

- The settings panel, preset dropdown, prompt textarea, translate buttons, spinner icon and mutation observer (`updatePresetDropdown`, `updatePromptTextarea`, `addTranslateButtons`) are DOM work. A handler's re-render and chat save are reduced to the `saved` flag.
- `initConnectionDropdown` and the connection manager itself are foreign code. The request is a `Request` value. The reply is a total function parameter from the request to `Ok(reply)` or `Err(message)`.
- `toastr` notices and console logging are left out. The gate failures are the distinct `NoProfile`, `NoLanguage` and `NoPreset` results instead.
- `prompt()` and `confirm()` become parameters: the typed name ("" when cancelled) and the confirmation answer. `parseInt` becomes an `Option<int>`, or the parsed index.
- Handlers are asynchronous in the source. Interleavings are not modelled: another handler reading the temporary language override of a running slash command, or a message changed while its translation is in flight. Each handler runs to completion on its own.
- `saveSettingsDebounced` persistence and `loadExtensionSettings` are not modelled. `loadSettings` is modelled from the stored object onward.
- Orchestrator.ReplyText: an object reply whose `content` and `text` are both falsy is modelled as a failed translation. The source passes the object on: with the filter on, `match` throws and the call fails; with it off, the object is returned as the translation.
- Messages.AutoIncoming: a message whose `extra` is `null` is not modelled, nor are the other keys of `extra`. The source would throw on `null` and leaves other keys untouched. `mes` is always a string here.
- Config.LoadSettings: the default preset list is shared by reference with the defaults object in the source. The model copies values, so that aliasing is not modelled.
- Config.LoadSettings: stored values of the wrong type (a non-string mode, a non-array preset list) are not modelled.
- PromptBuilder.BuildPromptShape: its brace-free and `$`-free hypotheses cover the usual template shape only. Templates with several copies of a placeholder are covered by `BuildPrompt`'s own contract, which, for a `$`-free language and message, equates the prompt with the literal reference replace through `ReplaceAllFromLiteral`.
- Config.Settings.SelectPreset: a `NaN` index from `parseInt` is not modelled. The dropdown only offers indices.

## Findings

| source | as written | input that shows it | evidently intended | confidence | as-written member | corrected member |
|---|---|---|---|---|---|---|
| index.js:474-493 | the `lang` override is applied before the input is read, and the empty-input `return ''` comes before the `try` whose `finally` restores the language | `/llm-translate lang=Japanese` with no text in an empty chat: the target language stays Japanese for every later translation | the override lasts for the one command, restored on every path | high (not executed) | Messages.SlashAsWritten | Messages.Slash |
