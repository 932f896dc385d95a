# detritus session engine, in Dafny

detritus is a terminal chat client for language models. A single process
keeps a global `$state` holding:

- the model and provider names;
- optional system instructions;
- the live chat (a transcript of messages);
- the current chat id;
- a `session` hash of usage counters;
- a persistence switch.

Every input line goes to `handle_prompt`. It dispatches on the line:

- `/exit` and `/quit` end the process.
- `/new` and `/clear` reset the counters and the chat.
- `/load <name> <args>` renders a prompt file and handles the result as a new line.
- `/resume <id>` restores a saved chat.
- A bare `/resume` lists the saved chats.
- `/status` shows the counters.
- `!<cmd>` runs a shell command and records it in the transcript.
- `/model <word>` switches the model.
- `/<name> <args>` renders a prompt file and sends it to the model.
- Any other line is sent to the model as it is.

Every completed model message fires a hook. The hook advances the counters and, when the chat persists, saves the transcript to `.detritus/chats/<id>`.

This project models that engine. It has two layers:

- `Session.Dispatch` is a function from the state (`Session.View`) and one input line to the new state and an outcome. The lemmas about dispatch are stated over it.
- `Engine.State` and `Engine.Chat` are classes that model `$state` and the chat object. Their methods reassign fields and grow the transcript in place. `Engine.State.HandlePrompt` is proved to have exactly the effect `Session.Dispatch` describes.

The other modules are:

- `Messages`: transcripts and the at-most-one-system-message invariant.
- `Metrics`: the counters and cost estimate, with reference sums.
- `Commands`: the line classifier, with Ruby's regular expression semantics written out.
- `Substitution`: literal replace-all, and Ruby's `gsub` with backslash expansion.
- `Prompts`: prompt lookup and templating.
- `EditTool`: the file-edit tool.
- `Persistence`: the chat store.
- `Configuration`: the persistence switch.

What the outside world supplies during one line is a parameter, `Session.Environment`:

- the prompt files;
- the model registry's prices;
- the shell's output;
- the replies of the model service.

The chat store is a map from chat id to file content. That content is a dumped record or something that does not load.

The classifier follows Ruby's rules:

- `^` matches at the start of any line of the input, so a multi-line prompt text can match `^/model` on its second line.
- `\s` includes newlines.
- `\w` is ASCII.
- The first `when` that matches decides.

Nested `/load` is bounded by a `depth` argument. This stands for the interpreter's stack. When it runs out, the outcome is `StackExhausted`, where Ruby would raise `SystemStackError`.

## Model

| member | source | states |
|---|---|---|
| Messages.Seed | detritus.rb:37-39 | a new chat holds one system message carrying the instructions when there are any, and no message otherwise |
| Messages.SystemCountAppend | detritus.rb:105 | appending transcripts adds their system-message counts, so appended non-system messages keep the invariant |
| Messages.NoSystemCountsZero | detritus.rb:218 | a transcript without system-role messages counts zero system messages |
| Metrics.EstimateCost | detritus.rb:57-67 | the cost is never negative, and is zero for a model missing from the registry or for zero tokens |
| Metrics.Track | detritus.rb:47-55 | a nil message changes nothing; any other message adds one to `messages`; `tool_calls` grows by one exactly when the message calls a tool; no counter decreases |
| Metrics.TrackAllIsSum | detritus.rb:47-55 | after one hook per message, each counter equals its start value plus the independently defined sum over the messages (tokens in/out/cached, tool-calling messages, message count, cost) |
| Metrics.TwoTurnsAccumulate | detritus.rb:49-52 | two messages of 10/20 and 5/8 tokens leave 15 tokens in, 28 out and 2 messages |
| Substitution.EmptyPatternInserts | detritus.rb:124 | replacing an empty pattern inserts the replacement before every character and at the end: block k of the result (length |rep|+1) is the replacement followed by character k, and the result ends with the replacement |
| Substitution.ReplaceAllAbsent | detritus.rb:124 | a text that does not contain a non-empty pattern comes back unchanged |
| Substitution.ReplaceAllSelf | detritus.rb:124 | replacing a non-empty pattern by itself is the identity |
| Substitution.ReplaceAllJoin | detritus.rb:193 | a text cut by the pattern into pieces (no earlier occurrence inside any piece) becomes the same pieces joined by the replacement: every occurrence is replaced, left to right, and nothing else changes |
| Substitution.Segment | detritus.rb:124 | every text is some pieces, none holding an earlier occurrence, joined by a non-empty pattern, so `ReplaceAllJoin` applies to any text |
| Substitution.ReplaceAllReplacesEvery | detritus.rb:124 | replacing a non-empty pattern in any text gives the text's pieces between occurrences joined by the replacement |
| Substitution.ExpandFailsIffRaised | detritus.rb:124 | expanding a replacement raises exactly when its backslash scan meets `\k<`, and then there is an error message |
| Substitution.GsubRaisesWithMessage | detritus.rb:124-128 | whenever `gsub` raises, the replacement yields a non-empty error message for the rescue |
| Substitution.GroupReferenceRaises | detritus.rb:124 | expanding `\k<y>` raises with the message `undefined group name reference: y` |
| Substitution.GsubAgreesWithoutBackslash | detritus.rb:193 | when the replacement has no backslash, Ruby's `gsub` (with its backslash expansion) equals literal replace-all on every text and pattern |
| Prompts.FindPromptFile | detritus.rb:180-186 | the local file is chosen whenever it exists; the global file is chosen exactly when only it exists; nothing is found exactly when neither exists |
| Prompts.BuildPrompt | detritus.rb:188-194 | nil exactly when neither the local nor the global prompt file exists |
| Prompts.LocalShadowsGlobal | detritus.rb:180-186 | when both files exist the rendered text comes from the local one |
| Prompts.BuildPromptWithoutPlaceholder | detritus.rb:188-194 | a template without `{{ARGS}}` is returned unchanged whatever the arguments |
| Prompts.BuildPromptFillsEveryPlaceholder | detritus.rb:188-194 | a template made of pieces separated by `{{ARGS}}` renders as the same pieces separated by the arguments |
| Prompts.BuildPromptFillsAnyTemplate | detritus.rb:188-194 | any template is pieces joined by `{{ARGS}}` and renders as the same pieces joined by the arguments: every placeholder is filled and nothing else changes |
| Prompts.FillTwoPlaceholders | test/prompt_building_test.rb:14-19 | a template with two `{{ARGS}}` between brace-free texts has both replaced by the arguments |
| Prompts.OnePlaceholderExample | test/prompt_building_test.rb:6-11 | the template `Description line\nHello {{ARGS}}, welcome!` renders with the arguments in place of the placeholder, for any arguments |
| Prompts.RenderingAgreesWithoutBackslash | detritus.rb:188-194 | for arguments without a backslash, rendering as written (with `gsub`) gives nil or the same text as the literal rendering |
| Prompts.ArgsGroupReferenceAsWritten | detritus.rb:193 | as written, arguments `\k<y>` into the template `{{ARGS}}` make `gsub` raise, where the literal rendering gives `\k<y>` |
| Prompts.ArgsBackslashZeroAsWritten | detritus.rb:193 | as written, arguments `a\0b` into the template `{{ARGS}}` render as `a{{ARGS}}b`, while the literal replacement renders `a\0b` |
| EditTool.EditFile | detritus.rb:122-129 | the edit as evidently intended (new text inserted literally): a missing file yields the `rb_sysopen` error reply and no change; otherwise the reply is `[✓ Edited path]`, no file is created or removed, and every other file keeps its content |
| EditTool.EditFileAsWritten | detritus.rb:122-129 | the edit as written: a missing file yields the `rb_sysopen` error reply and no change; no file is created or removed; other files keep their content; whenever the reply is not `[✓ Edited path]` no file changes |
| EditTool.EditFailureHasMessage | detritus.rb:124-128 | as written, an existing file is either reported edited, or left unchanged with the reply `[✗ Error: message]` for the non-empty message `gsub` raised |
| EditTool.EditAsWrittenAgreesWithoutBackslash | detritus.rb:124 | when the new text has no backslash, the edit as written is exactly the literal edit |
| EditTool.SameTextKeepsContentAsWritten | detritus.rb:124 | as written, replacing a non-empty backslash-free text by itself changes no file |
| EditTool.GroupReferenceAsWritten | detritus.rb:124-128 | as written, new text `\k<y>` makes the edit reply `[✗ Error: undefined group name reference: y]` and write nothing, where the literal edit writes `\k<y>` |
| EditTool.CreateIsIgnored | detritus.rb:120-124 | the `create` flag makes no difference, and a missing file is never created |
| EditTool.EditWithoutMatchKeepsContent | detritus.rb:124-125 | when the old text does not occur the files are unchanged, yet the tool still reports an edit |
| EditTool.EditSameTextKeepsContent | detritus.rb:124 | replacing a non-empty text by itself changes no file |
| EditTool.EmptyOldInsertsEverywhere | detritus.rb:124 | an empty old text inserts the new text before every character of the file and at its end: block k of the new content is the new text followed by character k |
| EditTool.DoubleBackslashAsWritten | detritus.rb:124 | as written, new text `a\\b` is written as `a\b`, while the literal replacement writes `a\\b` |
| Commands.WordEnd | detritus.rb:204 | greedy `\w*`: every character up to the result is a word character and the one at the result is not |
| Commands.SpaceEnd | detritus.rb:204 | greedy `\s*`: every character up to the result is whitespace and the one at the result is not |
| Commands.LineEnd | detritus.rb:204 | greedy `.*`: no newline up to the result, and the result is the end or a newline |
| Commands.Search | detritus.rb:204 | whatever a pattern captures is well formed: `(\w+)` a non-empty word, `(.*)` text without newlines, `(.+)` non-empty text |
| Commands.SearchNone | detritus.rb:204 | a pattern finds nothing exactly when it matches at no line start |
| Commands.SearchLeftmost | detritus.rb:204 | the match found is the one at the leftmost matching line start |
| Commands.Classify | detritus.rb:196-231 | exit exactly for `/exit`/`/quit`; reset exactly for `/new`/`/clear`; captured names, ids and models are words; captured arguments hold no newline; a shell command is non-empty; a plain line is passed on unchanged |
| Commands.AskIffNoCommand | detritus.rb:223-230 | a line is sent to the model as it is exactly when none of its lines starts with `!` and something more, or with `/` and a word character |
| Commands.StatusAndBareResume | detritus.rb:210-215 | `/status` is the status command and a bare `/resume` lists chats; neither is treated as a prompt name |
| Commands.BangLine | detritus.rb:216-218 | `!<cmd>` on one line is a shell escape of exactly `<cmd>` |
| Commands.ModelLine | detritus.rb:219-220 | `/model <word><rest>` selects only the word: `/model ollama/llama2` selects `ollama` |
| Commands.ResumeLine | detritus.rb:210-211 | `/resume <id>` resumes exactly that id |
| Commands.LoadLine | detritus.rb:204-205 | `/load <name>` loads that prompt with empty arguments |
| Persistence.Store | detritus.rb:88-97 | saving writes the file of the record's id and no other |
| Persistence.StoredMessages | detritus.rb:99-103 | a chat loads exactly when its file exists and holds a dumped record |
| Persistence.StoreThenLoad | detritus.rb:88-111 | loading what was just saved gives back the saved messages; other ids load as before |
| Persistence.StoreOverwrites | detritus.rb:96 | a later save under the same id replaces the earlier one entirely |
| Configuration.PersistFlag | detritus.rb:247 | chats persist exactly when `DETRITUS_NO_PERSIST` is unset, the opposite of the code as written |
| Session.NewChat | detritus.rb:37-45 | a new chat is on the current model and provider and holds at most one system message |
| Session.EndMessagesEffect | detritus.rb:40-43 | after a run of replies the transcript has them appended in order, the counters have counted each once, and the store holds the final transcript when the chat persists and a reply came |
| Session.ConverseEffect | detritus.rb:224-230 | a turn appends the user message then the replies, counts only the replies, and saves the final transcript when the chat persists |
| Session.TurnCountsEveryReply | detritus.rb:47-55 | over a turn each counter grows by the summed usage of the replies and `messages` by their number; the user message is not counted |
| Session.ExitChangesNothing | detritus.rb:198-199 | `/exit` and `/quit` end the process with the state unchanged |
| Session.NewResets | detritus.rb:200-203 | `/new` and `/clear` zero every counter and install a chat holding only the instructions; nothing else changes |
| Session.ShellEscapeAppendsOne | detritus.rb:216-218 | `!<cmd>` appends exactly one user message `<cmd>\n\n<output>` and changes nothing else |
| Session.ModelSwitchKeepsProviderAndTranscript | detritus.rb:219-222 | `/model <word>` sets the state's and the chat's model to the word; the provider, the transcript, the counters and the store are unchanged |
| Session.ResumeMissingKeepsChat | detritus.rb:210-211 | `/resume <id>` with no loadable file leaves the state as it was |
| Session.SaveThenResume | detritus.rb:99-111 | resuming the id just saved gives a chat with the same messages (no extra system message) that does not persist; the current chat id and counters are unchanged |
| Session.SelfLoadExhaustsStack | detritus.rb:204-209 | a prompt that renders to `/load` of itself recurses until the stack runs out, changing nothing |
| Session.UnknownPromptChangesNothing | detritus.rb:223-224 | `/load` or `/<name>` whose prompt file exists nowhere changes nothing |
| Session.PlainLineIsAsked | detritus.rb:225-230 | a line without a command character at any line start is a model turn on exactly that line |
| Session.ConverseKeepsSingleSystem | detritus.rb:224-230 | a turn keeps at most one system message in the chat and in every stored record |
| Session.DispatchKeepsSingleSystem | detritus.rb:196-232 | handling any line keeps at most one system message in the live chat and in every stored record |
| Session.NoPersistNeverWrites | detritus.rb:40-43 | with persistence off, no line writes the store, and persistence stays off |
| Session.Configured | detritus.rb:235-252 | start-up leaves zeroed counters and a chat seeded with the instructions, persisting as the switch says |
| Session.NoPersistStillSavesAsWritten | detritus.rb:247 | as written, with `DETRITUS_NO_PERSIST` set the first answered line is saved to the store |
| Session.NoPersistSetNeverWrites | detritus.rb:247 | with the switch read as intended, setting `DETRITUS_NO_PERSIST` leaves the store untouched by any line |
| Engine.Chat.constructor | detritus.rb:37-39 | a new chat holds exactly the seed messages of its instructions |
| Engine.Chat.AddMessage | detritus.rb:105 | appends one message; earlier messages are kept in order |
| Engine.Chat.WithModel | detritus.rb:221 | sets the chat's model and provider; the transcript is kept |
| Engine.State.Configure | detritus.rb:235-252 | the configured state is `Session.Configured` with the persistence switch read as intended |
| Engine.State.TrackMetrics | detritus.rb:47-55 | the counters become `Metrics.Track` of the old counters |
| Engine.State.ResetSession | detritus.rb:84-86 | every counter is zero |
| Engine.State.CreateChat | detritus.rb:37-45 | a fresh chat equal to `Session.NewChat` of the current state |
| Engine.State.SaveChat | detritus.rb:88-97 | the state becomes `Session.Save` of the old state |
| Engine.State.LoadChat | detritus.rb:99-111 | nil exactly when the file is missing or does not load; otherwise a fresh non-persisting chat on the current model and provider holding the stored messages in order |
| Engine.State.EndMessage | detritus.rb:40-43 | the state becomes `Session.EndMessage` of the old state |
| Engine.State.AskChat | detritus.rb:224-230 | the state becomes `Session.Converse` of the old state |
| Engine.State.HandlePrompt | detritus.rb:196-232 | the new state and outcome are `Session.Dispatch` of the old state and the line |

## Left out

- The conversation service is left out: requests, streaming chunks, thinking text and tool execution during a turn. The replies of a turn are a parameter. A tool that edits a prompt file or the chat store during a turn is not reflected in that turn.
- Floating-point rounding of the cost is left out. Cost is an exact real.
- `session_status` and the rest of the console output are left out: `puts`, `print` and the listing printed by a bare `/resume`. The listing is returned as the set of stored ids.
- The shell is left out. `!<cmd>` takes the command's output as a parameter. The `Bash` tool, its output truncation and the `WebSearch` and `Self` tools are not modelled. `Self` runs arbitrary Ruby.
- Marshal's byte format is left out. A chat file either loads as the dumped record or does not. Read errors other than a missing or garbled file are not modelled.
- `File.expand_path` normalisation of prompt and chat paths is left out. Prompt files are keyed by name and directory.
- Loading scripts at start-up and `available_scripts` are left out.
- The Readline loop, the history file and `Interrupt` handling are left out. `hotload_sketch.rb` is not part of this model.
- The chat library's validation of a model name in `with_model` is left out. Reading API keys and the Ollama URL in `configure` is left out.
- The first definition of `find_prompt_file` (detritus.rb:176-178) is left out. The second definition replaces it before any call.
- `Engine.State.HandlePrompt`: the stack bound is a `depth` argument rather than Ruby's stack size. Its exhaustion is an outcome rather than an uncaught exception.
- `Engine.State.LoadChat`: the loaded chat is on the current model and provider. The code ignores the model and provider stored in the record, and the model follows the code. The loaded chat does not persist, and `current_chat_id` is not changed, as in the code.
- `Engine.Chat.AddMessage`: appending does not enforce the single-system-message invariant. The invariant is proved for dispatch as a whole, given stored records that keep it and replies that are not system messages (`Session.EnvironmentOk`).
- `EditTool.EditFile`: models the evidently intended literal replacement, not the code as written. At detritus.rb:124 `gsub` expands backslash sequences in the new text, and `\k<…>` raises; the rescue at detritus.rb:126-128 then replies with the error message and writes nothing. That behaviour is `EditTool.EditFileAsWritten`, which equals `EditFile` whenever the new text has no backslash (`EditTool.EditAsWrittenAgreesWithoutBackslash`).
- `EditTool.EditFile`: the tests in test/tools/edit_file_test.rb expect an `"ok"` reply, a hash error for an unmatched old text and file creation with `create`. The code does none of these, and the model follows the code.
- `EditTool.EditSameTextKeepsContent`: holds for the literal replacement. As written it holds only for a backslash-free text (`EditTool.SameTextKeepsContentAsWritten`); a text such as `a\\b` is rewritten to `a\b`.
- `Session.Dispatch`: `/load` and `/<name>` render prompts with the literal replacement (`Prompts.BuildPrompt`), not with `gsub` as detritus.rb:193 does. Arguments holding a backslash may render differently as written (`Prompts.ArgsBackslashZeroAsWritten`); arguments holding `\k<…>` make `gsub` raise, and as nothing at detritus.rb:264-272 rescues it the process ends (`Prompts.ArgsGroupReferenceAsWritten`). That crash is not an outcome of the model. Without a backslash in the arguments both renderings agree (`Prompts.RenderingAgreesWithoutBackslash`).
- `Engine.State.HandlePrompt`: equals `Session.Dispatch`, so it uses the literal rendering and does not end the process on `\k<…>` arguments, as described for `Session.Dispatch`.
- `Engine.State.Configure`: reads the persistence switch as intended (`Configuration.PersistFlag`: persist unless `DETRITUS_NO_PERSIST` is set), the opposite of detritus.rb:247. The state as written is `Session.Configured` with `Configuration.PersistFlagAsWritten`, shown by `Session.NoPersistStillSavesAsWritten`.

## Findings

| source | as written | input that shows it | evidently intended | confidence | as-written member | corrected member |
|---|---|---|---|---|---|---|
| detritus.rb:247 | `!!ENV["DETRITUS_NO_PERSIST"]` makes chats persist exactly when the variable is set | start with `DETRITUS_NO_PERSIST=1` and send `hi`; the reply is saved | chats persist unless `DETRITUS_NO_PERSIST` is set | high; not executed | `Session.NoPersistStillSavesAsWritten` | `Session.NoPersistSetNeverWrites` |
| detritus.rb:193 | `gsub("{{ARGS}}", args)` expands backslash sequences in the arguments | `/load p a\0b` with prompt `p` = `{{ARGS}}` renders `a{{ARGS}}b` | the arguments are inserted literally | high; not executed | `Prompts.ArgsBackslashZeroAsWritten` | `Prompts.BuildPromptFillsEveryPlaceholder` |
| detritus.rb:193 | `gsub("{{ARGS}}", args)` raises on `\k<…>` in the arguments, and nothing rescues it, so the process ends | `/load p \k<y>` with prompt `p` = `{{ARGS}}` raises `undefined group name reference: y` | the arguments are inserted literally | high; not executed | `Prompts.ArgsGroupReferenceAsWritten` | `Prompts.BuildPrompt` |
| detritus.rb:124 | `gsub(old, new)` expands backslash sequences in the new text | editing `old` to `a\\b` writes `a\b` | the new text is written literally | high; not executed | `EditTool.DoubleBackslashAsWritten` | `Substitution.ReplaceAllReplacesEvery` |
| detritus.rb:124 | `gsub(old, new)` raises on `\k<…>` in the new text; the rescue replies with the error and writes nothing | editing `old` to `\k<y>` replies `[✗ Error: undefined group name reference: y]` | the new text is written literally | high; not executed | `EditTool.GroupReferenceAsWritten` | `EditTool.EditFile` |
