# TheOnline: LLM-driven NPCs, pronoun substitution, containers and doors

A Dafny model of the game rules at the centre of this Evennia MUD:

- **The LLM-driven NPC** (`LLMCharacter`, module `LlmCharacter`). It is a class
  whose fields are the persona prompt, the bounded chat history, the
  last-response stamp, the cooldown, the autonomy level, the growth flag and the
  tick interval. Two fields record what the NPC does:
  - `requests` holds every `llm.get_response` call;
  - `executed` holds every `execute_cmd` call.

  The model covers:
  - the admission gate of `msg`;
  - `respond_to`;
  - the bounded FIFO history;
  - the system prompt;
  - the tick gate and ambient prompt;
  - the reply interpreter: the `UPDATE_PROMPT:` split, the `WAIT` sentinel, and one classified command per non-blank line.

  The interpreter is specified by the functions `Interpret`, `Actions` and `Classify`. The methods are proved against those functions, and the lemmas prove what they guarantee.
- **The backend boundary** (module `Llm`). It covers:
  - the message list `get_response` composes (`Compose`);
  - `LLMClient`, which prepends the system message and turns a missing client, an exception or missing content into `None`;
  - the lazily created module-wide client.
- **Gendered pronoun substitution** (module `GenderSub`). It covers:
  - the pronoun table;
  - the `(?<!\|)\|(?!\|)[sSoOpPaA]` substitution, written as a left-to-right scan `Sub` whose replacement is a callback, as in `re.sub`;
  - `GenderCharacter.msg`;
  - the `@gender` command.
- **Containers and doors** (modules `Objects` and `ContainerCommands`). It covers:
  - the ordered guard checks of `put` and `get` before an object moves;
  - `open` and `close`, which flip the paired flags;
  - a `Door` that mirrors its flags, locks and description onto its return exit.
- **The Orb of Awakening** (module `Artifacts`): the transitions it makes on the NPC state when picked up or dropped.

Python's string operations (`strip`, `lstrip`, `lower`, `upper`, `capitalize`, `startswith`, `in`, `split(sep, 1)`, `split(d)`, `join`) are module `Text`, stated over `seq<char>`.

Several things are parameters:
- **The clock** is the `now` parameter.
- **The OpenAI reply** is a `Reply` value, and the text it produced is the argument of `HandleLlmResponse`.
- **Evennia lookup** (`search`), the `get` access lock and the `at_before_get` hook are function values.

## Model

| member | source | states |
|---|---|---|
| Text.LStrip | commands/containercommands.py:27 | `lstrip` never leaves leading whitespace and never lengthens the text |
| Text.LStripSuffix | commands/containercommands.py:27 | `lstrip` leaves a suffix of the text, and everything it drops is whitespace |
| Text.RStrip | typeclasses/llm_character.py:105 | `rstrip` never leaves trailing whitespace and never lengthens the text |
| Text.RStripPrefix | typeclasses/llm_character.py:105 | `rstrip` leaves a prefix of the text, and everything it drops is whitespace |
| Text.Strip | typeclasses/llm_character.py:105 | `strip` leaves no whitespace at either end and fits inside the text after the leading whitespace |
| Text.StripSlice | typeclasses/llm_character.py:105 | `strip` yields the contiguous slice of the text between its leading and trailing whitespace |
| Text.StripRemovesOnlySpace | typeclasses/llm_character.py:105 | every character `strip` removes is whitespace |
| Text.StripBlank | typeclasses/llm_character.py:105-107 | `strip` yields the empty text exactly when the line is all whitespace (both directions) |
| Text.StripIdempotent | typeclasses/llm_character.py:81-91 | stripping an already stripped text changes nothing |
| Text.FindFrom | typeclasses/llm_character.py:79 | the search finds an occurrence at or after the start, none before it, and reports none only when there is no occurrence at all |
| Text.SplitOnce | commands/containercommands.py:29 | `split(sep, 1)` unpacking fails exactly when `sep` is absent; otherwise head + sep + tail is the text |
| Text.SplitOnceAtFirst | typeclasses/llm_character.py:80 | the cut is at the first occurrence: `sep` starts nowhere inside the head |
| Text.HeadLacksSeparator | typeclasses/llm_character.py:80-81 | the head before the first separator holds no separator |
| Text.SplitOnceAt | world/gendersub.py:35 | `head + sep + tail` splits into exactly `head` and `tail` when no `sep` starts inside `head` |
| Text.OccursNotInHead | world/gendersub.py:35 | no occurrence of `sep` in `head + sep + tail` starts inside `head` under the same condition |
| Text.IndexOf | typeclasses/llm_character.py:103 | the index found holds the separator and no earlier index does |
| Text.Split | typeclasses/llm_character.py:103 | `split(d)` yields at least one part and no part holds `d` |
| Text.JoinSplit | typeclasses/llm_character.py:103 | joining the parts of `split(d)` with `d` gives back the text: no line is lost or reordered |
| Text.SplitAfter | typeclasses/llm_character.py:103 | splitting `a + d + b` where `a` holds no `d` gives `a` followed by the parts of `b` |
| Text.SplitJoin | typeclasses/llm_character.py:103 | splitting the join of separator-free parts gives back the parts |
| Llm.Compose | world/llm.py:54-79 | the messages sent are the history unchanged followed by at most one user entry with the prompt, which is added exactly when the prompt is non-empty and differs from the last entry's content; a non-empty prompt is always the last content |
| Llm.LLMClient.constructor | world/llm.py:7-18 | the key and model (default gpt-4o-mini) are read from the settings; a client exists exactly when the key is set and non-empty and building it did not raise |
| Llm.LLMClient.GetResponseSync | world/llm.py:20-39 | without a client nothing is sent and the result is `None`; otherwise one request goes out with the system message followed by the messages in order, model and 150 max tokens, and the result is the stripped content, or `None` when the call raised or returned no content |
| Llm.CopyHistory | world/llm.py:54-79 | the list built by copying the history and appending the prompt is the one `Compose` specifies |
| Llm.LlmModule.constructor | world/llm.py:42 | the module starts with no client |
| Llm.LlmModule.GetResponse | world/llm.py:44-81 | the client is built on first use only and reused afterwards; the request carries the system message followed by `Compose(prompt, history)`; the result follows the client's |
| LlmCharacter.SystemPrompt | typeclasses/llm_character.py:65-72 | with growth off the persona is returned unchanged; with growth on the prompt is the persona followed by exactly the Awakened clause, and it names the `UPDATE_PROMPT:` marker |
| LlmCharacter.AwakenedPromptNamesMarker | typeclasses/llm_character.py:67-71 | the Awakened prompt is the persona followed by the Awakened clause, and it contains the marker |
| LlmCharacter.HistoryLimit | typeclasses/llm_character.py:186 | the bound is `memory_size`, or 10 when that is 0; it is never below 1 |
| LlmCharacter.AppendBounded | typeclasses/llm_character.py:179-188 | after an append the new entry is last and at most `limit` entries remain; nothing is evicted while the bound is not exceeded |
| LlmCharacter.AppendKeepsRecent | typeclasses/llm_character.py:183-188 | the entries kept before the new one are the most recent ones of the old history, in their original order |
| LlmCharacter.WindowAppend | typeclasses/llm_character.py:187-188 | trimming before one more append gives the same window as trimming after it |
| LlmCharacter.WindowAppendAll | typeclasses/llm_character.py:187-188 | trimming before further appends gives the same window as trimming after them |
| LlmCharacter.AppendsKeepMostRecent | typeclasses/llm_character.py:179-188 | any run of appends keeps exactly the most recent `limit` entries of everything ever appended, in order, and never exceeds the bound |
| LlmCharacter.Classify | typeclasses/llm_character.py:114-126 | a line is either sent as it is or wrapped as `"say " + line`; at `"high"` autonomy it is always sent as it is |
| LlmCharacter.LineActions | typeclasses/llm_character.py:104-126 | one line issues at most one command, and none exactly when it is blank once stripped |
| LlmCharacter.Actions | typeclasses/llm_character.py:103-126 | a reply never issues more commands than it has lines |
| LlmCharacter.ClassifyWrapsOrPasses | typeclasses/llm_character.py:114-126 | a line is emitted as it is exactly when it starts with `say `/`emote ` (any case) or `:`, or the autonomy is `"high"`; otherwise it is emitted as `"say " + line` |
| LlmCharacter.ActionsUpToAll | typeclasses/llm_character.py:103-126 | the commands for the first `n` lines counted by index are the commands of that prefix of the reply |
| LlmCharacter.ActionsUpToWhole | typeclasses/llm_character.py:103-126 | the commands counted over every line are the commands of the whole reply |
| LlmCharacter.NonBlank | typeclasses/llm_character.py:104-107 | the stripped non-blank lines are never empty and never outnumber the lines |
| LlmCharacter.ActionsPerLine | typeclasses/llm_character.py:103-126 | exactly one command per non-blank stripped line, in line order, each the classification of that line alone |
| LlmCharacter.SayIsDirective | typeclasses/llm_character.py:114-126 | a line wrapped as `"say " + line` is itself a speech directive |
| LlmCharacter.LowAutonomyOnlySpeaks | typeclasses/llm_character.py:114-126 | below `"high"` autonomy every command issued for a reply is a `say`, `emote` or `:` directive |
| LlmCharacter.Interpret | typeclasses/llm_character.py:74-97 | an empty reply does nothing; commands are issued only when an entry is recorded; a recorded entry is never empty and never reads `WAIT`; a new persona is never empty |
| LlmCharacter.WaitDoesNothing | typeclasses/llm_character.py:91-92 | a reply reading `WAIT` in any case, blanks aside, changes no persona, records nothing and issues nothing |
| LlmCharacter.MarkerSplitsReply | typeclasses/llm_character.py:78-97 | with the marker, the persona becomes the stripped text after its first occurrence exactly when that text is non-blank, whatever the growth flag; the entry recorded is the stripped text before it; a blank head records and issues nothing; a non-blank head that does not read `WAIT` is recorded and acted on line by line |
| LlmCharacter.NoMarkerRecordedWhole | typeclasses/llm_character.py:74-97 | a non-empty reply without the marker that does not read `WAIT` keeps the persona, is recorded whole and is acted on line by line |
| LlmCharacter.VisibleHasNoMarker | typeclasses/llm_character.py:79-89 | the text left to act on never contains the marker |
| LlmCharacter.EntryHasNoMarker | typeclasses/llm_character.py:78-95 | the assistant entry recorded never contains the persona directive |
| LlmCharacter.LowAutonomyReplyOnlySpeaks | typeclasses/llm_character.py:74-126 | below `"high"` autonomy no reply makes the NPC issue anything but speech or emotes |
| LlmCharacter.CommandsFollowEntry | typeclasses/llm_character.py:94-97 | commands are issued only for a reply that is also recorded, then one per non-blank line of it |
| LlmCharacter.AmbientPrompt | typeclasses/llm_character.py:49-59 | the ambient prompt opens with "You are in <room key>. " |
| LlmCharacter.RecordedLineSentOnce | typeclasses/llm_character.py:161-166 | once the user line is recorded, `get_response` sends the history as it is and does not repeat the line |
| LlmCharacter.LLMCharacter.constructor | typeclasses/llm_character.py:12-25 | the default persona, LLM enabled, cooldown 5, empty history, memory 10, interval 0, `"low"` autonomy, no growth, and no ticker |
| LlmCharacter.LLMCharacter.Cooldown | typeclasses/llm_character.py:144 | the cooldown is `llm_cooldown`, or 5 when that is 0; it is never below 1 |
| LlmCharacter.LLMCharacter.StartTicker | typeclasses/llm_character.py:27-29 | a ticker is registered at the interval exactly when the interval is positive |
| LlmCharacter.LLMCharacter.AppendToHistory | typeclasses/llm_character.py:179-188 | the history becomes `AppendBounded` of the old one and stays within the bound |
| LlmCharacter.LLMCharacter.RespondTo | typeclasses/llm_character.py:154-169 | empty text changes nothing; otherwise the time is stamped, exactly one user entry "<speaker> says: <text>" is recorded, and exactly one request goes out whose messages are the new history |
| LlmCharacter.LLMCharacter.Admits | typeclasses/llm_character.py:135-151 | the gate never lets a message through within a second of the last stamp; with a cooldown of 0 it refuses within 5 seconds; it refuses the NPC itself, LLM-enabled senders and senders in a different room (rooms compared by identity) |
| LlmCharacter.LLMCharacter.Msg | typeclasses/llm_character.py:129-152 | a message from no one, itself, an LLM-enabled sender, a sender not in the same room (compared by identity, not by key), or within the cooldown (0 reads as 5), or one to a disabled NPC, changes nothing; any other message is answered as `respond_to` says; a request is only issued a full cooldown after the last stamp |
| LlmCharacter.LLMCharacter.TickFires | typeclasses/llm_character.py:37-45 | a tick fires only when the NPC has a location; with interval 0 it fires whenever the LLM is on, the NPC is somewhere and the clock has not gone back past the last stamp |
| LlmCharacter.LLMCharacter.AtTick | typeclasses/llm_character.py:34-63 | a tick issues one request with the ambient prompt for the autonomy level exactly when the LLM is on, there is a location and the interval has elapsed; it never stamps the time or touches the history |
| LlmCharacter.LLMCharacter.ExecuteLlmResponse | typeclasses/llm_character.py:99-126 | the commands executed are `Actions` of the reply's lines, appended in order |
| LlmCharacter.LLMCharacter.ExecuteLines | typeclasses/llm_character.py:104-126 | the loop over the lines executes, in order, the command of each non-blank line |
| LlmCharacter.LLMCharacter.ExecuteLine | typeclasses/llm_character.py:105-126 | a blank line executes nothing; any other line executes its classified command |
| LlmCharacter.LLMCharacter.HandleLlmAction | typeclasses/llm_character.py:74-97 | the persona, history and executed commands change exactly as `Interpret` says: the persona update, then one assistant entry, then the commands |
| LlmCharacter.LLMCharacter.Record | typeclasses/llm_character.py:94-97 | the reply is appended to the history as an assistant entry before its commands are executed |
| LlmCharacter.LLMCharacter.HandleLlmResponse | typeclasses/llm_character.py:171-174 | a `None` result changes nothing; a reply is handled as `_handle_llm_action` says |
| GenderSub.NormalGender | world/gendersub.py:75-76 | male, female and neutral are kept; any other or unset gender reads as ambiguous; the result is always a table gender |
| GenderSub.TableWords | world/gendersub.py:10-15 | every gender of the table has all four forms, each a non-empty lower-case word |
| GenderSub.Pronoun | world/gendersub.py:73-78 | a lower-case marker letter gives the table's form for the character's normalised gender unchanged |
| GenderSub.CapitalizeWord | world/gendersub.py:78 | capitalising a table word changes only its first letter, to upper case |
| GenderSub.PronounIsWord | world/gendersub.py:73-78 | every pronoun is non-empty and holds no bar character |
| GenderSub.AmbiguousFallback | world/gendersub.py:75-77 | an unset or unrecognised gender gives they / them / their / theirs |
| GenderSub.UpperMarkerCapitalises | world/gendersub.py:77-78 | an upper-case marker gives the lower-case marker's pronoun with its first letter capitalised |
| GenderSub.PronounsBarFree | world/gendersub.py:10-15 | no pronoun of any gender holds a bar character |
| GenderSub.Sub | world/gendersub.py:16 | text shorter than a marker is returned unchanged, and a first character that is not a bar is kept in front |
| GenderSub.Substitute | world/gendersub.py:87-89 | a message without any bar character is returned unchanged |
| GenderSub.NoMarkerUnchanged | world/gendersub.py:16 | text in which no marker occurs is returned unchanged |
| GenderSub.NoBarUnchanged | world/gendersub.py:89 | text without any bar character is returned unchanged |
| GenderSub.SubConcat | world/gendersub.py:16 | substitution is local: text not ending in a bar is rewritten on its own, and what follows is rewritten as if it stood at the start |
| GenderSub.SubConcatMarker | world/gendersub.py:16 | the same locality when the text opens with a marker |
| GenderSub.SubConcatKept | world/gendersub.py:16 | the same locality when the text opens with a kept character |
| GenderSub.BarFreePrefix | world/gendersub.py:89 | bar-free text in front is kept, and what follows is rewritten on its own |
| GenderSub.MarkerSub | world/gendersub.py:16 | a marker at the start is replaced by the callback's text for its letter, and the rest is rewritten on its own |
| GenderSub.MarkerReplaced | world/gendersub.py:73-89 | a marker is replaced by the pronoun for the character's gender, and the rest is rewritten on its own |
| GenderSub.EscapedSub | world/gendersub.py:16 | a doubled bar followed by a marker letter is not a marker and is kept as it is |
| GenderSub.EscapedMarkerKept | world/gendersub.py:16 | an escaped marker in a message is kept, and the rest is rewritten on its own |
| GenderSub.SubIdempotent | world/gendersub.py:16 | when no replacement holds a bar, rewriting a second time changes nothing |
| GenderSub.SubstituteIdempotent | world/gendersub.py:89 | rewriting a message a second time for the same gender changes nothing |
| GenderSub.Rewrite | world/gendersub.py:85-91 | a plain text is rewritten; for a tuple only the first element is rewritten and the rest are kept; an empty tuple passes unchanged |
| GenderSub.GenderCharacter.constructor | world/gendersub.py:69-71 | a new character's gender is ambiguous |
| GenderSub.GenderCharacter.Msg | world/gendersub.py:80-94 | no text passes on without substitution; any other text passes on rewritten for the character's gender |
| GenderSub.ParseGenderArgs | world/gendersub.py:33-38 | without a space the whole left-stripped, lower-cased argument is the gender; otherwise target, one space and gender rebuild it, and the target holds no space (the cut is at the first space) |
| GenderSub.ParseTargetGender | world/gendersub.py:33-38 | `<target> <gender>` in any letter case parses into the lower-cased target and gender |
| GenderSub.SetGender | world/gendersub.py:31-58 | a gender outside the four names is refused with nothing changed; without a target the caller's gender is set; otherwise an unknown target or a non-character is refused with nothing changed, and a character gets the gender |
| Objects.Obj.Door | typeclasses/exits.py:43-47 | a new door has no return exit, is open and not closed, and answers to its own name |
| Objects.Obj.DisplayName | typeclasses/exits.py:49-55 | "closed <name>" while closed, which wins; otherwise "open <name>" while open; otherwise nothing |
| Objects.Obj.FailedTraverseMessage | typeclasses/exits.py:71-72 | the traveller is told "The <key> is closed!" behind the yellow colour code |
| Objects.Obj.SetLock | typeclasses/exits.py:57-59 | the lock goes on the door and on its return exit, so both hold the same lock; without a return exit the call raises after the door's own update |
| Objects.Obj.SetDesc | typeclasses/exits.py:61-63 | the door and its return exit get the same description; without a return exit the call raises after the door's own update |
| Artifacts.OrbOfAwakening.constructor | typeclasses/artifacts.py:7-10 | the Orb's key and description |
| Artifacts.OrbOfAwakening.AtGet | typeclasses/artifacts.py:12-26 | an LLM-enabled getter gets `"high"` autonomy and growth, and an interval of 60 with a ticker when its interval was 0 (otherwise the interval is kept); its prompt then names the marker; any other getter keeps every attribute |
| Artifacts.OrbOfAwakening.AtDrop | typeclasses/artifacts.py:28-33 | an LLM-enabled dropper gets `"low"` autonomy and no growth, so its prompt is its persona again, and its interval is untouched; any other dropper keeps every attribute |
| ContainerCommands.PutVerdict | commands/containercommands.py:22-57 | the first failing check is the answer, in the source's order: no arguments exactly when empty; a usage error exactly when " in " is absent; then an unknown container, then an unknown object, then not a container, then closed, then not carried, then equipped, each exactly when every earlier check passed; the move happens exactly when all checks pass |
| ContainerCommands.Put | commands/containercommands.py:22-60 | the outcome is the verdict; on a move the object lies in the container; no other object moves |
| ContainerCommands.GetVerdict | commands/containercommands.py:77-141 | no arguments exactly when empty; otherwise the left-stripped argument goes to the plain checks without " from " and to the container checks, cut at its first " from ", with it. A move is always to the caller, with the facts of the branch taken. A refusal always carries a message |
| ContainerCommands.GetPlainVerdict | commands/containercommands.py:88-113 | the first failing check is the answer, in order: unknown object, the caller itself, the `get` lock, `at_before_get`, already carried, each exactly when every earlier check passed; a refused lock shows the object's own error message when set and "You can't pick that up." otherwise; the move happens exactly when all checks pass |
| ContainerCommands.GetFromVerdict | commands/containercommands.py:114-141 | the first failing check is the answer, in order: unknown container, unknown object (looked up in the container before around the caller), closed container, object not inside it, each exactly when every earlier check passed; the move happens exactly when all checks pass; the lock is never consulted |
| ContainerCommands.Get | commands/containercommands.py:77-141 | the outcome is the verdict; on a move the caller carries the object; no other object moves |
| ContainerCommands.GetPlain | commands/containercommands.py:88-113 | the plain branch's outcome is its verdict; on a move the caller carries the object; no other object moves |
| ContainerCommands.GetFrom | commands/containercommands.py:114-141 | the container branch's outcome is its verdict; on a move the caller carries the object; no other object moves |
| ContainerCommands.ParseTarget | commands/containercommands.py:156-169 | `open` (and likewise `close`, lines 206-219) goes on to `func` exactly when the target is found and not already open (closed) |
| ContainerCommands.ParseTargetAsWritten | commands/containercommands.py:156-159 | the parse as written: with an empty argument it goes on to `func` without a target; otherwise it is the intended parse |
| ContainerCommands.EmptyArgumentReachesFunc | commands/containercommands.py:156-159 | for an empty argument the written parse proceeds without a target while the intended one stops |
| ContainerCommands.SetState | commands/containercommands.py:171-191 | anything but a container or door is refused with no flag or lock changed. Otherwise `open` becomes the requested state and `closed` its negation. A door also gets the traverse lock (`true()`/`false()`) on both sides, each lock map otherwise unchanged, and mirrors its flags onto the return exit, and its display name shows the new state. A container's return exit, like every other object, is untouched (the same for `close`, lines 221-241) |

## Left out

- The OpenAI call itself, `run_async`, the Twisted Deferred callbacks and `_handle_llm_error` are not modelled: they are foreign and asynchronous calls. The reply is a `Reply` value or the argument of `HandleLlmResponse`, and a failed call is the `None` result.
- Concurrent in-flight requests are not modelled: each request is answered by a later, separate call.
- `TICKER_HANDLER` and `stop_ticker` are not modelled: a ticker is the interval recorded in `tickers`, and a tick is a call of `AtTick`.
- `time.time()` is not modelled: it is the integer parameter `now`, where the source uses a floating-point value.
- Message delivery (`caller.msg`, `msg_contents`), the wording of the player messages and logging are not modelled. The outcome datatypes name which message a command ends with.
- Evennia's `search`, `access`, `at_before_get`, `inherits_from` and `move_to` are not modelled. They appear as function parameters, as the object's `kind`, and as the `location` field. A lookup returns its first match only.
- The lock handler is not modelled: locks are a map from access type to lock string, so a new lock replaces the old one for that access type.
- `obj.at_get(caller)` after a `get` is not modelled. `Get` does not invoke the hook; the Orb's hook is `Artifacts.OrbOfAwakening.AtGet`, stated on its own.
- `Door.delete` is not modelled: it is framework deletion.
- commands/emotes.py, commands/movecommands.py, world/prototypes.py and server/ensure_superuser.py are not part of this model.
- Case mapping (`lower`, `upper`, `capitalize`) covers ASCII letters only.
- Whitespace for `strip` is the full set of characters Python's `str.isspace` accepts.
- LlmCharacter.TextOf: an empty tuple in `LLMCharacter.msg` reads as no text. The source raises `IndexError` there; either way nothing is recorded or requested.
- GenderSub.Rewrite: a tuple's first element is always a string in the model. The source's swallowed `TypeError` for a non-string is not modelled.
- The persona update does not check `personality_growth`: only the Awakened system prompt (typeclasses/llm_character.py:67-71) tells the backend about the marker, yet `_handle_llm_action` (lines 79-84) replaces the prompt whenever a reply carries it, whatever the growth flag. The model does the same.
- Getters and droppers of the Orb are always `LLMCharacter`s. An object without `db` or `llm_enabled` is an `LLMCharacter` whose `llmEnabled` is false.
- LlmCharacter.LLMCharacter.ExecuteLlmResponse: every line of a reply is classified at the autonomy level the NPC had when the reply arrived. The source re-reads `llm_autonomy_level` for each line (typeclasses/llm_character.py:119), and a command it executes could change the NPC itself (a `get` of the Orb calls its `at_get`, a `drop` its `at_drop`). `execute_cmd` is only recorded in `executed`: what a command does to the world or to the NPC is not modelled.
- Rooms are `Room` values with an identity and a key. Location equality in `msg` compares identities; the ambient prompt uses the key.
- `HandleLlmAction` is specified by the function `Interpret`. The growth flag and the `(Internal: ...)` notice have no effect on state and are not modelled.

## Findings

| source | as written | input that shows it | evidently intended | confidence | as-written member | corrected member |
|---|---|---|---|---|---|---|
| commands/containercommands.py:156-159 (and 206-209) | `parse` prints "What are you trying to open?" and returns without raising `InterruptCommand`, so `func` runs with `self.target` never set | `open` (or `close`) with no argument | stop the command, as the other failure paths of `parse` do | not executed | ContainerCommands.ParseTargetAsWritten, ContainerCommands.EmptyArgumentReachesFunc | ContainerCommands.ParseTarget |
