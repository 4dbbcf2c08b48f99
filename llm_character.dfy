/**
 * The LLM-driven NPC (typeclasses/llm_character.py): who may trigger it, the
 * bounded chat history, the system prompt, the ambient tick, and how a backend
 * reply becomes a persona update, one history entry and a list of in-world
 * commands. The clock is the `now` parameter; the backend reply is the argument
 * of `HandleLlmResponse`; `requests` records each `llm.get_response` call and
 * `executed` each `execute_cmd` call.
 */
module LlmCharacter {
  import opened Opt
  import opened Text
  import opened Messages
  import Llm

  const DefaultPrompt := "You are a generic NPC in a fantasy world. You are helpful and polite."
  const DefaultCooldown: nat := 5
  const DefaultMemorySize: nat := 10
  const High := "high"
  const Low := "low"
  const Wait := "WAIT"

  /** The persona-update directive a reply may carry. */
  const Marker := "UPDATE_PROMPT:"

  /** What `_get_system_prompt` appends when personality growth is on; it names `Marker`. */
  const AwakenedClause := ClauseHead + Marker + ClauseTail
  const ClauseHead := "\n\n[System: You are currently 'Awakened'. You can evolve your personality. If recent events change your outlook, append '"
  const ClauseTail := " <new personality description>' to your response.]"

  // ---------------------------------------------------------------------------
  // System prompt

  /**
   * `_get_system_prompt`: the persona unchanged while growth is off; with growth
   * on, the persona followed by the Awakened clause, which tells the backend about
   * the very `Marker` the response interpreter looks for.
   */
  function SystemPrompt(npcPrompt: string, personalityGrowth: bool): (r: string)
    ensures !personalityGrowth ==> r == npcPrompt
    ensures personalityGrowth ==> StartsWith(r, npcPrompt) && r[|npcPrompt|..] == AwakenedClause
    ensures personalityGrowth ==> Contains(r, Marker)
  {
    if personalityGrowth then
      var r := npcPrompt + AwakenedClause;
      AwakenedPromptNamesMarker(npcPrompt);
      r
    else npcPrompt
  }

  /** The Awakened prompt is the persona followed by the clause, and it names `Marker`. */
  lemma AwakenedPromptNamesMarker(npcPrompt: string)
    ensures StartsWith(npcPrompt + AwakenedClause, npcPrompt)
    ensures (npcPrompt + AwakenedClause)[|npcPrompt|..] == AwakenedClause
    ensures Contains(npcPrompt + AwakenedClause, Marker)
  {
    ConcatParts(npcPrompt, ClauseHead, Marker, ClauseTail);
    OccursFound(npcPrompt + AwakenedClause, Marker, |npcPrompt| + |ClauseHead|);
  }

  /** Where each part of `p + (h + m + t)` lies. */
  lemma ConcatParts<T>(p: seq<T>, h: seq<T>, m: seq<T>, t: seq<T>)
    ensures (p + (h + m + t))[..|p|] == p
    ensures (p + (h + m + t))[|p|..] == h + m + t
    ensures (p + (h + m + t))[|p| + |h|..|p| + |h| + |m|] == m
  {
  }

  // ---------------------------------------------------------------------------
  // Bounded history

  /** `db.memory_size or 10`: the history bound, where 0 means the default. */
  function HistoryLimit(memorySize: nat): (limit: nat)
    ensures limit >= 1
    ensures memorySize != 0 ==> limit == memorySize
  {
    if memorySize == 0 then DefaultMemorySize else memorySize
  }

  /** The `limit` most recent entries of `log`, in their original order (`log[-limit:]`). */
  function Window<T>(log: seq<T>, limit: nat): seq<T> {
    if |log| > limit then log[|log| - limit..] else log
  }

  /**
   * `_append_to_history` on values: the new entry is last, at most `limit` entries
   * remain, and nothing is evicted while the bound is not exceeded (which older
   * entries remain is `AppendKeepsRecent`).
   */
  function AppendBounded(history: seq<Llm.Message>, m: Llm.Message, limit: nat): (r: seq<Llm.Message>)
    requires limit >= 1
    ensures 1 <= |r| <= limit && r[|r| - 1] == m
    ensures |r| == (if |history| < limit then |history| + 1 else limit)
  {
    Window(history + [m], limit)
  }

  /** The entries kept before the new one are the most recent ones of the old history, in order. */
  lemma AppendKeepsRecent(history: seq<Llm.Message>, m: Llm.Message, limit: nat)
    requires limit >= 1
    ensures var r := AppendBounded(history, m, limit);
      r[..|r| - 1] == history[|history| - (|r| - 1)..]
  {
    var log := history + [m];
    var r := AppendBounded(history, m, limit);
    assert r == log[|log| - |r|..];
    assert r[..|r| - 1] == log[|log| - |r|..|log| - 1];
  }

  /** The history after appending each of `ms` in turn. */
  function AppendAll(history: seq<Llm.Message>, ms: seq<Llm.Message>, limit: nat): seq<Llm.Message>
    requires limit >= 1
    decreases |ms|
  {
    if ms == [] then history else AppendAll(AppendBounded(history, ms[0], limit), ms[1..], limit)
  }

  /** Windowing before or after one more append gives the same window. */
  lemma WindowAppend<T>(log: seq<T>, x: T, limit: nat)
    requires limit >= 1
    ensures Window(Window(log, limit) + [x], limit) == Window(log + [x], limit)
  {
    if |log| > limit {
      var w := log[|log| - limit..];
      assert (w + [x])[1..] == (log + [x])[|log| + 1 - limit..];
    }
  }

  /**
   * Any sequence of appends to a history within the bound keeps exactly the most
   * recent `limit` entries of everything ever appended, in order; so the history
   * never exceeds the bound.
   */
  lemma {:induction false} AppendsKeepMostRecent(history: seq<Llm.Message>, ms: seq<Llm.Message>, limit: nat)
    requires limit >= 1 && |history| <= limit
    ensures AppendAll(history, ms, limit) == Window(history + ms, limit)
    ensures |AppendAll(history, ms, limit)| <= limit
    decreases |ms|
  {
    if ms == [] {
      assert history + ms == history;
    } else {
      var log := history + [ms[0]];
      var h1 := AppendBounded(history, ms[0], limit);
      AppendsKeepMostRecent(h1, ms[1..], limit);
      WindowAppendAll(log, ms[1..], limit);
      SplitFirst(history, ms);
    }
  }

  /** Appending a non-empty sequence is appending its first element, then the rest. */
  lemma SplitFirst<T>(h: seq<T>, ms: seq<T>)
    requires ms != []
    ensures h + ms == h + [ms[0]] + ms[1..]
  {
    assert ms == [ms[0]] + ms[1..];
  }

  /** Windowing a log first does not change the window after further entries. */
  lemma {:induction false} WindowAppendAll(log: seq<Llm.Message>, rest: seq<Llm.Message>, limit: nat)
    requires limit >= 1
    ensures Window(Window(log, limit) + rest, limit) == Window(log + rest, limit)
    decreases |rest|
  {
    if rest != [] {
      var last := rest[|rest| - 1];
      var init := rest[..|rest| - 1];
      assert rest == init + [last];
      WindowAppendAll(log, init, limit);
      WindowAppend(Window(log, limit) + init, last, limit);
      WindowAppend(log + init, last, limit);
      assert Window(log, limit) + rest == (Window(log, limit) + init) + [last];
      assert log + rest == (log + init) + [last];
    }
  }

  // ---------------------------------------------------------------------------
  // Line classification

  /** A line that already is a speech or emote directive (`say `, `emote `, `:`). */
  predicate IsDirective(line: string) {
    StartsWith(Lower(line), "say ") || StartsWith(Lower(line), "emote ") || StartsWith(line, ":")
  }

  /**
   * The command issued for one stripped, non-empty reply line: the line itself
   * when it is a directive or the autonomy is `"high"`, otherwise the line wrapped
   * as speech.
   */
  function Classify(line: string, autonomy: string): (r: string)
    ensures r == line || r == "say " + line
    ensures autonomy == High ==> r == line
  {
    if StartsWith(Lower(line), "say ") then line
    else if StartsWith(Lower(line), "emote ") || StartsWith(line, ":") then line
    else if autonomy == High then line
    else "say " + line
  }

  /**
   * A line is sent as it is exactly when it is a directive or the autonomy is
   * `"high"`; otherwise it is wrapped as speech.
   */
  lemma ClassifyWrapsOrPasses(line: string, autonomy: string)
    ensures Classify(line, autonomy) == line || Classify(line, autonomy) == "say " + line
    ensures Classify(line, autonomy) == line <==> IsDirective(line) || autonomy == High
  {
    assert |"say " + line| > |line|;
  }

  /** The command for one reply line: none when it is blank once stripped, else the one `Classify` picks. */
  function LineActions(line: string, autonomy: string): (r: seq<string>)
    ensures |r| <= 1
    ensures r == [] <==> Strip(line) == []
  {
    var stripped := Strip(line);
    if stripped == [] then [] else [Classify(stripped, autonomy)]
  }

  /** The commands for the lines of a reply, in order: one per line not blank once stripped. */
  function Actions(lines: seq<string>, autonomy: string): (r: seq<string>)
    ensures |r| <= |lines|
    decreases |lines|
  {
    if lines == [] then []
    else Actions(lines[..|lines| - 1], autonomy) + LineActions(lines[|lines| - 1], autonomy)
  }

  /** The commands for the first `n` lines of a reply. */
  function ActionsUpTo(lines: seq<string>, n: nat, autonomy: string): seq<string>
    requires n <= |lines|
  {
    if n == 0 then [] else ActionsUpTo(lines, n - 1, autonomy) + LineActions(lines[n - 1], autonomy)
  }

  /** Counting lines by index gives the commands of the whole reply. */
  lemma {:induction false} ActionsUpToAll(lines: seq<string>, n: nat, autonomy: string)
    requires n <= |lines|
    ensures ActionsUpTo(lines, n, autonomy) == Actions(lines[..n], autonomy)
  {
    if n > 0 {
      ActionsUpToAll(lines, n - 1, autonomy);
      assert lines[..n][..n - 1] == lines[..n - 1];
    }
  }

  /** Counting every line by index gives the commands of the whole reply. */
  lemma ActionsUpToWhole(lines: seq<string>, autonomy: string)
    ensures ActionsUpTo(lines, |lines|, autonomy) == Actions(lines, autonomy)
  {
    ActionsUpToAll(lines, |lines|, autonomy);
    assert lines[..|lines|] == lines;
  }

  /** Concatenation is associative. */
  lemma AppendAssoc<T>(a: seq<T>, b: seq<T>, c: seq<T>)
    ensures (a + b) + c == a + (b + c)
  {
  }

  /** The stripped non-blank lines, in order. */
  function NonBlank(lines: seq<string>): (r: seq<string>)
    ensures |r| <= |lines|
    ensures forall k :: 0 <= k < |r| ==> r[k] != []
    decreases |lines|
  {
    if lines == [] then []
    else
      var line := Strip(lines[|lines| - 1]);
      if line == [] then NonBlank(lines[..|lines| - 1]) else NonBlank(lines[..|lines| - 1]) + [line]
  }

  /** `Actions` issues exactly one command per non-blank line, classified alone, in line order. */
  lemma {:induction false} ActionsPerLine(lines: seq<string>, autonomy: string)
    ensures |Actions(lines, autonomy)| == |NonBlank(lines)|
    ensures forall k :: 0 <= k < |NonBlank(lines)| ==>
              Actions(lines, autonomy)[k] == Classify(NonBlank(lines)[k], autonomy)
    decreases |lines|
  {
    if lines != [] {
      ActionsPerLine(lines[..|lines| - 1], autonomy);
    }
  }

  /** Prefixing with `"say "` gives a speech directive whatever the line. */
  lemma SayIsDirective(line: string)
    ensures IsDirective("say " + line)
  {
    var s := "say " + line;
    assert Lower(s)[..4] == "say ";
  }

  /**
   * Below `"high"` autonomy the NPC only ever speaks or emotes: every command it
   * issues is a `say`, `emote` or `:` directive.
   */
  lemma {:induction false} LowAutonomyOnlySpeaks(lines: seq<string>, autonomy: string)
    requires autonomy != High
    ensures forall k :: 0 <= k < |Actions(lines, autonomy)| ==> IsDirective(Actions(lines, autonomy)[k])
    decreases |lines|
  {
    if lines != [] {
      LowAutonomyOnlySpeaks(lines[..|lines| - 1], autonomy);
      var line := Strip(lines[|lines| - 1]);
      if line != [] && !IsDirective(line) {
        SayIsDirective(line);
      }
    }
  }

  // ---------------------------------------------------------------------------
  // Response interpretation

  /** What one backend reply does: the new persona, the assistant entry recorded, the commands issued. */
  datatype Outcome = Outcome(newPrompt: Option<string>, entry: Option<string>, commands: seq<string>)

  /**
   * `_handle_llm_action` on values. An empty reply does nothing. A reply holding
   * `Marker` is cut at its first occurrence: a non-blank tail (stripped) becomes the
   * new persona, whatever the growth flag, and the stripped head is what is left to
   * act on; a blank head stops there. A remaining text that reads `WAIT` stops too.
   * Anything else is recorded whole and then acted on line by line.
   */
  function Interpret(response: string, autonomy: string): (r: Outcome)
    ensures response == [] ==> r == Outcome(None, None, [])
    ensures r.entry.None? ==> r.commands == []
    ensures r.entry.Some? ==> r.entry.value != [] && !IsWait(r.entry.value)
    ensures r.newPrompt.Some? ==> r.newPrompt.value != []
  {
    var visible := Visible(response);
    if visible.None? || IsWait(visible.value) then Outcome(PromptUpdate(response), None, [])
    else Outcome(PromptUpdate(response), visible, Actions(Split(visible.value, '\n'), autonomy))
  }

  /** A reply that, blanks aside and in any letter case, reads `WAIT`. */
  predicate IsWait(text: string) {
    Upper(Strip(text)) == Wait
  }

  /** The new persona a reply carries: the stripped text after the first `Marker`, when not blank. */
  function PromptUpdate(response: string): Option<string> {
    var parts := SplitOnce(response, Marker);
    if response != [] && parts.Some? && Strip(parts.value.1) != [] then Some(Strip(parts.value.1)) else None
  }

  /** The text left to act on: the whole reply without `Marker`, else the stripped text before it unless blank. */
  function Visible(response: string): Option<string> {
    var parts := SplitOnce(response, Marker);
    if response == [] then None
    else if parts.None? then Some(response)
    else if Strip(parts.value.0) != [] then Some(Strip(parts.value.0))
    else None
  }

  /** A reply without the marker that reads `WAIT` in any letter case, blanks aside, does nothing at all. */
  lemma WaitDoesNothing(response: string, autonomy: string)
    requires !Contains(response, Marker)
    requires Upper(Strip(response)) == Wait
    ensures Interpret(response, autonomy) == Outcome(None, None, [])
  {
  }

  /**
   * With the marker: the persona becomes the stripped text after its first
   * occurrence exactly when that is non-blank, and what is recorded is the stripped
   * text before it; a blank text before it records and issues nothing.
   */
  lemma MarkerSplitsReply(response: string, autonomy: string, head: string, tail: string)
    requires response == head + Marker + tail && !Contains(head + Marker[..|Marker| - 1], Marker)
    ensures Interpret(response, autonomy).newPrompt == (if Strip(tail) != [] then Some(Strip(tail)) else None)
    ensures Interpret(response, autonomy).entry.Some? ==> Interpret(response, autonomy).entry.value == Strip(head)
    ensures Strip(head) == [] ==> Interpret(response, autonomy).entry == None && Interpret(response, autonomy).commands == []
    ensures Strip(head) != [] && !IsWait(Strip(head)) ==>
              Interpret(response, autonomy).entry == Some(Strip(head))
              && Interpret(response, autonomy).commands == Actions(Split(Strip(head), '\n'), autonomy)
  {
    SplitOnceAt(head, Marker, tail);
  }

  /**
   * Without the marker the persona stays, and a reply that does not read `WAIT`
   * is recorded whole and acted on line by line.
   */
  lemma NoMarkerRecordedWhole(response: string, autonomy: string)
    requires response != [] && !Contains(response, Marker) && !IsWait(response)
    ensures Interpret(response, autonomy) == Outcome(None, Some(response), Actions(Split(response, '\n'), autonomy))
  {
    assert SplitOnce(response, Marker) == None;
  }

  /** The text left to act on never holds `Marker`. */
  lemma VisibleHasNoMarker(response: string)
    ensures Visible(response).Some? ==> !Contains(Visible(response).value, Marker)
  {
    var p := SplitOnce(response, Marker);
    if response != [] && p.Some? {
      var head := p.value.0;
      HeadLacksSeparator(response, Marker);
      StripSlice(head);
      SliceLacks(head, Marker, Lead(head), Lead(head) + |Strip(head)|);
    }
  }

  /** The persona directive never reaches the history: a recorded entry never holds `Marker`. */
  lemma EntryHasNoMarker(response: string, autonomy: string)
    ensures Interpret(response, autonomy).entry.Some? ==> !Contains(Interpret(response, autonomy).entry.value, Marker)
  {
    VisibleHasNoMarker(response);
  }

  /** Below `"high"` autonomy a reply never makes the NPC issue anything but speech or emotes. */
  lemma LowAutonomyReplyOnlySpeaks(response: string, autonomy: string)
    requires autonomy != High
    ensures forall k :: 0 <= k < |Interpret(response, autonomy).commands| ==>
              IsDirective(Interpret(response, autonomy).commands[k])
  {
    var o := Interpret(response, autonomy);
    if o.entry.Some? {
      LowAutonomyOnlySpeaks(Split(o.entry.value, '\n'), autonomy);
    }
  }

  /** Commands are issued only for a reply that is also recorded, and then one per non-blank line of it. */
  lemma CommandsFollowEntry(response: string, autonomy: string)
    ensures Interpret(response, autonomy).entry.None? ==> Interpret(response, autonomy).commands == []
    ensures Interpret(response, autonomy).entry.Some? ==>
              |Interpret(response, autonomy).commands| == |NonBlank(Split(Interpret(response, autonomy).entry.value, '\n'))|
  {
    var o := Interpret(response, autonomy);
    if o.entry.Some? {
      ActionsPerLine(Split(o.entry.value, '\n'), autonomy);
    }
  }

  // ---------------------------------------------------------------------------
  // Inbound messages and ticks

  /** Who sent a message: identity, key, whether it is itself LLM-enabled, and where it is. */
  datatype Sender = Sender(ref: nat, key: string, llmEnabled: bool, hasLocation: bool, location: Option<Room>)

  /** A room: its database identity and the key shown to players (two rooms may share a key). */
  datatype Room = Room(id: nat, key: string)

  /** `a == b` on locations: the same room by identity, or both nowhere. */
  predicate SameRoom(a: Option<Room>, b: Option<Room>) {
    if a.Some? then b.Some? && a.value.id == b.value.id else b.None?
  }

  /** `msg_text` as `msg` picks it; an empty tuple (where `text[0]` raises) reads as no text. */
  function TextOf(text: Option<MsgText>): string {
    match text
    case None => []
    case Some(Plain(s)) => s
    case Some(Tuple(items)) => if items == [] then [] else items[0]
  }

  /** The user entry `respond_to` records. */
  function UserLine(speakerKey: string, text: string): string {
    speakerKey + " says: " + text
  }

  /** The rest of the ambient prompt at `"high"` autonomy. */
  const HighAmbient := "You have full autonomy. Do you want to take an action? "
    + "Reply with a command like 'look', 'get <item>', 'drop <item>', 'move <direction>', "
    + "or 'say <text>', 'emote <text>'. Reply 'WAIT' to do nothing."

  /** The rest of the ambient prompt at any other autonomy. */
  const QuietAmbient := "It is quiet. Do you want to do something? Reply with an emote or say, or 'WAIT' to do nothing."

  /** The ambient prompt `at_tick` sends from the room called `room`. */
  function AmbientPrompt(autonomy: string, room: string): (p: string)
    ensures StartsWith(p, "You are in " + room + ". ")
  {
    var lead := "You are in " + room + ". ";
    var rest := if autonomy == High then HighAmbient else QuietAmbient;
    assert (lead + rest)[..|lead|] == lead;
    lead + rest
  }

  /** A just-recorded line is the last history entry, so `get_response` does not send it twice. */
  lemma RecordedLineSentOnce(history: seq<Llm.Message>, line: string, limit: nat)
    requires limit >= 1
    ensures Llm.Compose(line, AppendBounded(history, Llm.Message("user", line), limit))
            == AppendBounded(history, Llm.Message("user", line), limit)
  {
  }

  /** `LLMCharacter`: the NPC's persisted attributes, its clock stamp and what it has asked and done. */
  class LLMCharacter {
    const id: nat
    var key: string
    var location: Option<Room>
    var npcPrompt: string
    var llmEnabled: bool
    var llmCooldown: nat
    var chatHistory: seq<Llm.Message>
    var memorySize: nat
    var autoActInterval: nat
    var autonomyLevel: string
    var personalityGrowth: bool
    /** `ndb.last_response_time`: unset until the first response. */
    var lastResponseTime: Option<int>
    /** Intervals of the tickers registered for `at_tick`. */
    var tickers: set<nat>
    /** Every `llm.get_response` call made, oldest first. */
    var requests: seq<Llm.Call>
    /** Every command passed to `execute_cmd`, oldest first. */
    var executed: seq<string>

    /** `at_object_creation`: the default persona and settings; no ticker, since the interval is 0. */
    constructor (id: nat, key: string, location: Option<Room>)
      ensures this.id == id && this.key == key && this.location == location
      ensures npcPrompt == DefaultPrompt && llmEnabled && llmCooldown == DefaultCooldown
      ensures chatHistory == [] && memorySize == DefaultMemorySize && autoActInterval == 0
      ensures autonomyLevel == Low && !personalityGrowth
      ensures lastResponseTime == None && tickers == {} && requests == [] && executed == []
    {
      this.id := id;
      this.key := key;
      this.location := location;
      npcPrompt := DefaultPrompt;
      llmEnabled := true;
      llmCooldown := DefaultCooldown;
      chatHistory := [];
      memorySize := DefaultMemorySize;
      autoActInterval := 0;
      autonomyLevel := Low;
      personalityGrowth := false;
      lastResponseTime := None;
      tickers := {};
      requests := [];
      executed := [];
    }

    /** `ndb.last_response_time or 0`. */
    function LastOrZero(): int
      reads this
    {
      if lastResponseTime.Some? then lastResponseTime.value else 0
    }

    /** `db.llm_cooldown or 5`: a cooldown of 0 counts as 5 seconds. */
    function Cooldown(): (c: nat)
      reads this
      ensures c >= 1
    {
      if llmCooldown == 0 then DefaultCooldown else llmCooldown
    }

    /** `start_ticker`: registers a ticker at the current interval unless that is 0. */
    method StartTicker()
      modifies this`tickers
      ensures tickers == if autoActInterval > 0 then old(tickers) + {autoActInterval} else old(tickers)
    {
      if autoActInterval > 0 {
        tickers := tickers + {autoActInterval};
      }
    }

    /** `_append_to_history`: the bounded FIFO append. */
    method AppendToHistory(role: string, content: string)
      modifies this`chatHistory
      ensures chatHistory == AppendBounded(old(chatHistory), Llm.Message(role, content), HistoryLimit(memorySize))
      ensures |chatHistory| <= HistoryLimit(memorySize)
    {
      chatHistory := chatHistory + [Llm.Message(role, content)];
      var limit := HistoryLimit(memorySize);
      if |chatHistory| > limit {
        chatHistory := chatHistory[|chatHistory| - limit..];
      }
    }

    /**
     * `respond_to`: empty text does nothing; otherwise the time is stamped first,
     * exactly one user entry is recorded, and one request goes out whose messages are
     * exactly the new history (the recorded line is not repeated).
     */
    method RespondTo(text: string, speakerKey: string, now: int)
      modifies this`lastResponseTime, this`chatHistory, this`requests
      ensures text == [] ==>
                lastResponseTime == old(lastResponseTime) && chatHistory == old(chatHistory) && requests == old(requests)
      ensures text != [] ==> lastResponseTime == Some(now)
      ensures text != [] ==>
                chatHistory == AppendBounded(old(chatHistory), Llm.Message("user", UserLine(speakerKey, text)), HistoryLimit(memorySize))
      ensures text != [] ==>
                requests == old(requests) + [Llm.Call(UserLine(speakerKey, text), SystemPrompt(npcPrompt, personalityGrowth), chatHistory)]
      ensures text != [] ==> Llm.Compose(UserLine(speakerKey, text), chatHistory) == chatHistory
    {
      if text == [] {
        return;
      }
      lastResponseTime := Some(now);
      var userInput := UserLine(speakerKey, text);
      AppendToHistory("user", userInput);
      var systemPrompt := SystemPrompt(npcPrompt, personalityGrowth);
      requests := requests + [Llm.Call(userInput, systemPrompt, chatHistory)];
      RecordedLineSentOnce(old(chatHistory), userInput, HistoryLimit(memorySize));
    }

    /**
     * The admission gate of `msg`: the LLM is on, there is a sender, it is not this
     * NPC, it is not itself LLM-driven, the cooldown has elapsed, and it stands
     * where this NPC stands.
     */
    predicate Admits(from: Option<Sender>, now: int)
      reads this
      ensures Admits(from, now) ==> now >= LastOrZero() + 1
      ensures llmCooldown == 0 && now - LastOrZero() < DefaultCooldown ==> !Admits(from, now)
      ensures from.Some? && (from.value.ref == id || from.value.llmEnabled) ==> !Admits(from, now)
      ensures (from.Some? && from.value.location.Some? && location.Some?
               && from.value.location.value.id != location.value.id) ==> !Admits(from, now)
    {
      llmEnabled && from.Some? && from.value.ref != id && !from.value.llmEnabled
      && now - LastOrZero() >= Cooldown()
      && from.value.hasLocation && SameRoom(from.value.location, location)
    }

    /**
     * `msg`: a message that fails the gate changes nothing; one that passes is
     * answered through `respond_to`. A request is therefore only ever issued a full
     * cooldown after the previous stamp, and the stamp then moves forward.
     */
    method Msg(text: Option<MsgText>, from: Option<Sender>, now: int)
      modifies this`lastResponseTime, this`chatHistory, this`requests
      ensures !old(Admits(from, now)) || TextOf(text) == [] ==>
                lastResponseTime == old(lastResponseTime) && chatHistory == old(chatHistory) && requests == old(requests)
      ensures old(Admits(from, now)) && TextOf(text) != [] ==>
                lastResponseTime == Some(now)
                && chatHistory == AppendBounded(old(chatHistory), Llm.Message("user", UserLine(from.value.key, TextOf(text))), HistoryLimit(memorySize))
                && requests == old(requests) + [Llm.Call(UserLine(from.value.key, TextOf(text)), SystemPrompt(npcPrompt, personalityGrowth), chatHistory)]
      ensures |requests| != |old(requests)| ==> now - old(LastOrZero()) >= Cooldown() && LastOrZero() > old(LastOrZero())
    {
      if !llmEnabled || from.None? || from.value.ref == id {
        return;
      }
      if from.value.llmEnabled {
        return;
      }
      if now - LastOrZero() < Cooldown() {
        return;
      }
      var msgText := TextOf(text);
      if from.value.hasLocation && SameRoom(from.value.location, location) {
        RespondTo(msgText, from.value.key, now);
      }
    }

    /** The gate of `at_tick`: LLM on, somewhere to be, and the interval elapsed since the last response. */
    predicate TickFires(now: int)
      reads this
      ensures TickFires(now) ==> location.Some?
      ensures llmEnabled && location.Some? && autoActInterval == 0 && now >= LastOrZero() ==> TickFires(now)
    {
      llmEnabled && location.Some? && now - LastOrZero() >= autoActInterval
    }

    /**
     * `at_tick`: when the gate passes, one request with the ambient prompt for the
     * autonomy level; it never stamps the time nor touches the history.
     */
    method AtTick(now: int)
      modifies this`requests
      ensures TickFires(now) ==>
                requests == old(requests) + [Llm.Call(AmbientPrompt(autonomyLevel, location.value.key), SystemPrompt(npcPrompt, personalityGrowth), chatHistory)]
      ensures !TickFires(now) ==> requests == old(requests)
    {
      if !llmEnabled {
        return;
      }
      if location.None? {
        return;
      }
      if now - LastOrZero() < autoActInterval {
        return;
      }
      var prompt := AmbientPrompt(autonomyLevel, location.value.key);
      requests := requests + [Llm.Call(prompt, SystemPrompt(npcPrompt, personalityGrowth), chatHistory)];
    }

    /**
     * `_execute_llm_response`: for each line in order, stripped, blank ones skipped,
     * the command `Classify` picks goes to `execute_cmd`.
     */
    method ExecuteLlmResponse(response: string)
      modifies this`executed
      ensures executed == old(executed) + Actions(Split(response, '\n'), autonomyLevel)
    {
      var lines := Split(response, '\n');
      ExecuteLines(lines);
      ActionsUpToWhole(lines, autonomyLevel);
    }

    /** The loop of `_execute_llm_response` over the reply's lines, in order. */
    method ExecuteLines(lines: seq<string>)
      modifies this`executed
      ensures executed == old(executed) + ActionsUpTo(lines, |lines|, autonomyLevel)
    {
      var start := executed;
      var i := 0;
      while i < |lines|
        invariant 0 <= i <= |lines|
        invariant executed == start + ActionsUpTo(lines, i, autonomyLevel)
      {
        ghost var done := ActionsUpTo(lines, i, autonomyLevel);
        ExecuteLine(lines[i]);
        AppendAssoc(start, done, LineActions(lines[i], autonomyLevel));
        i := i + 1;
      }
    }

    /** One line of `_execute_llm_response`: stripped, and if not blank, its command is executed. */
    method ExecuteLine(line: string)
      modifies this`executed
      ensures executed == old(executed) + LineActions(line, autonomyLevel)
    {
      var stripped := Strip(line);
      if stripped != [] {
        executed := executed + [Classify(stripped, autonomyLevel)];
      } else {
        assert executed + [] == executed;
      }
    }

    /**
     * `_handle_llm_action`: applies `Interpret` to the NPC: the persona update, the
     * assistant entry (recorded before any command) and the commands.
     */
    method HandleLlmAction(response: string)
      modifies this`npcPrompt, this`chatHistory, this`executed
      ensures var o := Interpret(response, autonomyLevel);
        && npcPrompt == (if o.newPrompt.Some? then o.newPrompt.value else old(npcPrompt))
        && chatHistory == (if o.entry.Some? then AppendBounded(old(chatHistory), Llm.Message("assistant", o.entry.value), HistoryLimit(memorySize)) else old(chatHistory))
        && executed == old(executed) + o.commands
    {
      var newPrompt := PromptUpdate(response);
      if newPrompt.Some? {
        npcPrompt := newPrompt.value;
      }
      var visible := Visible(response);
      if visible.None? || IsWait(visible.value) {
        return;
      }
      var text := visible.value;
      Record(text);
    }

    /** The last step of `_handle_llm_action`: the reply is recorded, then acted on. */
    method Record(text: string)
      modifies this`chatHistory, this`executed
      ensures chatHistory == AppendBounded(old(chatHistory), Llm.Message("assistant", text), HistoryLimit(memorySize))
      ensures executed == old(executed) + Actions(Split(text, '\n'), autonomyLevel)
    {
      AppendToHistory("assistant", text);
      ExecuteLlmResponse(text);
    }

    /** `_handle_llm_response`: the backend's result; `None` or an empty reply does nothing. */
    method HandleLlmResponse(response: Option<string>)
      modifies this`npcPrompt, this`chatHistory, this`executed
      ensures response.None? ==>
                npcPrompt == old(npcPrompt) && chatHistory == old(chatHistory) && executed == old(executed)
      ensures response.Some? ==> var o := Interpret(response.value, autonomyLevel);
        && npcPrompt == (if o.newPrompt.Some? then o.newPrompt.value else old(npcPrompt))
        && chatHistory == (if o.entry.Some? then AppendBounded(old(chatHistory), Llm.Message("assistant", o.entry.value), HistoryLimit(memorySize)) else old(chatHistory))
        && executed == old(executed) + o.commands
    {
      if response.Some? && response.value != [] {
        HandleLlmAction(response.value);
      }
    }
  }
}
