/** The Codex session-log fold: one parsed JSON line of a session file is classified
    (`classify_codex_event`), may name the agent (`extract_codex_agent_name`), and is folded
    into the record for its `"codex:<session>"` key (lib.rs lines 1143-1240). */
module Codex {
  import opened Wrappers
  import opened Text
  import opened Epoch
  import opened Agents

  /** The fields of one parsed line the monitor reads. `kind` is the record's `type` and
      `payloadType` the payload's `type` (both empty when absent); a number field is present
      when the JSON value is numeric. */
  datatype CodexRecord = CodexRecord(
    kind: string,
    payloadType: string,
    payloadId: Option<string>,
    recordSessionId: Option<string>,
    recordSessionIdCamel: Option<string>,
    recordTs: Option<I64>,
    recordTimestamp: Option<I64>,
    payloadTs: Option<I64>,
    payloadTimestamp: Option<I64>,
    payloadCwd: Option<string>,
    recordCwd: Option<string>,
    recordMessage: Option<string>,
    payloadMessage: Option<string>,
    payloadName: Option<string>,
    payloadFunctionName: Option<string>)

  /** The (state, type, text) triple a line is classified as. */
  datatype Classified = Classified(state: AgentState, eventType: EventType, text: string)

  /** The lower-cased `"<kind> <payload type>"` the phrase checks search. */
  function Lowered(kind: string, payloadType: string): string {
    Lower(kind) + " " + Lower(payloadType)
  }

  predicate IsCompletion(l: string) {
    Contains(l, "task_complete") || Contains(l, "turn_completed") || Contains(l, "turn.complete")
    || Contains(l, "item.completed") || Contains(l, "completed")
  }

  predicate IsAbort(l: string) {
    Contains(l, "turn_aborted") || Contains(l, "task_aborted") || Contains(l, "aborted")
  }

  predicate IsFailure(l: string) {
    Contains(l, "error") || Contains(l, "failed") || Contains(l, "exception") || Contains(l, "fatal")
  }

  /** None of the three phrase families occurs. */
  predicate NoPhrase(l: string) {
    !IsCompletion(l) && !IsAbort(l) && !IsFailure(l)
  }

  predicate IsMessageType(pt: string) { pt == "agent_message" || pt == "message" }
  predicate IsReasoningType(pt: string) { pt == "agent_reasoning" || pt == "reasoning" || pt == "token_count" }
  predicate IsToolCallType(pt: string) { pt == "function_call" || pt == "custom_tool_call" }
  predicate IsToolOutputType(pt: string) { pt == "function_call_output" || pt == "custom_tool_call_output" }

  /** The tool name of a call: the payload's `name`, else `function.name`, else "tool". */
  function ToolName(rec: CodexRecord): string {
    rec.payloadName.OrElse(rec.payloadFunctionName).GetOr("tool")
  }

  /** A payload type the classifier has a branch for. */
  predicate KnownPayloadType(pt: string) {
    IsMessageType(pt) || IsReasoningType(pt) || pt == "task_started" || pt == "user_message"
    || IsToolCallType(pt) || IsToolOutputType(pt)
  }

  /** The message the classifier shows: the record's `message`, else the payload's. */
  function LineMessage(rec: CodexRecord): Option<string> {
    rec.recordMessage.OrElse(rec.payloadMessage)
  }

  /** The message a user turn names the agent by: the payload's `message`, else the record's. */
  function UserMessage(rec: CodexRecord): Option<string> {
    rec.payloadMessage.OrElse(rec.recordMessage)
  }

  /** `classify_codex_event`: phrase families first (completion, then abort, then failure),
      then the payload type, then a running message. */
  function ClassifyCodexEvent(rec: CodexRecord): (c: Classified)
    ensures var l, pt := Lowered(rec.kind, rec.payloadType), rec.payloadType;
      && (c.state == Done <==> IsCompletion(l))
      && (c.state == Waiting <==> !IsCompletion(l) && (IsAbort(l) || (!IsFailure(l) && pt == "user_message")))
      && (c.state == Error <==> !IsCompletion(l) && !IsAbort(l) && IsFailure(l))
      && (c.state == Thinking <==> NoPhrase(l) && IsReasoningType(pt))
      && c.state != Idle
      && (c.eventType == ErrorEvent <==> c.state == Error)
      && (c.eventType == ToolEvent <==> NoPhrase(l) && (IsToolCallType(pt) || IsToolOutputType(pt)))
      && (NoPhrase(l) && IsToolCallType(pt) ==> c.text == ToolName(rec) + ": running")
    // the fixed texts of the phrase families
    ensures var l := Lowered(rec.kind, rec.payloadType);
      && (IsCompletion(l) ==> c == Classified(Done, StatusEvent, "Turn completed"))
      && (!IsCompletion(l) && IsAbort(l) ==> c == Classified(Waiting, StatusEvent, "Turn aborted"))
      && (!IsCompletion(l) && !IsAbort(l) && IsFailure(l) ==> c == Classified(Error, ErrorEvent, "Codex error"))
    // without a phrase, the payload type decides
    ensures var l, pt := Lowered(rec.kind, rec.payloadType), rec.payloadType;
      NoPhrase(l) ==>
        && (IsMessageType(pt) ==> c == Classified(Running, MessageEvent, LineMessage(rec).GetOr("Assistant message")))
        && (IsReasoningType(pt) ==> c == Classified(Thinking, StatusEvent, "Thinking"))
        && (pt == "task_started" ==> c == Classified(Running, StatusEvent, "Task started"))
        && (pt == "user_message" ==> c == Classified(Waiting, MessageEvent, "Waiting for input"))
        && (IsToolCallType(pt) ==> c == Classified(Running, ToolEvent, ToolName(rec) + ": running"))
        && (IsToolOutputType(pt) ==> c == Classified(Running, ToolEvent, "Tool output"))
        && (!KnownPayloadType(pt) ==> c == Classified(Running, MessageEvent, LineMessage(rec).GetOr(rec.kind)))
  {
    var l := Lowered(rec.kind, rec.payloadType);
    var pt := rec.payloadType;
    if IsCompletion(l) then Classified(Done, StatusEvent, "Turn completed")
    else if IsAbort(l) then Classified(Waiting, StatusEvent, "Turn aborted")
    else if IsFailure(l) then Classified(Error, ErrorEvent, "Codex error")
    else if IsMessageType(pt) then
      Classified(Running, MessageEvent, LineMessage(rec).GetOr("Assistant message"))
    else if IsReasoningType(pt) then Classified(Thinking, StatusEvent, "Thinking")
    else if pt == "task_started" then Classified(Running, StatusEvent, "Task started")
    else if pt == "user_message" then Classified(Waiting, MessageEvent, "Waiting for input")
    else if IsToolCallType(pt) then Classified(Running, ToolEvent, ToolName(rec) + ": running")
    else if IsToolOutputType(pt) then Classified(Running, ToolEvent, "Tool output")
    else Classified(Running, MessageEvent, LineMessage(rec).GetOr(rec.kind))
  }

  /** What trimming a line gives: empty exactly for a blank line, otherwise the line with
      its outer whitespace removed, still without a line feed. */
  lemma TrimmedLine(line: string)
    requires '\n' !in line
    ensures Trim(line) == [] <==> Blank(line)
    ensures Stripped(line, Trim(line))
    ensures Trim(line) != [] ==>
      && '\n' !in Trim(line)
      && !IsWhitespace(Trim(line)[0]) && !IsWhitespace(Trim(line)[|Trim(line)| - 1])
  {
    TrimWithin(line);
    TrimStripped(line);
  }

  /** `extract_codex_agent_name`: for a user message event, the trimmed first line of its
      message (payload first, then record), unless that line is blank. */
  function ExtractCodexAgentName(rec: CodexRecord): (r: Option<string>)
    // a name exactly for a user message whose first line is not blank
    ensures r.Some? <==>
      && rec.kind == "event_msg" && rec.payloadType == "user_message"
      && UserMessage(rec).Some? && !Blank(FirstLine(UserMessage(rec).value))
    // and that name is the first line with the whitespace at its ends removed
    ensures r.Some? ==>
      && Stripped(FirstLine(UserMessage(rec).value), r.value)
      && r.value != [] && '\n' !in r.value
      && !IsWhitespace(r.value[0]) && !IsWhitespace(r.value[|r.value| - 1])
  {
    var message := UserMessage(rec);
    if rec.kind == "event_msg" && rec.payloadType == "user_message" && message.Some? then
      var line := FirstLine(message.value);
      TrimmedLine(line);
      if Trim(line) != [] then Some(Trim(line)) else None
    else None
  }

  /** The session id: payload `id`, else `session_id`, else `sessionId`, else the one taken
      from the file name. */
  function SessionIdOf(rec: CodexRecord, fallbackSession: string): string {
    rec.payloadId.OrElse(rec.recordSessionId).OrElse(rec.recordSessionIdCamel).GetOr(fallbackSession)
  }

  /** The line's timestamp: the first numeric `ts`/`timestamp` (record, then payload) in
      milliseconds, else the file's modification time. */
  function TsOf(rec: CodexRecord, modified: I64): I64 {
    match rec.recordTs.OrElse(rec.recordTimestamp).OrElse(rec.payloadTs).OrElse(rec.payloadTimestamp)
    case Some(v) => NormalizeEpochMs(v)
    case None => modified
  }

  /** The working directory: payload `cwd`, else record `cwd`. */
  function RepoOf(rec: CodexRecord): Option<string> {
    rec.payloadCwd.OrElse(rec.recordCwd)
  }

  function CodexKey(sessionId: string): string {
    "codex:" + sessionId
  }

  /** Longest `recent_events` list kept per agent. */
  const MaxRecentEvents: nat := 20

  /** The record `entry(..).or_insert(..)` creates for an unseen session. */
  function NewCodexEntry(key: string, sessionId: string, ts: I64, repo: Option<string>): AgentTemp {
    AgentTemp(key, "codex", sessionId, None, Idle, ts, Some("Session discovered"), repo, [])
  }

  /** One line folded into its agent's record (lib.rs lines 1223-1240). */
  function CodexFolded(e: AgentTemp, ts: I64, repo: Option<string>, c: Classified, name: Option<string>): (r: AgentTemp)
    ensures r.key == e.key && r.source == e.source && r.sessionId == e.sessionId
    // the event is put in front of the recent events, and at most 20 are kept, newest first
    ensures 1 <= |r.recentEvents| <= MaxRecentEvents
    ensures r.recentEvents[0] == EventView(ts, c.eventType, c.state, Some(c.text))
    ensures r.recentEvents[1..] == e.recentEvents[..if |e.recentEvents| < MaxRecentEvents then |e.recentEvents| else MaxRecentEvents - 1]
    // the latest timestamp only moves forward
    ensures r.lastTsMs == if ts >= e.lastTsMs then ts else e.lastTsMs
    // state and text follow the line only when it is not older than the record
    ensures ts >= e.lastTsMs ==> r.state == c.state && r.lastText == Some(c.text)
    ensures ts < e.lastTsMs ==> r.state == e.state && r.lastText == e.lastText
    // a known repository path is never overwritten
    ensures r.repoPath == if e.repoPath.Some? then e.repoPath else repo
    ensures r.agentName == if name.Some? && (e.agentName.None? || ts >= e.lastTsMs) then name else e.agentName
  {
    var e1 := if e.repoPath.None? && repo.Some? then e.(repoPath := repo) else e;
    var e2 := if e1.agentName.None? && name.Some? then e1.(agentName := name) else e1;
    var events := [EventView(ts, c.eventType, c.state, Some(c.text))] + e2.recentEvents;
    var kept := if |events| > MaxRecentEvents then events[..MaxRecentEvents] else events;
    assert e2.recentEvents == e.recentEvents;
    assert kept[1..] == e.recentEvents[..if |e.recentEvents| < MaxRecentEvents then |e.recentEvents| else MaxRecentEvents - 1];
    var e3 := e2.(recentEvents := kept);
    if ts >= e3.lastTsMs then
      e3.(lastTsMs := ts, state := c.state, lastText := Some(c.text), agentName := if name.Some? then name else e3.agentName)
    else e3
  }

  /** The map after folding one line of a session file whose name gives `fallbackSession`
      and whose modification time is `modified`. */
  function FoldedTable(m: map<string, AgentTemp>, rec: CodexRecord, fallbackSession: string, modified: I64): (r: map<string, AgentTemp>)
    ensures var key := CodexKey(SessionIdOf(rec, fallbackSession));
      && r.Keys == m.Keys + {key}
      && (forall k :: k in m && k != key ==> r[k] == m[k])
      && (key in m ==> r[key].lastTsMs >= m[key].lastTsMs)
      && (key in m && m[key].repoPath.Some? ==> r[key].repoPath == m[key].repoPath)
      && |r[key].recentEvents| >= 1 && r[key].recentEvents[0].tsMs == TsOf(rec, modified)
    ensures var sessionId := SessionIdOf(rec, fallbackSession);
      var key := CodexKey(sessionId);
      var existing := if key in m then m[key] else NewCodexEntry(key, sessionId, TsOf(rec, modified), RepoOf(rec));
      r[key] == CodexFolded(existing, TsOf(rec, modified), RepoOf(rec), ClassifyCodexEvent(rec), ExtractCodexAgentName(rec))
    ensures KeyedByKey(m) ==> KeyedByKey(r)
  {
    var sessionId := SessionIdOf(rec, fallbackSession);
    var key := CodexKey(sessionId);
    var ts := TsOf(rec, modified);
    var repo := RepoOf(rec);
    var existing := if key in m then m[key] else NewCodexEntry(key, sessionId, ts, repo);
    m[key := CodexFolded(existing, ts, repo, ClassifyCodexEvent(rec), ExtractCodexAgentName(rec))]
  }

  /** The map after folding the lines of one session file in order. */
  function FoldedFile(m: map<string, AgentTemp>, recs: seq<CodexRecord>, fallbackSession: string, modified: I64): map<string, AgentTemp>
    decreases |recs|
  {
    if recs == [] then m else FoldedFile(FoldedTable(m, recs[0], fallbackSession, modified), recs[1..], fallbackSession, modified)
  }

  /** Across a whole file, a tracked agent keeps its key, its timestamp never moves back,
      its known repository path is kept, and its recent events stay within 20. */
  lemma {:induction false} FoldedFileKeeps(m: map<string, AgentTemp>, recs: seq<CodexRecord>, fallbackSession: string, modified: I64, k: string)
    requires k in m && |m[k].recentEvents| <= MaxRecentEvents
    ensures var r := FoldedFile(m, recs, fallbackSession, modified);
      && k in r
      && r[k].key == m[k].key
      && r[k].lastTsMs >= m[k].lastTsMs
      && (m[k].repoPath.Some? ==> r[k].repoPath == m[k].repoPath)
      && |r[k].recentEvents| <= MaxRecentEvents
    decreases |recs|
  {
    if recs != [] {
      var m' := FoldedTable(m, recs[0], fallbackSession, modified);
      FoldedFileKeeps(m', recs[1..], fallbackSession, modified, k);
    }
  }

  /** The keys the lines of a file name. */
  function FileKeys(recs: seq<CodexRecord>, fallbackSession: string): set<string> {
    set i | 0 <= i < |recs| :: CodexKey(SessionIdOf(recs[i], fallbackSession))
  }

  lemma FileKeysCons(recs: seq<CodexRecord>, fallbackSession: string)
    requires recs != []
    ensures FileKeys(recs, fallbackSession) == {CodexKey(SessionIdOf(recs[0], fallbackSession))} + FileKeys(recs[1..], fallbackSession)
  {
    var head := CodexKey(SessionIdOf(recs[0], fallbackSession));
    forall x | x in FileKeys(recs, fallbackSession) ensures x in {head} + FileKeys(recs[1..], fallbackSession) {
      var i :| 0 <= i < |recs| && x == CodexKey(SessionIdOf(recs[i], fallbackSession));
      if i > 0 { assert recs[1..][i - 1] == recs[i]; }
    }
    forall x | x in FileKeys(recs[1..], fallbackSession) ensures x in FileKeys(recs, fallbackSession) {
      var i :| 0 <= i < |recs[1..]| && x == CodexKey(SessionIdOf(recs[1..][i], fallbackSession));
      assert recs[1..][i] == recs[i + 1];
    }
  }

  /** Every line of a file lands in the record of its own key: afterwards exactly the keys
      the file names have been added, and every record still sits under its own key. */
  lemma {:induction false} FoldedFileFrame(m: map<string, AgentTemp>, recs: seq<CodexRecord>, fallbackSession: string, modified: I64)
    ensures FoldedFile(m, recs, fallbackSession, modified).Keys == m.Keys + FileKeys(recs, fallbackSession)
    ensures KeyedByKey(m) ==> KeyedByKey(FoldedFile(m, recs, fallbackSession, modified))
    decreases |recs|
  {
    if recs != [] {
      var m' := FoldedTable(m, recs[0], fallbackSession, modified);
      FoldedFileFrame(m', recs[1..], fallbackSession, modified);
      FileKeysCons(recs, fallbackSession);
    }
  }
}
