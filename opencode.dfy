/** The OpenCode part classifier: a tool call, a reasoning block or a step boundary becomes
    a (state, type, text, timestamp) quadruple, and the record `upsert_agent` receives for it.
    The same classifier appears twice in lib.rs (lines 750-823 for database rows and
    943-1014 for part files); the two differ only in the fallback timestamp. */
module OpenCode {
  import opened Wrappers
  import opened Text
  import opened Epoch
  import opened Agents
  import opened Json

  /** The fields of one part document the classifier reads: its `type`, for a tool part
      `state.status`, `tool` and the raw `state.time.start`/`end`, for a reasoning part the
      raw top-level `time.start`/`end` and `text`, and for a step end its `reason`. */
  datatype PartRecord = PartRecord(
    partType: string,
    status: Option<string>,
    tool: Option<string>,
    stateStart: Option<I64>,
    stateEnd: Option<I64>,
    timeStart: Option<I64>,
    timeEnd: Option<I64>,
    text: Option<string>,
    reason: Option<string>)

  datatype PartClass = PartClass(state: AgentState, eventType: EventType, text: Option<string>, tsMs: I64)

  function NormalizeOpt(v: Option<I64>): Option<I64> {
    match v
    case Some(x) => Some(NormalizeEpochMs(x))
    case None => None
  }

  /** A part's timestamp: its end, else its start (both in milliseconds), else the fallback. */
  function PartTs(start: Option<I64>, end: Option<I64>, fallbackTs: I64): I64 {
    NormalizeOpt(end).GetOr(NormalizeOpt(start).GetOr(fallbackTs))
  }

  /** The lower-cased tool status, "running" when absent. */
  function ToolStatus(p: PartRecord): string {
    Lower(p.status.GetOr("running"))
  }

  predicate IsClassifiedPart(partType: string) {
    partType == "tool" || partType == "reasoning" || partType == "step-start" || partType == "step-finish"
  }

  /** The classifier. `fallbackTs` is the normalised row update time or file modification
      time; `None` stands for the `continue` that skips any other part type. */
  function ClassifyPart(p: PartRecord, fallbackTs: I64): (r: Option<PartClass>)
    ensures r.Some? <==> IsClassifiedPart(p.partType)
    ensures r.Some? ==> r.value.text.Some?
    // a tool part is an error exactly when its status says so, done when it completed or has an end time
    ensures p.partType == "tool" ==>
      && (r.value.state == Error <==> ToolStatus(p) == "error")
      && (r.value.state == Done <==> ToolStatus(p) != "error" && (ToolStatus(p) == "completed" || p.stateEnd.Some?))
      && (r.value.state == Running <==> ToolStatus(p) != "error" && ToolStatus(p) != "completed" && p.stateEnd.None?)
      && r.value.eventType == (if ToolStatus(p) == "error" then ErrorEvent else ToolEvent)
      && r.value.text == Some(p.tool.GetOr("tool") + ": " + ToolStatus(p))
      && r.value.tsMs == PartTs(p.stateStart, p.stateEnd, fallbackTs)
    ensures p.partType == "reasoning" ==>
      r.value == PartClass(Thinking, StatusEvent, p.text.OrElse(Some("Thinking")), PartTs(p.timeStart, p.timeEnd, fallbackTs))
    ensures p.partType == "step-start" ==> r.value == PartClass(Running, StatusEvent, Some("Step started"), fallbackTs)
    ensures p.partType == "step-finish" ==>
      r.value == PartClass(Done, StatusEvent, Some("Step finished: " + p.reason.GetOr("stop")), fallbackTs)
  {
    if p.partType == "tool" then
      var status := ToolStatus(p);
      var hint := if status == "error" then Error
                  else if status == "completed" || p.stateEnd.Some? then Done
                  else Running;
      Some(PartClass(hint, if status == "error" then ErrorEvent else ToolEvent,
                     Some(p.tool.GetOr("tool") + ": " + status), PartTs(p.stateStart, p.stateEnd, fallbackTs)))
    else if p.partType == "reasoning" then
      Some(PartClass(Thinking, StatusEvent, p.text.OrElse(Some("Thinking")), PartTs(p.timeStart, p.timeEnd, fallbackTs)))
    else if p.partType == "step-start" then
      Some(PartClass(Running, StatusEvent, Some("Step started"), fallbackTs))
    else if p.partType == "step-finish" then
      Some(PartClass(Done, StatusEvent, Some("Step finished: " + p.reason.GetOr("stop")), fallbackTs))
    else None
  }

  /** `truncate_option_text`. */
  function TruncatedOpt(text: Option<string>): (r: Option<string>)
    ensures r.Some? <==> text.Some?
    ensures r.Some? ==> |r.value| <= MaxMonitorTextChars + 3
    ensures text.Some? && |text.value| <= MaxMonitorTextChars ==> r == text
  {
    match text
    case Some(t) => Some(Truncated(t))
    case None => None
  }

  /** The session id as lib.rs line 934 reads it: `string_at` with the path
      `["sessionID", "sessionId"]`, which is the field `sessionId` inside an object-valued
      field `sessionID`, not one field or the other. */
  function PartSessionIdAsWritten(doc: Value): (r: Option<string>)
    ensures r.Some? ==> doc.Object? && "sessionID" in doc.fields && doc.fields["sessionID"].Object?
  {
    ValueAtTwoKeys(doc, "sessionID", "sessionId");
    AsStr(ValueAt(doc, ["sessionID", "sessionId"]))
  }

  /** The session id as intended: the string field `sessionID`, else the string field
      `sessionId`. */
  function PartSessionId(doc: Value): (r: Option<string>)
    ensures r.Some? <==> HasStr(doc, "sessionID") || HasStr(doc, "sessionId")
    ensures HasStr(doc, "sessionID") ==> r == Some(doc.fields["sessionID"].s)
    ensures !HasStr(doc, "sessionID") && HasStr(doc, "sessionId") ==> r == Some(doc.fields["sessionId"].s)
  {
    ValueAtOneKey(doc, "sessionID");
    ValueAtOneKey(doc, "sessionId");
    AsStr(ValueAt(doc, ["sessionID"])).OrElse(AsStr(ValueAt(doc, ["sessionId"])))
  }

  /** A part file of the usual shape, whose `sessionID` is a string, has no session id as
      written and is skipped; the intended lookup finds it. */
  lemma PlainSessionIdMissed(id: string)
    ensures PartSessionIdAsWritten(Object(map["sessionID" := Str(id)])) == None
    ensures PartSessionId(Object(map["sessionID" := Str(id)])) == Some(id)
  {
    var doc := Object(map["sessionID" := Str(id)]);
    assert HasStr(doc, "sessionID");
  }

  function OpencodeKey(sessionId: string): string {
    "opencode:" + sessionId
  }

  /** The record upserted for a classified part of `sessionId` (lib.rs lines 1016-1037);
      the session's title and repository come from the session maps. */
  function PartIncoming(sessionId: string, c: PartClass, sessionNames: map<string, string>, sessionRepos: map<string, string>): (r: AgentTemp)
    ensures r.key == OpencodeKey(sessionId) && r.source == "opencode" && r.sessionId == sessionId
    ensures r.state == c.state && r.lastTsMs == c.tsMs
    ensures r.lastText == TruncatedOpt(c.text)
    ensures r.lastText.Some? <==> c.text.Some?
    ensures r.lastText.Some? ==> |r.lastText.value| <= MaxMonitorTextChars + 3
    ensures r.recentEvents == [EventView(c.tsMs, c.eventType, c.state, r.lastText)]
    ensures r.agentName == Lookup(sessionNames, sessionId) && r.repoPath == Lookup(sessionRepos, sessionId)
  {
    var text := TruncatedOpt(c.text);
    AgentTemp(OpencodeKey(sessionId), "opencode", sessionId, Lookup(sessionNames, sessionId),
              c.state, c.tsMs, text, Lookup(sessionRepos, sessionId),
              [EventView(c.tsMs, c.eventType, c.state, text)])
  }
}
