/** The per-agent record the scanners build (`AgentTemp`), the event view it keeps, and
    `upsert_agent`, which merges a newer record into the map keyed by `"<source>:<session>"`. */
module Agents {
  import opened Wrappers
  import opened Epoch

  /** The six state strings the monitor uses. */
  datatype AgentState = Idle | Thinking | Running | Waiting | Done | Error

  /** The `type` strings of an event. */
  datatype EventType = MessageEvent | ToolEvent | StatusEvent | ErrorEvent

  /** `MonitorEventView`; its `files_touched` is always empty and is not modelled. */
  datatype EventView = EventView(tsMs: I64, eventType: EventType, stateHint: AgentState, text: Option<string>)

  /** `AgentTemp`. */
  datatype AgentTemp = AgentTemp(
    key: string,
    source: string,
    sessionId: string,
    agentName: Option<string>,
    state: AgentState,
    lastTsMs: I64,
    lastText: Option<string>,
    repoPath: Option<string>,
    recentEvents: seq<EventView>)

  /** Every record sits under its own key. */
  predicate KeyedByKey(m: map<string, AgentTemp>) {
    forall k :: k in m ==> m[k].key == k
  }

  /** The record `upsert_agent` stores when `incoming` is at least as new as `existing`:
      the incoming record, with a missing repository path, text or name taken from the
      existing one. */
  function Merged(existing: AgentTemp, incoming: AgentTemp): AgentTemp {
    incoming.(repoPath := incoming.repoPath.OrElse(existing.repoPath),
              lastText := incoming.lastText.OrElse(existing.lastText),
              agentName := incoming.agentName.OrElse(existing.agentName))
  }

  /** The map after `upsert_agent(map, incoming)`. */
  function Upserted(m: map<string, AgentTemp>, incoming: AgentTemp): (r: map<string, AgentTemp>)
    ensures r.Keys == m.Keys + {incoming.key}
    // all other keys are untouched
    ensures forall k :: k in m && k != incoming.key ==> r[k] == m[k]
    // an unseen key is inserted as given
    ensures incoming.key !in m ==> r[incoming.key] == incoming
    // an older record changes nothing
    ensures incoming.key in m && incoming.lastTsMs < m[incoming.key].lastTsMs ==> r == m
    // a record at least as new replaces the existing one, keeping the existing optional fields it lacks
    ensures incoming.key in m && incoming.lastTsMs >= m[incoming.key].lastTsMs ==>
      var e, n := m[incoming.key], r[incoming.key];
      && n.(repoPath := incoming.repoPath, lastText := incoming.lastText, agentName := incoming.agentName) == incoming
      && n.repoPath == (if incoming.repoPath.Some? then incoming.repoPath else e.repoPath)
      && n.lastText == (if incoming.lastText.Some? then incoming.lastText else e.lastText)
      && n.agentName == (if incoming.agentName.Some? then incoming.agentName else e.agentName)
    // the latest timestamp of a key never moves back
    ensures incoming.key in m ==> r[incoming.key].lastTsMs >= m[incoming.key].lastTsMs
    ensures KeyedByKey(m) ==> KeyedByKey(r)
  {
    if incoming.key in m then
      if incoming.lastTsMs >= m[incoming.key].lastTsMs then m[incoming.key := Merged(m[incoming.key], incoming)]
      else m
    else m[incoming.key := incoming]
  }

  /** Upserting the same record twice is the same as upserting it once. */
  lemma UpsertedIdempotent(m: map<string, AgentTemp>, incoming: AgentTemp)
    ensures Upserted(Upserted(m, incoming), incoming) == Upserted(m, incoming)
  {
    var once := Upserted(m, incoming);
    if incoming.key in m && incoming.lastTsMs >= m[incoming.key].lastTsMs {
      var n := once[incoming.key];
      assert Merged(n, incoming) == n;
    }
  }

  /** The map after upserting a sequence of records in order. */
  function UpsertedAll(m: map<string, AgentTemp>, incoming: seq<AgentTemp>): map<string, AgentTemp>
    decreases |incoming|
  {
    if incoming == [] then m else UpsertedAll(Upserted(m, incoming[0]), incoming[1..])
  }

  /** Over any run of upserts, a key's latest timestamp never moves back and no key is lost. */
  lemma {:induction false} UpsertedAllMonotone(m: map<string, AgentTemp>, incoming: seq<AgentTemp>, k: string)
    requires k in m
    ensures k in UpsertedAll(m, incoming)
    ensures UpsertedAll(m, incoming)[k].lastTsMs >= m[k].lastTsMs
    decreases |incoming|
  {
    if incoming != [] {
      UpsertedAllMonotone(Upserted(m, incoming[0]), incoming[1..], k);
    }
  }
}
