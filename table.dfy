/** The map of agent records a monitor tick builds (`HashMap<String, AgentTemp>` passed as
    `&mut` to the scanners), with the in-place operations the scanners apply to it. */
module Table {
  import opened Wrappers
  import opened Epoch
  import opened Agents
  import opened Codex
  import opened OpenCode
  import opened Json

  class AgentTable {
    var agents: map<string, AgentTemp>

    /** Every record sits under its own key. */
    ghost predicate Valid()
      reads this
    {
      KeyedByKey(agents)
    }

    constructor ()
      ensures Valid() && agents == map[]
    {
      agents := map[];
    }

    /** `upsert_agent`. */
    method Upsert(incoming: AgentTemp)
      requires Valid()
      modifies this
      ensures Valid()
      ensures agents == Upserted(old(agents), incoming)
    {
      if incoming.key in agents {
        var existing := agents[incoming.key];
        if incoming.lastTsMs >= existing.lastTsMs {
          var merged := incoming;
          if merged.repoPath.None? {
            merged := merged.(repoPath := existing.repoPath);
          }
          if merged.lastText.None? {
            merged := merged.(lastText := existing.lastText);
          }
          if merged.agentName.None? {
            merged := merged.(agentName := existing.agentName);
          }
          agents := agents[incoming.key := merged];
        }
      } else {
        agents := agents[incoming.key := incoming];
      }
    }

    /** The body of the per-line loop of `scan_codex` (lib.rs lines 1165-1240) for a line
        already parsed into `rec`. */
    method FoldCodexRecord(rec: CodexRecord, fallbackSession: string, modified: I64)
      requires Valid()
      modifies this
      ensures Valid()
      ensures agents == FoldedTable(old(agents), rec, fallbackSession, modified)
    {
      var sessionId := SessionIdOf(rec, fallbackSession);
      var key := CodexKey(sessionId);
      var ts := TsOf(rec, modified);
      var repoPath := RepoOf(rec);
      var c := ClassifyCodexEvent(rec);
      var agentName := ExtractCodexAgentName(rec);
      var event := EventView(ts, c.eventType, c.state, Some(c.text));

      var existing := if key in agents then agents[key] else NewCodexEntry(key, sessionId, ts, repoPath);
      assert existing.key == key;
      ghost var folded := CodexFolded(existing, ts, repoPath, c, agentName);
      assert FoldedTable(old(agents), rec, fallbackSession, modified) == agents[key := folded];
      if existing.repoPath.None? && repoPath.Some? {
        existing := existing.(repoPath := repoPath);
      }
      if existing.agentName.None? && agentName.Some? {
        existing := existing.(agentName := agentName);
      }
      var events := [event] + existing.recentEvents;
      if |events| > MaxRecentEvents {
        events := events[..MaxRecentEvents];
      }
      existing := existing.(recentEvents := events);
      if ts >= existing.lastTsMs {
        existing := existing.(lastTsMs := ts, state := c.state, lastText := Some(c.text));
        if agentName.Some? {
          existing := existing.(agentName := agentName);
        }
      }
      assert existing == folded;
      agents := agents[key := existing];
    }

    /** `for line in tail.lines()` over the parsed lines of one session file. */
    method FoldCodexFile(recs: seq<CodexRecord>, fallbackSession: string, modified: I64)
      requires Valid()
      modifies this
      ensures Valid()
      ensures agents == FoldedFile(old(agents), recs, fallbackSession, modified)
    {
      var i := 0;
      while i < |recs|
        invariant 0 <= i <= |recs|
        invariant Valid()
        invariant FoldedFile(agents, recs[i..], fallbackSession, modified) == FoldedFile(old(agents), recs, fallbackSession, modified)
      {
        assert recs[i..][0] == recs[i] && recs[i..][1..] == recs[i + 1..];
        FoldCodexRecord(recs[i], fallbackSession, modified);
        i := i + 1;
      }
    }

    /** The body of the part-file loop of `scan_opencode` (lib.rs lines 934-1037) for a part
        document `doc` whose fields the classifier reads are `part`: a part without a
        session id or of another type is skipped, any other is classified and upserted.
        `modified` is the file's modification time. The session id is read as intended
        (`PartSessionId`), not by the nested lookup of line 934. */
    method FoldOpenCodePart(doc: Value, part: PartRecord, modified: I64,
                            sessionNames: map<string, string>, sessionRepos: map<string, string>)
      requires Valid()
      modifies this
      ensures Valid()
      ensures PartSessionId(doc).None? || !IsClassifiedPart(part.partType) ==> agents == old(agents)
      ensures PartSessionId(doc).Some? && IsClassifiedPart(part.partType) ==>
        agents == Upserted(old(agents), PartIncoming(PartSessionId(doc).value, ClassifyPart(part, NormalizeEpochMs(modified)).value, sessionNames, sessionRepos))
    {
      ValueAtOneKey(doc, "sessionID");
      ValueAtOneKey(doc, "sessionId");
      var sessionId := StringAt(doc, ["sessionID"]);
      if sessionId.None? {
        sessionId := StringAt(doc, ["sessionId"]);
      }
      if sessionId.None? {
        return;
      }
      var c := ClassifyPart(part, NormalizeEpochMs(modified));
      if c.None? {
        return;
      }
      Upsert(PartIncoming(sessionId.value, c.value, sessionNames, sessionRepos));
    }
  }
}
