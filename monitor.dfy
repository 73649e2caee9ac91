/** `desktop_monitor_tick` (lib.rs lines 462-627) and the `previous_states` the application
    keeps between ticks. The scanners' merged map, the repository bindings, the settings and
    the clock reading are inputs of a tick. */
module Monitor {
  import opened Wrappers
  import opened Epoch
  import opened Agents
  import opened Snapshot

  /** The monitor settings a tick reads. */
  datatype Settings = Settings(enabled: bool, enableClaude: bool)

  /** `MonitorSnapshot`. */
  datatype MonitorSnapshot = MonitorSnapshot(summary: Summary, agents: seq<AgentView>, nowMs: I64)

  /** `MonitorTickPayload`. */
  datatype TickPayload = TickPayload(snapshot: MonitorSnapshot, notifications: seq<Notification>)

  const EmptySummary := Summary(0, 0, 0, 0, 0, 0, 0)

  /** The records of `m` whose keys have left `rest` have their bindings applied; the others
      are as they were. */
  predicate BoundExcept(m: map<string, AgentTemp>, bindings: map<string, string>, r: map<string, AgentTemp>, rest: set<string>) {
    && rest <= m.Keys && r.Keys == m.Keys
    && forall k | k in m :: r[k] == if k in rest then m[k] else Bound(m[k], bindings)
  }

  lemma BoundExceptStep(m: map<string, AgentTemp>, bindings: map<string, string>, r: map<string, AgentTemp>, rest: set<string>, k: string)
    requires BoundExcept(m, bindings, r, rest) && k in rest
    ensures BoundExcept(m, bindings, r[k := Bound(r[k], bindings)], rest - {k})
  {
  }

  lemma BoundExceptDone(m: map<string, AgentTemp>, bindings: map<string, string>, r: map<string, AgentTemp>)
    requires BoundExcept(m, bindings, r, {})
    ensures r == WithBindings(m, bindings)
  {
  }

  /** The `for agent in map.values_mut()` loop applying the repository bindings. */
  method BindRepos(m: map<string, AgentTemp>, bindings: map<string, string>) returns (r: map<string, AgentTemp>)
    ensures r == WithBindings(m, bindings)
  {
    r := m;
    var rest := m.Keys;
    while rest != {}
      invariant BoundExcept(m, bindings, r, rest)
      decreases |rest|
    {
      var k :| k in rest;
      BoundExceptStep(m, bindings, r, rest, k);
      var agent := r[k];
      if agent.repoPath.None? && agent.key in bindings {
        r := r[k := agent.(repoPath := Some(bindings[agent.key]))];
      } else {
        assert Bound(agent, bindings) == agent;
        assert r[k := agent] == r;
      }
      rest := rest - {k};
    }
    BoundExceptDone(m, bindings, r);
  }

  lemma KeysOfAppend(vs: seq<AgentView>, v: AgentView)
    ensures KeysOf(vs + [v]) == KeysOf(vs) + {v.key}
  {
    assert forall x :: x in vs + [v] <==> x in vs || x == v;
  }

  /** `views` holds one view for each record of `m` whose key has left `rest`. */
  predicate Collected(m: map<string, AgentTemp>, now: I64, views: seq<AgentView>, rest: set<string>) {
    && CollectedKeys(m, views, rest)
    && DistinctKeys(views)
    && ViewsOf(m, now, views)
  }

  predicate CollectedKeys(m: map<string, AgentTemp>, views: seq<AgentView>, rest: set<string>) {
    && rest <= m.Keys && KeysOf(views) + rest == m.Keys && KeysOf(views) !! rest
    && |views| + |rest| == |m|
  }

  /** Every view is the one its record gives at `now`. */
  predicate ViewsOf(m: map<string, AgentTemp>, now: I64, views: seq<AgentView>) {
    forall i | 0 <= i < |views| :: views[i].key in m && views[i] == ViewOf(m[views[i].key], now)
  }

  lemma CollectedKeysStep(m: map<string, AgentTemp>, views: seq<AgentView>, rest: set<string>, v: AgentView)
    requires CollectedKeys(m, views, rest) && v.key in rest
    ensures CollectedKeys(m, views + [v], rest - {v.key})
  {
    KeysOfAppend(views, v);
  }

  lemma DistinctKeysStep(views: seq<AgentView>, v: AgentView)
    requires DistinctKeys(views) && v.key !in KeysOf(views)
    ensures DistinctKeys(views + [v])
  {
    var next := views + [v];
    forall i, j | 0 <= i < j < |next| ensures next[i].key != next[j].key {
      assert next[i] == views[i];
      if j < |views| {
        assert next[j] == views[j];
      } else {
        assert views[i] in views;
      }
    }
  }

  lemma ViewsOfStep(m: map<string, AgentTemp>, now: I64, views: seq<AgentView>, k: string)
    requires KeyedByKey(m) && ViewsOf(m, now, views) && k in m
    ensures ViewsOf(m, now, views + [ViewOf(m[k], now)])
  {
    var next := views + [ViewOf(m[k], now)];
    forall i | 0 <= i < |next| ensures next[i].key in m && next[i] == ViewOf(m[next[i].key], now) {
      if i < |views| {
        assert next[i] == views[i];
      }
    }
  }

  lemma CollectedStep(m: map<string, AgentTemp>, now: I64, views: seq<AgentView>, rest: set<string>, k: string)
    requires KeyedByKey(m) && Collected(m, now, views, rest) && k in rest
    ensures Collected(m, now, views + [ViewOf(m[k], now)], rest - {k})
  {
    var v := ViewOf(m[k], now);
    CollectedKeysStep(m, views, rest, v);
    DistinctKeysStep(views, v);
    ViewsOfStep(m, now, views, k);
  }

  lemma CollectedAll(m: map<string, AgentTemp>, now: I64, views: seq<AgentView>)
    requires Collected(m, now, views, {})
    ensures |views| == |m|
    ensures DistinctKeys(views) && KeysOf(views) == m.Keys
    ensures forall i | 0 <= i < |views| :: views[i].key in m && views[i] == ViewOf(m[views[i].key], now)
  {
  }

  /** `map.into_values().map(..).collect()`: one view per record, in the map's iteration
      order, which the model leaves open. */
  method CollectViews(m: map<string, AgentTemp>, now: I64) returns (views: seq<AgentView>)
    requires KeyedByKey(m)
    ensures |views| == |m|
    ensures DistinctKeys(views) && KeysOf(views) == m.Keys
    ensures forall i | 0 <= i < |views| :: views[i].key in m && views[i] == ViewOf(m[views[i].key], now)
  {
    views := [];
    var rest := m.Keys;
    while rest != {}
      invariant Collected(m, now, views, rest)
      decreases |rest|
    {
      var k :| k in rest;
      CollectedStep(m, now, views, rest, k);
      views := views + [ViewOf(m[k], now)];
      rest := rest - {k};
    }
    CollectedAll(m, now, views);
  }

  /** The loop over the sorted views that records each key's state for the next tick and
      raises a notification for each view that newly reached done or error. */
  method Announce(agents: seq<AgentView>, previousStates: map<string, AgentState>)
    returns (notifications: seq<Notification>, nextStates: map<string, AgentState>)
    ensures notifications == Notifications(agents, previousStates)
    ensures nextStates == NextStates(agents)
  {
    notifications := [];
    nextStates := map[];
    var i := 0;
    while i < |agents|
      invariant 0 <= i <= |agents|
      invariant notifications == Notifications(agents[..i], previousStates)
      invariant nextStates == NextStates(agents[..i])
    {
      var agent := agents[i];
      assert agents[..i + 1][..i] == agents[..i];
      nextStates := nextStates[agent.key := agent.state];
      if (agent.state == Done || agent.state == Error) && Lookup(previousStates, agent.key) != Some(agent.state) {
        var isError := agent.state == Error;
        notifications := notifications + [Notification(
          if isError then "Agent error" else "Agent done",
          agent.displayName + " - " + agent.lastText.GetOr(if isError then "Error" else "Completed"),
          if isError then "error" else "done",
          agent.key)];
      }
      i := i + 1;
    }
    assert agents[..|agents|] == agents;
  }

  class MonitorState {
    /** The state each agent key had at the previous enabled tick. */
    var previousStates: map<string, AgentState>

    constructor ()
      ensures previousStates == map[]
    {
      previousStates := map[];
    }

    /** One tick over the records `scanned` the enabled scanners produced, at time `now`. */
    method Tick(settings: Settings, scanned: map<string, AgentTemp>, bindings: map<string, string>, now: I64)
      returns (payload: TickPayload)
      requires KeyedByKey(scanned)
      modifies this
      // a disabled monitor reports nothing and forgets nothing
      ensures !settings.enabled ==>
        && payload == TickPayload(MonitorSnapshot(EmptySummary, [], now), [])
        && previousStates == old(previousStates)
      ensures settings.enabled ==>
        var tracked := WithBindings(Retained(scanned, settings.enableClaude), bindings);
        var agents := payload.snapshot.agents;
        // one view per tracked record, each its record as seen at `now`, newest first
        && |agents| == |tracked|
        && DistinctKeys(agents) && KeysOf(agents) == tracked.Keys
        && (forall v | v in agents :: v.key in tracked && v == ViewOf(tracked[v.key], now))
        && NewestFirst(agents)
        && payload.snapshot.nowMs == now
        && payload.snapshot.summary == Summarize(agents)
        // notifications against the previous tick's states, which are then replaced
        && payload.notifications == Notifications(agents, old(previousStates))
        && previousStates == NextStates(agents)
    {
      if !settings.enabled {
        payload := TickPayload(MonitorSnapshot(EmptySummary, [], now), []);
        return;
      }
      var tracked := Retained(scanned, settings.enableClaude);
      tracked := BindRepos(tracked, bindings);
      var views := CollectViews(tracked, now);
      var agents := SortByRecency(views);
      SortByRecencyKeeps(views);
      forall v | v in agents ensures v.key in tracked && v == ViewOf(tracked[v.key], now) {
        var i :| 0 <= i < |views| && views[i] == v;
      }
      assert |agents| == |views| by {
        assert |multiset(agents)| == |multiset(views)|;
      }
      var summary := Summarize(agents);
      var snapshot := MonitorSnapshot(summary, agents, now);

      var notifications, nextStates := Announce(agents, previousStates);
      previousStates := nextStates;
      payload := TickPayload(snapshot, notifications);
    }
  }
}
