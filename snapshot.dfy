/** What one monitor tick makes of the merged agent records (lib.rs lines 513-626): the
    silence-based decay of a record's state, its alerts, the view sent to the window, the
    newest-first order, the summary counts and the done/error notifications, deduplicated
    against the states the previous tick saw. */
module Snapshot {
  import opened Wrappers
  import opened Epoch
  import opened Names
  import opened Agents

  const IdleAfterMs: int := 20_000
  const DoneAfterMs: int := 90_000

  /** The states that mean the agent is at work or waiting on the user. */
  predicate IsLive(s: AgentState) {
    s == Running || s == Thinking || s == Waiting
  }

  /** A record as the tick shows it at time `now`: a live record silent for more than 20 s
      falls back to idle (its "Thinking" text becoming "Idle"), and an idle record silent for
      more than 90 s is done (an empty, "Idle" or "Thinking" text becoming
      "No recent activity"). */
  function Decayed(a: AgentTemp, now: int): (r: AgentTemp)
    // only the state and the text ever change
    ensures r == a.(state := r.state, lastText := r.lastText)
    ensures now - a.lastTsMs <= IdleAfterMs ==> r == a
    ensures a.state == Done || a.state == Error ==> r == a
    ensures a.state == Idle && now - a.lastTsMs <= DoneAfterMs ==> r == a
    ensures IsLive(a.state) && IdleAfterMs < now - a.lastTsMs <= DoneAfterMs ==>
      && r.state == Idle
      && r.lastText == (if a.lastText == Some("Thinking") then Some("Idle") else a.lastText)
    ensures (IsLive(a.state) || a.state == Idle) && now - a.lastTsMs > DoneAfterMs ==>
      && r.state == Done
      && r.lastText == (if a.lastText.None? || a.lastText == Some("Idle") || a.lastText == Some("Thinking")
                        then Some("No recent activity") else a.lastText)
    // what is left live has been heard from within 20 s, what is left idle within 90 s
    ensures IsLive(r.state) ==> now - a.lastTsMs <= IdleAfterMs
    ensures r.state == Idle ==> now - a.lastTsMs <= DoneAfterMs
  {
    var silence := now - a.lastTsMs;
    var a1 := if IsLive(a.state) && silence > IdleAfterMs then
                a.(state := Idle, lastText := if a.lastText == Some("Thinking") then Some("Idle") else a.lastText)
              else a;
    if a1.state == Idle && silence > DoneAfterMs then
      a1.(state := Done,
          lastText := if a1.lastText.None? || a1.lastText == Some("Idle") || a1.lastText == Some("Thinking")
                      then Some("No recent activity") else a1.lastText)
    else a1
  }

  /** Decaying at an earlier time and then at a later one is decaying at the later one: the
      rule depends only on how long the record has been silent. */
  lemma DecayedComposes(a: AgentTemp, earlier: int, later: int)
    requires earlier <= later
    ensures Decayed(Decayed(a, earlier), later) == Decayed(a, later)
  {
  }

  /** `MonitorAlert`. */
  datatype Alert = Alert(kind: string, message: string, tsMs: I64)

  /** The alerts of a record in state `state`: one "error" alert carrying its text (or
      "Error detected") for an errored record, none otherwise. */
  function AlertsFor(state: AgentState, lastText: Option<string>, lastTsMs: I64): (r: seq<Alert>)
    ensures |r| == (if state == Error then 1 else 0)
    ensures r != [] ==> r[0] == Alert("error", lastText.GetOr("Error detected"), lastTsMs)
  {
    if state == Error then [Alert("error", lastText.GetOr("Error detected"), lastTsMs)] else []
  }

  /** `MonitorAgentView` without its always-empty `files_touched`. */
  datatype AgentView = AgentView(
    key: string,
    source: string,
    sessionId: string,
    agentId: string,
    displayName: string,
    state: AgentState,
    lastTsMs: I64,
    lastText: Option<string>,
    repoPath: Option<string>,
    alerts: seq<Alert>,
    recentEvents: seq<EventView>)

  /** A view's alerts are the ones its state and text call for. */
  predicate AlertsAgree(v: AgentView) {
    v.alerts == AlertsFor(v.state, v.lastText, v.lastTsMs)
  }

  /** The view the tick sends for record `a` at time `now`. */
  function ViewOf(a: AgentTemp, now: int): (r: AgentView)
    ensures r.key == a.key && r.sessionId == a.sessionId && r.agentId == a.sessionId
    ensures r.lastTsMs == a.lastTsMs && r.repoPath == a.repoPath && r.recentEvents == a.recentEvents
    ensures r.state == Decayed(a, now).state && r.lastText == Decayed(a, now).lastText
    ensures r.source == NormalizeSourceName(a.source)
    ensures r.displayName == FormatAgentDisplayName(a.source, a.sessionId, a.agentName, a.repoPath)
    ensures AlertsAgree(r) && (|r.alerts| == 1 <==> r.state == Error)
  {
    var d := Decayed(a, now);
    AgentView(d.key, NormalizeSourceName(d.source), d.sessionId, d.sessionId,
              FormatAgentDisplayName(d.source, d.sessionId, d.agentName, d.repoPath),
              d.state, d.lastTsMs, d.lastText, d.repoPath,
              AlertsFor(d.state, d.lastText, d.lastTsMs), d.recentEvents)
  }

  /** `map.retain`: records whose source names Claude are dropped unless Claude is enabled. */
  function Retained(m: map<string, AgentTemp>, enableClaude: bool): (r: map<string, AgentTemp>)
    ensures forall k :: k in r <==> k in m && (enableClaude || NormalizeSourceName(m[k].source) != "claude")
    ensures forall k | k in r :: r[k] == m[k]
    ensures KeyedByKey(m) ==> KeyedByKey(r)
  {
    map k | k in m && (enableClaude || NormalizeSourceName(m[k].source) != "claude") :: m[k]
  }

  /** A record after the repository bindings are applied: without a repository path, it
      takes the one bound to its key, if any. */
  function Bound(a: AgentTemp, bindings: map<string, string>): (r: AgentTemp)
    ensures r == a.(repoPath := r.repoPath)
    ensures r.repoPath == (if a.repoPath.Some? then a.repoPath else Lookup(bindings, a.key))
  {
    if a.repoPath.None? && a.key in bindings then a.(repoPath := Some(bindings[a.key])) else a
  }

  /** Every record of `m` after the repository bindings are applied. */
  function WithBindings(m: map<string, AgentTemp>, bindings: map<string, string>): (r: map<string, AgentTemp>)
    ensures r.Keys == m.Keys
    ensures forall k | k in m :: r[k] == Bound(m[k], bindings)
    ensures KeyedByKey(m) ==> KeyedByKey(r)
  {
    map k | k in m :: Bound(m[k], bindings)
  }

  // ----- ordering -----

  /** Newest first, by last activity. */
  predicate NewestFirst(vs: seq<AgentView>) {
    forall i, j | 0 <= i < j < |vs| :: vs[i].lastTsMs >= vs[j].lastTsMs
  }

  /** No two views share a key. */
  predicate DistinctKeys(vs: seq<AgentView>) {
    forall i, j | 0 <= i < j < |vs| :: vs[i].key != vs[j].key
  }

  function KeysOf(vs: seq<AgentView>): set<string> {
    set v | v in vs :: v.key
  }

  /** `v` put in front of the first view that is not newer than it. */
  function Insert(v: AgentView, vs: seq<AgentView>): (r: seq<AgentView>)
    ensures multiset(r) == multiset{v} + multiset(vs)
    ensures r[0] == v || (vs != [] && r[0] == vs[0])
  {
    if vs == [] || vs[0].lastTsMs <= v.lastTsMs then
      [v] + vs
    else
      assert vs == [vs[0]] + vs[1..];
      [vs[0]] + Insert(v, vs[1..])
  }

  lemma {:induction false} InsertNewestFirst(v: AgentView, vs: seq<AgentView>)
    requires NewestFirst(vs)
    ensures NewestFirst(Insert(v, vs))
  {
    if vs != [] && vs[0].lastTsMs > v.lastTsMs {
      InsertNewestFirst(v, vs[1..]);
    }
  }

  lemma KeysOfCons(x: AgentView, vs: seq<AgentView>)
    ensures KeysOf([x] + vs) == {x.key} + KeysOf(vs)
  {
    assert forall y :: y in [x] + vs <==> y == x || y in vs;
  }

  /** The first view's key is not among the others', and the others keep distinct keys. */
  lemma DistinctUncons(vs: seq<AgentView>)
    requires vs != [] && DistinctKeys(vs)
    ensures DistinctKeys(vs[1..]) && vs[0].key !in KeysOf(vs[1..])
  {
    var tail := vs[1..];
    forall j | 0 <= j < |tail| ensures tail[j].key != vs[0].key {
      assert tail[j] == vs[j + 1];
    }
  }

  lemma DistinctCons(x: AgentView, vs: seq<AgentView>)
    requires DistinctKeys(vs) && x.key !in KeysOf(vs)
    ensures DistinctKeys([x] + vs)
  {
    var r := [x] + vs;
    forall i, j | 0 <= i < j < |r| ensures r[i].key != r[j].key {
      assert r[j] == vs[j - 1];
      if i > 0 {
        assert r[i] == vs[i - 1];
      } else {
        assert vs[j - 1] in vs;
      }
    }
  }

  lemma {:induction false} InsertKeys(v: AgentView, vs: seq<AgentView>)
    ensures KeysOf(Insert(v, vs)) == KeysOf(vs) + {v.key}
  {
    if vs == [] || vs[0].lastTsMs <= v.lastTsMs {
      KeysOfCons(v, vs);
    } else {
      var tail := vs[1..];
      InsertKeys(v, tail);
      KeysOfCons(vs[0], Insert(v, tail));
      assert vs == [vs[0]] + tail;
      KeysOfCons(vs[0], tail);
    }
  }

  lemma {:induction false} InsertDistinct(v: AgentView, vs: seq<AgentView>)
    requires DistinctKeys(vs) && v.key !in KeysOf(vs)
    ensures DistinctKeys(Insert(v, vs))
  {
    if vs == [] || vs[0].lastTsMs <= v.lastTsMs {
      DistinctCons(v, vs);
    } else {
      var tail := vs[1..];
      DistinctUncons(vs);
      assert vs == [vs[0]] + tail;
      KeysOfCons(vs[0], tail);
      InsertDistinct(v, tail);
      InsertKeys(v, tail);
      DistinctCons(vs[0], Insert(v, tail));
    }
  }

  /** `agents.sort_by(|a, b| b.last_ts_ms.cmp(&a.last_ts_ms))`: a stable sort, newest first. */
  function SortByRecency(vs: seq<AgentView>): (r: seq<AgentView>)
    ensures multiset(r) == multiset(vs)
    ensures NewestFirst(r)
  {
    if vs == [] then []
    else
      assert vs == [vs[0]] + vs[1..];
      var rest := SortByRecency(vs[1..]);
      InsertNewestFirst(vs[0], rest);
      Insert(vs[0], rest)
  }

  /** Sorting only reorders: the views are the same ones, and views with distinct keys keep
      them. */
  lemma {:induction false} SortByRecencyKeeps(vs: seq<AgentView>)
    ensures forall x :: x in SortByRecency(vs) <==> x in vs
    ensures KeysOf(SortByRecency(vs)) == KeysOf(vs)
    ensures DistinctKeys(vs) ==> DistinctKeys(SortByRecency(vs))
  {
    var r := SortByRecency(vs);
    assert forall x :: x in r <==> x in multiset(r);
    assert forall x :: x in vs <==> x in multiset(vs);
    if vs != [] && DistinctKeys(vs) {
      var tail := vs[1..];
      DistinctUncons(vs);
      SortByRecencyKeeps(tail);
      InsertDistinct(vs[0], SortByRecency(tail));
    }
  }

  // ----- summary -----

  /** `MonitorSummary`; `pr_pending` is always 0. */
  datatype Summary = Summary(total: nat, active: nat, waiting: nat, done: nat, error: nat, prPending: nat, alerts: nat)

  function Count(vs: seq<AgentView>, s: AgentState): nat {
    if vs == [] then 0 else (if vs[0].state == s then 1 else 0) + Count(vs[1..], s)
  }

  function AlertCount(vs: seq<AgentView>): nat {
    if vs == [] then 0 else |vs[0].alerts| + AlertCount(vs[1..])
  }

  /** The summary of a list of views. */
  function Summarize(vs: seq<AgentView>): (r: Summary)
    ensures r.total == |vs| && r.prPending == 0
    ensures r.active == Count(vs, Running) + Count(vs, Thinking)
    ensures r.waiting == Count(vs, Waiting) && r.done == Count(vs, Done) && r.error == Count(vs, Error)
    ensures r.alerts == AlertCount(vs)
  {
    Summary(|vs|, Count(vs, Running) + Count(vs, Thinking), Count(vs, Waiting), Count(vs, Done),
            Count(vs, Error), 0, AlertCount(vs))
  }

  /** Every view is counted under exactly one state: the counts and the idle views make up
      the total. */
  lemma {:induction false} SummaryPartitions(vs: seq<AgentView>)
    ensures var s := Summarize(vs);
      s.total == s.active + s.waiting + s.done + s.error + Count(vs, Idle)
  {
    if vs != [] {
      SummaryPartitions(vs[1..]);
    }
  }

  /** When every view's alerts agree with its state, there is one alert per errored agent. */
  lemma {:induction false} AlertsCountErrors(vs: seq<AgentView>)
    requires forall v | v in vs :: AlertsAgree(v)
    ensures Summarize(vs).alerts == Summarize(vs).error
  {
    if vs != [] {
      assert vs[0] in vs;
      assert forall v | v in vs[1..] :: v in vs;
      AlertsCountErrors(vs[1..]);
      assert AlertCount(vs) == |vs[0].alerts| + AlertCount(vs[1..]);
      assert Count(vs, Error) == (if vs[0].state == Error then 1 else 0) + Count(vs[1..], Error);
    }
  }

  lemma {:induction false} CountInsert(v: AgentView, vs: seq<AgentView>, s: AgentState)
    ensures Count(Insert(v, vs), s) == Count([v], s) + Count(vs, s)
  {
    if vs != [] && vs[0].lastTsMs > v.lastTsMs {
      CountInsert(v, vs[1..], s);
      assert ([vs[0]] + Insert(v, vs[1..]))[1..] == Insert(v, vs[1..]);
    } else {
      assert ([v] + vs)[1..] == vs;
    }
  }

  lemma {:induction false} AlertCountInsert(v: AgentView, vs: seq<AgentView>)
    ensures AlertCount(Insert(v, vs)) == |v.alerts| + AlertCount(vs)
  {
    if vs != [] && vs[0].lastTsMs > v.lastTsMs {
      AlertCountInsert(v, vs[1..]);
      assert ([vs[0]] + Insert(v, vs[1..]))[1..] == Insert(v, vs[1..]);
    } else {
      assert ([v] + vs)[1..] == vs;
    }
  }

  lemma {:induction false} SortKeepsCount(vs: seq<AgentView>, s: AgentState)
    ensures Count(SortByRecency(vs), s) == Count(vs, s)
  {
    if vs != [] {
      SortKeepsCount(vs[1..], s);
      CountInsert(vs[0], SortByRecency(vs[1..]), s);
    }
  }

  lemma {:induction false} SortKeepsAlertCount(vs: seq<AgentView>)
    ensures AlertCount(SortByRecency(vs)) == AlertCount(vs)
  {
    if vs != [] {
      SortKeepsAlertCount(vs[1..]);
      AlertCountInsert(vs[0], SortByRecency(vs[1..]));
    }
  }

  /** The summary does not depend on the order of the views, so sorting does not change it. */
  lemma SortKeepsSummary(vs: seq<AgentView>)
    ensures Summarize(SortByRecency(vs)) == Summarize(vs)
  {
    SortKeepsCount(vs, Running);
    SortKeepsCount(vs, Thinking);
    SortKeepsCount(vs, Waiting);
    SortKeepsCount(vs, Done);
    SortKeepsCount(vs, Error);
    SortKeepsAlertCount(vs);
  }

  // ----- notifications -----

  /** `MonitorNotification`. */
  datatype Notification = Notification(title: string, message: string, kind: string, key: string)

  /** A view is notified when it is done or errored and the previous tick did not already
      see it in that state. */
  predicate Notifies(v: AgentView, prev: map<string, AgentState>) {
    (v.state == Done || v.state == Error) && Lookup(prev, v.key) != Some(v.state)
  }

  /** The notification for a done or errored view. */
  function NotificationFor(v: AgentView): (r: Notification)
    ensures r.key == v.key
    ensures v.state == Error ==> r.title == "Agent error" && r.kind == "error"
    ensures v.state != Error ==> r.title == "Agent done" && r.kind == "done"
    ensures r.message == v.displayName + " - " + v.lastText.GetOr(if v.state == Error then "Error" else "Completed")
  {
    var isError := v.state == Error;
    Notification(if isError then "Agent error" else "Agent done",
                 v.displayName + " - " + v.lastText.GetOr(if isError then "Error" else "Completed"),
                 if isError then "error" else "done",
                 v.key)
  }

  /** The notifications for `vs`, in order. */
  function Notifications(vs: seq<AgentView>, prev: map<string, AgentState>): seq<Notification> {
    if vs == [] then []
    else
      var v := vs[|vs| - 1];
      Notifications(vs[..|vs| - 1], prev) + (if Notifies(v, prev) then [NotificationFor(v)] else [])
  }

  /** The states the next tick compares against: each view's key mapped to its state. */
  function NextStates(vs: seq<AgentView>): map<string, AgentState> {
    if vs == [] then map[]
    else
      var v := vs[|vs| - 1];
      NextStates(vs[..|vs| - 1])[v.key := v.state]
  }

  /** A notification is raised for a view exactly when it is notifiable, and every
      notification belongs to a notifiable view. */
  lemma {:induction false} NotificationsExactly(vs: seq<AgentView>, prev: map<string, AgentState>)
    ensures |Notifications(vs, prev)| <= |vs|
    ensures forall i | 0 <= i < |vs| && Notifies(vs[i], prev) :: NotificationFor(vs[i]) in Notifications(vs, prev)
    ensures forall n | n in Notifications(vs, prev) :: exists i :: 0 <= i < |vs| && Notifies(vs[i], prev) && n == NotificationFor(vs[i])
  {
    if vs != [] {
      var init := vs[..|vs| - 1];
      NotificationsExactly(init, prev);
      assert forall i | 0 <= i < |init| :: init[i] == vs[i];
    }
  }

  /** Every notification carries the key of one of the views. */
  lemma {:induction false} NotificationKeys(vs: seq<AgentView>, prev: map<string, AgentState>)
    ensures forall n | n in Notifications(vs, prev) :: n.key in KeysOf(vs)
  {
    if vs != [] {
      var init := vs[..|vs| - 1];
      NotificationKeys(init, prev);
      assert forall v | v in init :: v in vs;
    }
  }

  /** With distinct view keys no two notifications share a key: at most one per view. */
  lemma {:induction false} NotificationsDistinct(vs: seq<AgentView>, prev: map<string, AgentState>)
    requires DistinctKeys(vs)
    ensures forall i, j | 0 <= i < j < |Notifications(vs, prev)| :: Notifications(vs, prev)[i].key != Notifications(vs, prev)[j].key
  {
    if vs != [] {
      var init := vs[..|vs| - 1];
      var last := vs[|vs| - 1];
      assert DistinctKeys(init);
      NotificationsDistinct(init, prev);
      NotificationKeys(init, prev);
      assert last.key !in KeysOf(init) by {
        forall v | v in init ensures v.key != last.key {
          var i :| 0 <= i < |init| && init[i] == v;
          assert vs[i] == v;
        }
      }
      var ns := Notifications(vs, prev);
      var ni := Notifications(init, prev);
      forall i, j | 0 <= i < j < |ns| ensures ns[i].key != ns[j].key {
        if j >= |ni| {
          assert ns[j] == NotificationFor(last);
          assert ns[i] == ni[i] && ni[i] in ni;
        } else {
          assert ns[i] == ni[i] && ns[j] == ni[j];
        }
      }
    }
  }

  /** The next states hold exactly the keys of the views, each with its view's state. */
  lemma {:induction false} NextStatesExactly(vs: seq<AgentView>)
    requires DistinctKeys(vs)
    ensures NextStates(vs).Keys == KeysOf(vs)
    ensures forall i | 0 <= i < |vs| :: NextStates(vs)[vs[i].key] == vs[i].state
  {
    if vs != [] {
      var init := vs[..|vs| - 1];
      assert DistinctKeys(init);
      NextStatesExactly(init);
      assert vs == init + [vs[|vs| - 1]];
      assert forall i | 0 <= i < |init| :: init[i] == vs[i];
    }
  }

  /** After a tick over `vs`, a view `w` of the next tick notifies exactly when it is done or
      errored and no view of this tick had its key in its state: an agent that stays done or
      errored is announced once. */
  lemma NotifiesNextTick(vs: seq<AgentView>, w: AgentView)
    requires DistinctKeys(vs)
    ensures Notifies(w, NextStates(vs)) <==>
      (w.state == Done || w.state == Error) && !(exists i :: 0 <= i < |vs| && vs[i].key == w.key && vs[i].state == w.state)
  {
    NextStatesExactly(vs);
    if w.key in NextStates(vs) {
      var v :| v in vs && v.key == w.key;
      var i :| 0 <= i < |vs| && vs[i] == v;
      assert NextStates(vs)[w.key] == vs[i].state;
    }
  }
}
