# Pixel Agents desktop monitor: a Dafny model

The Tauri back end of the Pixel Agents desktop app watches coding agents running on the
machine (OpenCode and Codex sessions) and, on every monitor tick, reports one
view per agent session to the window. Each view has a state (idle, thinking, running,
waiting, done, error), its latest text, its recent events and its alerts. The tick also
reports a summary and desktop notifications. This project models how that report is built
in `webview-ui/src-tauri/src/lib.rs`:

- **The agent table.** The scanners write records into a map keyed by
  `"<source>:<session>"`. `upsert_agent` merges a newer record into it. The Codex scanner
  folds each parsed session-log line into its session's record.
  - Modules: `Agents` (records and the merge as functions) and `Table` (the map as a class
    `AgentTable` whose methods update it in place).
- **Classifiers.** `classify_codex_event` and `extract_codex_agent_name` are in module `Codex`.
  The OpenCode part classifier (tool, reasoning, step-start and step-finish parts) is in
  `OpenCode`.
- **The tick.** Each record decays to idle and then done after 20 s and 90 s of silence. It
  gets its error alert and becomes a view. The views are sorted newest first and summed up
  into the summary. Done and error notifications are raised only when the previous tick had
  not already seen the same state for that key.
  - Modules: `Snapshot` (the functions and their lemmas) and `Monitor` (the class
    `MonitorState`, which holds `previous_states`, and its `Tick` method with the tick's loops).
- **Normalisers.**
  - `Epoch`: `normalize_epoch_ms`, with 64-bit integers written out.
  - `Text`: trimming, ASCII lower-casing and `truncate_text`.
  - `Names`: `normalize_agent_name`, `short_session`, `repo_label`,
    `format_agent_display_name` and `normalize_source_name`.

The loops listed below become methods with loop invariants, each proved against a function:
- `truncate_text` and `normalize_agent_name` push characters;
- `string_at` walks a path of keys;
- the Codex line loop;
- the binding loop over `values_mut`;
- the collection of views;
- the notification loop.

The `sort_by` of the views is the function `SortByRecency`, an insertion sort, with its
order and permutation proved.

Iteration over a `HashMap` runs in no fixed order. The model picks the next key with
`:|`, so every proved property holds for any iteration order.

The helper modules are `Wrappers` (`Option`, `Lookup`), `Text` and `Json` (the JSON values
the scanners read, and `string_at`, the path lookup over them).

## Model

| member | source | states |
|---|---|---|
| Agents.Upserted | webview-ui/src-tauri/src/lib.rs:1395-1416 | An unseen key is inserted as given. An older record changes nothing. A record at least as new replaces the stored one but keeps the stored repository path, text and name where it lacks them. Other keys are untouched, the key's latest timestamp never moves back, and every record stays under its own key. |
| Agents.UpsertedIdempotent | webview-ui/src-tauri/src/lib.rs:1395-1416 | Upserting the same record twice is the same as upserting it once. |
| Agents.UpsertedAllMonotone | webview-ui/src-tauri/src/lib.rs:1395-1416 | Over any run of upserts, a key is never lost and its latest timestamp never moves back. |
| Table.AgentTable.Upsert | webview-ui/src-tauri/src/lib.rs:1395-1416 | The in-place merge leaves the map equal to `Upserted` of the old map, and every record stays under its own key. |
| Codex.ClassifyCodexEvent | webview-ui/src-tauri/src/lib.rs:1277-1393 | Over the lower-cased "type payload-type" text, each state has an if-and-only-if condition. Done is a completion phrase. Waiting is an abort phrase, or a user message with no failure phrase. Error is a failure phrase with no completion or abort. Thinking is a reasoning type with no phrase. Idle never occurs. The type is error exactly for the error state, and tool exactly for tool calls and outputs with no phrase. Each branch's values are stated: a completion is (done, status, "Turn completed"), an abort (waiting, status, "Turn aborted"), a failure (error, error, "Codex error"). With no phrase, a payload of type `agent_message` or `message` is running with the record's message, else the payload's, else "Assistant message"; reasoning is "Thinking"; a started task "Task started"; a user message (waiting, message, "Waiting for input"); a tool call "name: running"; a tool output "Tool output"; any other payload type is a running message whose text falls back to the record type. |
| Codex.ExtractCodexAgentName | webview-ui/src-tauri/src/lib.rs:1245-1275 | A name exists exactly for an event_msg user_message whose message (the payload's, else the record's) has a non-blank first line. The name is that first line with its leading and trailing whitespace stripped: non-empty, one line, no outer whitespace. |
| Codex.CodexFolded | webview-ui/src-tauri/src/lib.rs:1211-1239 | One line's effect on a session record. The new event goes first and at most 20 are kept, newest first. The latest timestamp is the maximum. State and text follow the line only when it is not older. A known repository path is never overwritten. A line's agent name replaces a stored one only when the line is not older. |
| Codex.FoldedTable | webview-ui/src-tauri/src/lib.rs:1143-1240 | Folding one line adds exactly its session key and leaves every other key untouched. The key's timestamp never moves back and its known repository path is kept. Its newest event carries the line's timestamp, and records stay under their own keys. The key's new record is `CodexFolded` of the stored record, or of a fresh entry when the key is new, so every `CodexFolded` guarantee holds for it. |
| Codex.FoldedFileKeeps | webview-ui/src-tauri/src/lib.rs:1143-1240 | Across a whole file, a tracked session keeps its key, its timestamp never moves back, its repository path is kept and it holds at most 20 events. |
| Codex.FoldedFileFrame | webview-ui/src-tauri/src/lib.rs:1143-1240 | After a file, the map's keys are the old ones plus exactly the session keys its lines name, and every record is under its own key. |
| Table.AgentTable.FoldCodexRecord | webview-ui/src-tauri/src/lib.rs:1152-1239 | The in-place `or_insert`/update sequence for one line leaves the map equal to `FoldedTable` of the old map. |
| Table.AgentTable.FoldCodexFile | webview-ui/src-tauri/src/lib.rs:1143-1240 | The line loop leaves the map equal to `FoldedFile` of the old map and the lines, where `FoldedFile` applies `FoldedTable` to each line in order. |
| OpenCode.ClassifyPart | webview-ui/src-tauri/src/lib.rs:943-1014 | A part is classified exactly when its type is tool, reasoning, step-start or step-finish, and then always has a text. A tool part is an error exactly when its lower-cased status is "error". It is done exactly when not an error and completed or ended, and running otherwise. Its text is "tool: status" and its time is end, else start, else the file time. The values for reasoning, step-start and step-finish parts are stated exactly. |
| OpenCode.TruncatedOpt | webview-ui/src-tauri/src/lib.rs:1500-1502 | Present exactly when the input is present, at most 183 characters, and unchanged when at most 180. |
| OpenCode.PartIncoming | webview-ui/src-tauri/src/lib.rs:1016-1037 | The upserted record has key "opencode:session", the part's state and time, and the truncated text, which is also its last text (`TruncatedOpt` of the part's text). Its single event matches the part. Its name and repository come from the session maps. |
| OpenCode.PartSessionIdAsWritten | webview-ui/src-tauri/src/lib.rs:934 | The session id as line 934 reads it, a two-key path: found only when the document's `sessionID` field is itself an object. |
| OpenCode.PartSessionId | webview-ui/src-tauri/src/lib.rs:934 | The session id as evidently intended: present exactly when `sessionID` or `sessionId` holds a string, and then the `sessionID` string when there is one, else the `sessionId` string. |
| OpenCode.PlainSessionIdMissed | webview-ui/src-tauri/src/lib.rs:934 | For the document `{"sessionID": id}`, the as-written lookup finds nothing while the intended one finds `id`. |
| Json.Get | webview-ui/src-tauri/src/lib.rs:1573-1579 | A field is found exactly for an object that has the key, and it is that field's value. |
| Json.ValueAtOneKey | webview-ui/src-tauri/src/lib.rs:1573-1579 | A one-key path reads that field. |
| Json.ValueAtTwoKeys | webview-ui/src-tauri/src/lib.rs:1573-1579 | A two-key path finds a value exactly when the first field is an object holding the second key, and that value is the nested field. |
| Json.StringAt | webview-ui/src-tauri/src/lib.rs:1573-1579 | The key-by-key loop, stopping at the first missing key, yields the string at the end of the path, or nothing. |
| Table.AgentTable.FoldOpenCodePart | webview-ui/src-tauri/src/lib.rs:934-1037 | The session id is read as `PartSessionId` (see Findings). A part without a session id, or of another type, leaves the map unchanged. Any other part upserts `PartIncoming` of its classification, using the normalised file time as fallback. |
| Snapshot.Decayed | webview-ui/src-tauri/src/lib.rs:513-531 | Only state and text change. Within 20 s of silence, or when done or errored, nothing changes. A live record silent for 20-90 s becomes idle, with "Thinking" becoming "Idle". A live or idle record silent over 90 s becomes done, with an empty, "Idle" or "Thinking" text becoming "No recent activity". What stays live was heard from within 20 s, and what stays idle within 90 s. |
| Snapshot.DecayedComposes | webview-ui/src-tauri/src/lib.rs:513-531 | Decaying at an earlier time and then at a later one equals decaying at the later one. |
| Snapshot.AlertsFor | webview-ui/src-tauri/src/lib.rs:533-544 | Exactly one alert for an errored record, of kind "error", carrying its text or "Error detected" and its time; none otherwise. |
| Snapshot.ViewOf | webview-ui/src-tauri/src/lib.rs:512-565 | A view carries the record's key, session id (also as agent id), time, repository and events, plus the decayed state and text. Its source is normalised and its display name formatted. It has one alert exactly when it is in error. |
| Snapshot.Retained | webview-ui/src-tauri/src/lib.rs:495-502 | A record is kept exactly when Claude is enabled or its normalised source is not "claude", and kept records are unchanged. |
| Snapshot.WithBindings | webview-ui/src-tauri/src/lib.rs:504-511 | Same keys. Each record takes the path bound to its key only when it has no repository path, and nothing else changes. |
| Monitor.BindRepos | webview-ui/src-tauri/src/lib.rs:504-511 | The loop over the records, taken in any order, yields `WithBindings`. |
| Monitor.CollectViews | webview-ui/src-tauri/src/lib.rs:512-566 | In any iteration order, one view per record with distinct keys that are exactly the map's keys, each view being `ViewOf` its record at `now`. |
| Snapshot.SortByRecency | webview-ui/src-tauri/src/lib.rs:568 | The result is newest first and a permutation (same multiset) of the input. |
| Snapshot.InsertKeys | webview-ui/src-tauri/src/lib.rs:568 | Inserting a view adds exactly its key to the keys present. |
| Snapshot.InsertDistinct | webview-ui/src-tauri/src/lib.rs:568 | Inserting a view whose key is new keeps the keys distinct. |
| Snapshot.SortByRecencyKeeps | webview-ui/src-tauri/src/lib.rs:568 | Sorting keeps the same views and keys, and keys distinct before stay distinct. |
| Snapshot.Summarize | webview-ui/src-tauri/src/lib.rs:570-581 | The total is the view count and active counts running or thinking views. Waiting, done and error count their states, pr_pending is 0, and alerts sums the views' alerts. |
| Snapshot.SummaryPartitions | webview-ui/src-tauri/src/lib.rs:570-581 | Active + waiting + done + error + idle views = total. |
| Snapshot.AlertsCountErrors | webview-ui/src-tauri/src/lib.rs:533-581 | When each view's alerts agree with its state, the alert count equals the error count. |
| Snapshot.SortKeepsSummary | webview-ui/src-tauri/src/lib.rs:568-581 | The summary of the sorted views equals the summary of the unsorted ones. |
| Snapshot.NotificationFor | webview-ui/src-tauri/src/lib.rs:596-623 | An error view gives title "Agent error" and kind "error", any other "Agent done" and "done". The message is "display - text", the text defaulting to "Error" or "Completed". The key is the view's. |
| Snapshot.NotificationsExactly | webview-ui/src-tauri/src/lib.rs:594-625 | `Notifications` lists, in view order, the notification of each notifiable view. There are at most as many notifications as views. Every done or errored view whose key the previous tick did not see in that state is notified. Every notification belongs to such a view. |
| Snapshot.NotificationKeys | webview-ui/src-tauri/src/lib.rs:594-625 | Every notification carries the key of one of the views. |
| Snapshot.NotificationsDistinct | webview-ui/src-tauri/src/lib.rs:594-625 | With distinct view keys, no two notifications share a key: at most one notification per view. |
| Snapshot.NextStatesExactly | webview-ui/src-tauri/src/lib.rs:594-625 | With distinct keys, the states kept for the next tick have exactly the views' keys, each with its view's state. |
| Snapshot.NotifiesNextTick | webview-ui/src-tauri/src/lib.rs:589-625 | After a tick, a later view notifies exactly when it is done or errored and no view of that tick had its key in that state, so a session that stays done or errored is announced once. |
| Monitor.Announce | webview-ui/src-tauri/src/lib.rs:594-625 | The loop over the sorted views yields `Notifications` against the previous states and `NextStates`. |
| Monitor.MonitorState.Tick | webview-ui/src-tauri/src/lib.rs:463-632 | Disabled: an empty snapshot, no notifications, and the previous states are kept. Enabled: one view per retained and bound record with distinct keys, each its decayed view, newest first. The summary is that of the views. Notifications are computed against the previous states, which are then replaced by the views' states. |
| Epoch.NormalizeEpochMs | webview-ui/src-tauri/src/lib.rs:1527-1541 | Non-positive values pass through. Below 10^10 the value is seconds, times 1000. Up to 10^13 it is already milliseconds. Above 10^13 it is microseconds and above 10^16 nanoseconds, and the result is the whole number of milliseconds. Every positive value lands in [1000, 10^13]. |
| Epoch.NormalizeEpochMsSettles | webview-ui/src-tauri/src/lib.rs:1527-1541 | From 10^7 on, normalising twice is normalising once. |
| Epoch.NormalizeEpochMsRescalesSmallSeconds | webview-ui/src-tauri/src/lib.rs:1527-1541 | Below that, every positive value is taken as seconds twice: normalising once multiplies it by 1000 and twice by 1000000 (1 becomes 1000 and then 1000000). |
| Text.TruncateText | webview-ui/src-tauri/src/lib.rs:1504-1517 | The loop yields `Truncated` of the text: a text of at most 180 characters is returned unchanged, and a longer one becomes its first 180 characters followed by "...". |
| Text.TruncatedIdempotent | webview-ui/src-tauri/src/lib.rs:1504-1517 | Truncating a truncated text changes nothing. |
| Names.Collapse | webview-ui/src-tauri/src/lib.rs:1611-1615 | Words are joined by single spaces with no outer whitespace, and the result is empty exactly for a blank input. |
| Names.CollapseKeepsWords | webview-ui/src-tauri/src/lib.rs:1611-1615 | The collapsed name has the same words, in the same order, as the input. |
| Names.WordsInterleave | webview-ui/src-tauri/src/lib.rs:1611-1615 | The input is exactly its whitespace gaps interleaved with its words, so the words lose no visible character. |
| Names.GapsSpacing | webview-ui/src-tauri/src/lib.rs:1611-1615 | Every gap is whitespace only and every gap between two words is non-empty, so the words are maximal. |
| Names.CollapseIdempotent | webview-ui/src-tauri/src/lib.rs:1611-1615 | Collapsing a collapsed name changes nothing. |
| Names.NormalizedAgentName | webview-ui/src-tauri/src/lib.rs:1610-1631 | None exactly for a blank name; otherwise non-empty and at most 59 characters. |
| Names.NormalizedAgentNameShape | webview-ui/src-tauri/src/lib.rs:1610-1631 | A collapsed name of at most 56 characters is returned as is. A longer one keeps its first 56 characters followed by "...". |
| Names.CapName | webview-ui/src-tauri/src/lib.rs:1620-1629 | Pushing at most 56 characters, then "..." when the name was longer, yields the capped name `CappedName`: the name itself when short, its first 56 characters and "..." otherwise. |
| Names.NormalizeAgentName | webview-ui/src-tauri/src/lib.rs:1610-1631 | Returns nothing for a blank name and the capped collapsed name otherwise, which is exactly `NormalizedAgentName`. |
| Names.ShortSession | webview-ui/src-tauri/src/lib.rs:1606-1608 | A prefix of the session id, eight characters long or the whole id when shorter. |
| Names.FileName | webview-ui/src-tauri/src/lib.rs:1638-1642 | A last path component is non-empty, contains no '/', and is neither "." nor "..". |
| Names.FileNameIsLastComponent | webview-ui/src-tauri/src/lib.rs:1638-1642 | When present, the file name is the path's last component, ignoring trailing '/' and "." components. When absent, the path is only '/' and "." components, or its last such component is "..". |
| Names.RepoLabel | webview-ui/src-tauri/src/lib.rs:1633-1648 | The label is non-empty and trimmed, and there is none for a blank path. |
| Names.RepoLabelIsComponent | webview-ui/src-tauri/src/lib.rs:1633-1648 | When the trimmed path has a file name, the label is that name with its outer whitespace stripped, and absent exactly when the name is blank. When it has none, the label is the trimmed path itself. |
| Names.NormalizeSourceName | webview-ui/src-tauri/src/lib.rs:634-654 | The Claude aliases give "claude", the OpenCode aliases "opencode" and "codex" gives "codex", after trimming and lower-casing. Any other source is returned unchanged, untrimmed and in its own case. |
| Names.NormalizeSourceNameIdempotent | webview-ui/src-tauri/src/lib.rs:634-654 | Normalising a normalised source changes nothing. |
| Names.FormatAgentDisplayName | webview-ui/src-tauri/src/lib.rs:1650-1667 | The result is "source: " followed by at most 59 characters. A usable agent name wins. Without one, a repository label gives "source: " and the normalised label. With neither, the short session id is used. |

## Left out

- Reading files and databases is outside the model:
  - walking the session directories and reading file tails;
  - the OpenCode SQLite queries and JSON parsing, and splitting a tail into lines;
  - skipping blank or unparsable lines;
  - file modification times.
  - The scanners' outputs are inputs instead: parsed records (`CodexRecord`,
    `PartRecord`), the fallback session id taken from the file name, and the file time.
  - `parse_session_from_filename` (a regular expression) and the session name and
    repository maps (`load_opencode_session_*`) are therefore not part of this model.
  - The session repository map reads `projectID` through the same two-key path as
    line 934 (line 1067), so it has the defect described under Findings; that loader is
    not part of this model.
  - Of a part file's JSON document, the model keeps the session-id fields (as a `Json.Value`)
    and the parsed `PartRecord`.
- The settings file, the repository-bindings file and the clock are parameters of a tick.
  - `enable_opencode` and `enable_codex` only choose which scanners fill the map `Tick`
    receives.
- The Rust `Mutex` around `previous_states` is a plain field of `MonitorState`.
  - A poisoned lock ("state lock failed") is not modelled.
- The OpenCode row builders are not part of this model: the session row (lines 692-717) and
  the message-file record (lines 876-915).
  - The database part classifier (lines 750-823) is the same as the part-file one apart
    from its fallback time, so `ClassifyPart` takes that time as a parameter.
- `to_lowercase` and `char::is_whitespace` are modelled for ASCII only.
  - Non-ASCII letters are not lower-cased.
  - Non-ASCII whitespace is not treated as whitespace.
- `Path::file_name` is modelled for '/'-separated paths.
- Snapshot.Decayed: the silence `now - last_ts_ms` is computed without 64-bit overflow,
  which differs only for timestamps near the limits of `i64`.
- `files_touched` is always empty in the source and is not modelled.
- The rest of `lib.rs` is not part of this model:
  - layout, seat, sound and demo settings;
  - picture-in-picture;
  - agent launch;
  - dialogs;
  - opening paths and URLs.

## Findings

| source | as written | input that shows it | evidently intended | confidence | as-written member | corrected member |
|---|---|---|---|---|---|---|
| webview-ui/src-tauri/src/lib.rs:934 | `string_at(&value, &["sessionID", "sessionId"])` walks a path, reading `sessionId` inside the `sessionID` field, so a string `sessionID` gives no id and the part file is skipped | a part document `{"sessionID": "ses_1", "type": "tool", ...}` | read the `sessionID` field, else the `sessionId` field | not executed | OpenCode.PartSessionIdAsWritten, OpenCode.PlainSessionIdMissed | OpenCode.PartSessionId |
