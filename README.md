# Firewall alert dashboard — a verified model

This project models the alert pipeline of a firewall-monitoring dashboard, in Dafny.

- **Backend watcher** (`backend/integrated_watcher.py`):
  - classifies each new log line with an ordered table of substring patterns;
  - extracts the firewall id from the line;
  - numbers each alert with a global counter and files it under a category;
  - broadcasts the alert to the dashboards and answers their messages.
- **Browser client**:
  - keeps one feed connection (`websocket.ts`), with a reconnect timer and a set of message handlers;
  - reconciles the alert list (`App.tsx`) from live alerts and from a history reply, enriching records with an explanation;
  - shows the list deduplicated, reversed and capped at 50 (`LogHistory.tsx`);
  - drives each card's apply / acknowledge / error flags (`request.tsx`);
  - derives the explanation pair from a language-model reply or a canned fallback (`llmExplanation.ts`);
  - renders the filter panel (`LogFilter.tsx`) and the statistics (`LogStats.tsx`, `Analytics.tsx`).

The model takes the form of the source.

- Module state that event handlers update becomes a class with `modifies` clauses:
  - the connection (`Transport.Connector`);
  - the dashboard component (`Reconciler.Dashboard`);
  - a card (`ActionCard.RequestCard`);
  - the watcher's counter and broadcast log (`Watcher.Watcher`).
- Loops that fill a container become methods with invariants, each proved equal to a specification function:
  - the Map loop of the history view (`History.DisplayedRequests`);
  - the counting `reduce` of the analytics panel (`Stats.AttackTypes`).
- Pure expressions become functions, with lemmas relating them to independent properties.

Modules:

| module | file | models |
|---|---|---|
| `Text` | text.dfy | substring search, `split`/`join`, `trim`/`strip`, `split()[0]`, case mapping |
| `Alert` | alert.dfy | the alert record, the feed messages, index sets |
| `Transport` | transport.dfy | `frontend/src/lib/websocket.ts` |
| `Reconciler` | reconciler.dfy | `frontend/src/App.tsx` |
| `History` | history.dfy | `frontend/src/components/LogHistory.tsx` |
| `ActionCard` | actioncard.dfy | `frontend/src/components/request.tsx` |
| `Enrichment` | enrichment.dfy | `frontend/src/lib/llmExplanation.ts` |
| `Watcher` | watcher.dfy | `backend/integrated_watcher.py` |
| `Filters` | filters.dfy | `frontend/src/components/LogFilter.tsx` |
| `Stats` | stats.dfy | `frontend/src/components/LogStats.tsx`, `frontend/src/components/Analytics.tsx` |
| `Pipeline` | pipeline.dfy | how the watcher's actual output meets the client |

### Inputs

These are parameters, not code:
- the language-model reply: `Option<string>`, None when the call throws or the status is not OK;
- `JSON.parse` with its field reads: a function `string -> Option<ParsedReply>`;
- `new Date(text)`: a function `string -> int`;
- the current time (`now`), and each card's age in milliseconds.

The environment calls these events as methods:
- socket open, close and frame arrival;
- a timer firing;
- the one-second connection poll.

### Behaviour the model states about the source as written

- **Shadowed patterns.** "xss pattern" and "unauthorized endpoint" are never the first match, because "xss" and "unauthorized" come earlier in the table (`Watcher.XssPatternShadowed`, `Watcher.UnauthorizedEndpointShadowed`).
- **A trailing "fw-" loses the alert.** On a comma-free line whose first "fw-" is followed only by whitespace or nothing, the firewall extraction raises IndexError. This happens before any pattern is tried, and the worker swallows the exception, so no alert is sent (`Watcher.FwAtEndRaises`).
- **No `raw_log` from the watcher.** The watcher never sends a `raw_log`, so neither client path ever asks the language model about a watcher alert (`Pipeline.BackendAlertsNotEnriched`).
- **History requests go unanswered.** The watcher never answers `get_all_logs`. A history load therefore never completes, and the history button stays disabled (`Watcher.HistoryRequestUnanswered`, `Pipeline.HistoryLoadNeverCompletes`).
- **No failure reports.** The watcher never sends `fix_error`, so a card's error flag only comes from a rejected send (`Watcher.RepliesAreAcknowledgements`, `Pipeline.NoReplyReportsFailure`).
- **Cards are never removed.** `LogHistory` passes no `onRemoveRequest`, so a card's removal timer removes nothing (`ActionCard.ApplyThenAcknowledge`).
- **The two enrichment paths disagree.** A live alert's existing explanation is overwritten; the same record in a history reply keeps it (`Reconciler.PathsDisagree`).
- **Severity case.** The statistics and the card colour lower-case the severity, so "ÉLEVÉ" counts as high and shows red. The filter panel only colours its own three lower-case levels, and no component filters records by the selected severities (`Pipeline.CapitalisedSeverity`, `Filters.SeverityBadges`).
- **Stale socket callbacks.** Socket callbacks do not check which socket fired:
  - the late close of a replaced socket hides the open one (`Transport.StaleCloseHidesOpenSocket`);
  - the close caused by `disconnectWebSocket` still arms a reconnect (`Transport.DisconnectStillReconnects`).
- **Deduplication keeps the first occurrence in list order.** The comment above the Map loop says it keeps the latest occurrence, but the loop keeps the first record with each index in the list (`History.EarlierDuplicateWins`). Live alerts are put in front of the list, so the first in the list is the latest to arrive. The live path never admits an index already listed (`Reconciler.Accept`), and the history merge drops reply records whose index is already listed (`Reconciler.Merge`). So duplicates only come from within one history reply (`Reconciler.MergeKeepsReplyDuplicates`), and of those the one earlier in the reply is shown, whatever its age.

## Model

| member | source | states |
|---|---|---|
| Text.IndexOf | backend/integrated_watcher.py:225 | the position returned holds the pattern and no earlier position does; None exactly when no position holds it |
| Text.JoinSplit | backend/integrated_watcher.py:214 | joining the pieces of a split with the separator gives the text back |
| Text.SplitPiecesFree | backend/integrated_watcher.py:218 | no piece of a split contains the separator |
| Text.SplitAtChar | backend/integrated_watcher.py:214-216 | with a comma-free prefix, the first comma field is that prefix and the second starts after its comma |
| Text.SplitLeftmost | backend/integrated_watcher.py:214-216 | the first piece of a split ends at the leftmost occurrence of the separator, where one occurs and none earlier, and the other pieces are the split of the rest after it |
| Text.FirstWord | backend/integrated_watcher.py:220 | `split()[0]` is missing (IndexError) exactly when the text is all whitespace; otherwise it is the non-empty slice of the text that starts right after the leading spaces, holds no space, and ends at a space or at the end of the text |
| Text.LeadingSpaces | backend/integrated_watcher.py:220 | the leading run of spaces: every character before the cut is a space, and the character at the cut is not |
| Text.Trim | frontend/src/lib/llmExplanation.ts:66 | the trimmed text is the slice of the text after its leading spaces, followed in the text only by spaces; it starts and ends with a non-space character, or is empty |
| Text.TrimIdempotent | frontend/src/lib/llmExplanation.ts:75 | trimming an already trimmed text changes nothing |
| Text.LowerIdempotent | backend/integrated_watcher.py:209 | lower-casing twice is lower-casing once |
| Text.LowerUpper | backend/integrated_watcher.py:209 | lower-casing an upper-cased text gives the lower-cased text |
| Alert.HasIndex | frontend/src/App.tsx:110 | the `some(r => r.index === i)` test and membership in the index Set agree |
| Transport.Dispatch | frontend/src/lib/websocket.ts:38-44 | handlers are called in insertion order; delivery stops right after the first handler that throws, and reaches all of them when none throws |
| Transport.RemoveHandler | frontend/src/lib/websocket.ts:101-103 | `delete` removes exactly that handler and keeps the others; deleting an absent handler changes nothing |
| Transport.RemoveHandlerAt | frontend/src/lib/websocket.ts:101-103 | deleting a handler registered once leaves the handlers before it followed by the handlers after it, in their order |
| Transport.RemoveKeepsDistinct | frontend/src/lib/websocket.ts:13 | the handler Set stays duplicate-free after a delete |
| Transport.Connector.constructor | frontend/src/lib/websocket.ts:2-13 | no socket, no timer and no handlers at load time |
| Transport.Connector.PendingTimers | frontend/src/lib/websocket.ts:51-61 | at most one reconnect timer is ever pending (kept by every method as part of `Valid`) |
| Transport.Connector.Connect | frontend/src/lib/websocket.ts:15-22 | a no-op while the current socket is open; otherwise a new connecting socket replaces the current one, and nothing else changes |
| Transport.Connector.OnOpen | frontend/src/lib/websocket.ts:24-30 | the socket becomes open, a pending timer is cancelled and `reconnectTimeout` becomes null |
| Transport.Connector.OnClose | frontend/src/lib/websocket.ts:51-61 | `socket` becomes null; a timer to the same url is armed only when no timer id is recorded |
| Transport.Connector.FireReconnectTimer | frontend/src/lib/websocket.ts:57-59 | the timer reconnects to its url and leaves its own id in `reconnectTimeout` |
| Transport.Connector.FireReconnectTimerFixed | frontend/src/lib/websocket.ts:57-59 | the corrected callback: same reconnect, and `reconnectTimeout` becomes null |
| Transport.Connector.OnMessage | frontend/src/lib/websocket.ts:32-45 | a malformed frame reaches no handler; a parsed one reaches the dispatched handlers in order |
| Transport.Connector.Send | frontend/src/lib/websocket.ts:81-95 | rejects exactly when there is no open current socket; otherwise the message is sent once, on that socket |
| Transport.Connector.Subscribe | frontend/src/lib/websocket.ts:97-99 | adds the handler at the end unless it is already registered |
| Transport.Connector.Unsubscribe | frontend/src/lib/websocket.ts:100-103 | the returned function removes exactly that handler |
| Transport.Connector.Disconnect | frontend/src/lib/websocket.ts:67-79 | no timer, no socket, no handlers, and `isWebSocketConnected` is false; an open or connecting socket starts closing |
| Transport.FailedReconnectStalls | frontend/src/lib/websocket.ts:56-59 | after a reconnect attempt that closes before opening, no timer is pending and the client stays disconnected |
| Transport.FixedReconnectRetries | frontend/src/lib/websocket.ts:56-59 | with the corrected callback, the failed attempt arms a new timer to the same url |
| Transport.DropReconnectsOnce | frontend/src/lib/websocket.ts:51-59 | a dropped connection is followed by exactly one new socket, to the same url |
| Transport.DisconnectStillReconnects | frontend/src/lib/websocket.ts:67-79 | the close event caused by a disconnect arms a reconnect timer |
| Transport.StaleCloseHidesOpenSocket | frontend/src/lib/websocket.ts:51-53 | the late close of a replaced socket makes the client report itself disconnected and refuse to send, although the newer socket is open |
| Transport.SubscriptionIsASet | frontend/src/lib/websocket.ts:97-104 | a handler registered twice is called once per frame, and not at all after unsubscribing |
| Reconciler.Explain | frontend/src/App.tsx:98-102 | the enrichment call yields two non-empty fields, except for a bug type named like an inherited object property, which yields two missing fields |
| Reconciler.Exclude | frontend/src/App.tsx:19 | the filter keeps exactly the records whose index is not excluded, and changes nothing when no index is excluded |
| Reconciler.IndicesExclude | frontend/src/App.tsx:51 | filtering removes exactly the excluded indices |
| Reconciler.ExcludeAppend | frontend/src/App.tsx:19 | the filter distributes over concatenation, so the kept records stay in order |
| Reconciler.ExcludeUnique | frontend/src/App.tsx:51 | filtering keeps distinct indices distinct |
| Reconciler.RemoveRequestSpec | frontend/src/App.tsx:18-20 | `removeRequest(i)` drops every record with index i, keeps every other, and is idempotent |
| Reconciler.Accept | frontend/src/App.tsx:108-117 | the list is unchanged exactly when the index is present; otherwise the record is put in front of the unchanged list; unique indices stay unique |
| Reconciler.AcceptAllUnique | frontend/src/App.tsx:108-117 | from a duplicate-free list, any run of live alerts keeps indices unique and holds exactly the old and new indices |
| Reconciler.Merge | frontend/src/App.tsx:49-53 | the old list unchanged, followed by exactly the reply records whose index is not in it, in reply order; the indices are the union of both |
| Reconciler.MergeUnique | frontend/src/App.tsx:49-53 | a distinct list and a distinct reply merge into a distinct list |
| Reconciler.MergeIntoEmpty | frontend/src/App.tsx:49-53 | a reply merged into an empty list is taken whole |
| Reconciler.MergeKeepsReplyDuplicates | frontend/src/App.tsx:49-53 | records inside one reply are not deduplicated against each other |
| Reconciler.WithExplanation | frontend/src/App.tsx:42 | only the two text fields change, and they take the pair's values |
| Reconciler.EnrichHistory | frontend/src/App.tsx:33-46 | records without a raw log or a bug type, or with an explanation, pass unchanged; the others get the enrichment pair and nothing else changes; indices are kept; a record with a raw log and an ordinary bug type ends with an explanation |
| Reconciler.HistoryExplained | frontend/src/App.tsx:35-44 | after the history path every record with a raw log and a bug type not named like an inherited property has a non-empty explanation |
| Reconciler.PrepareLive | frontend/src/App.tsx:90-105 | a text timestamp becomes a Date and a Date is kept; with a raw log and a bug type both fields are overwritten; only those fields change |
| Reconciler.PathsDisagree | frontend/src/App.tsx:95-105 | a live alert's existing explanation is overwritten while the same record in a history reply keeps it |
| Reconciler.Dashboard.constructor | frontend/src/App.tsx:69-85 | mounting connects to the url and registers only the live handler |
| Reconciler.Dashboard.Poll | frontend/src/App.tsx:76-82 | `wsConnected` takes the value of `isWebSocketConnected()` |
| Reconciler.Dashboard.RemoveRequest | frontend/src/App.tsx:18-20 | the list becomes the filter of the old list |
| Reconciler.Dashboard.OnLiveMessage | frontend/src/App.tsx:85-119 | runs only while the live handler is registered; a `new_request` with data is prepared and accepted; every other message leaves the list alone |
| Reconciler.Dashboard.LoadAllHistory | frontend/src/App.tsx:22-66 | sets loading, registers a new history handler and sends `get_all_logs`; a rejected send leaves loading set |
| Reconciler.Dashboard.OnHistoryMessage | frontend/src/App.tsx:26-62 | runs only while this history handler is registered; a reply with logs is enriched and merged; a reply or an error clears loading and unregisters exactly this handler; other messages change nothing |
| Reconciler.HistoryLoadIsOneShot | frontend/src/App.tsx:22-66 | on an open connection the button is enabled, the load disables it, and the reply ends the load, unregisters the handler and shows the reply |
| Reconciler.HistoryReplyDelivered | frontend/src/lib/websocket.ts:32-45 | after a load on an open connection, the reply frame is handed to the live handler and then to the history handler, once each and in that order |
| Reconciler.HistoryLoadWhileDisconnected | frontend/src/App.tsx:22-66 | a load while disconnected is rejected, and the flag and the handler stay |
| Reconciler.HistoryIgnoresLiveAlerts | frontend/src/App.tsx:26-62 | a live alert reaching the history handler changes neither the flag, the subscription nor the list |
| History.FirstsIndices | frontend/src/components/LogHistory.tsx:15-20 | the Map has a key for every index of the list and no other |
| History.FirstsUnique | frontend/src/components/LogHistory.tsx:15-20 | the Map's values have distinct indices |
| History.FirstsFromList | frontend/src/components/LogHistory.tsx:15-20 | every value of the Map is a record of the list |
| History.FirstsKeepsFirst | frontend/src/components/LogHistory.tsx:16-19 | the first record with each index is kept |
| History.FirstsOnlyFirst | frontend/src/components/LogHistory.tsx:16-19 | every kept record is the first in the list with its index |
| History.FirstsCount | frontend/src/components/LogHistory.tsx:15-20 | the Map holds one record per distinct index |
| History.FirstsOfUnique | frontend/src/components/LogHistory.tsx:15-20 | a list without repeated indices passes the Map unchanged |
| History.ReverseKeeps | frontend/src/components/LogHistory.tsx:24 | reversal keeps the records and their distinct indices |
| History.ReverseInvolutive | frontend/src/components/LogHistory.tsx:24 | reversing twice gives the list back, and reversal is a permutation |
| History.DisplayedRequests | frontend/src/components/LogHistory.tsx:13-28 | the Map loop, reversal and cut compute the view: first records per index, reversed, at most 50 |
| History.ViewProperties | frontend/src/components/LogHistory.tsx:15-25 | no two cards share an index; each card is the first input record with its index; there are min(50, distinct indices) cards |
| History.ViewEmpty | frontend/src/components/LogHistory.tsx:44 | the empty-state message shows exactly when the list is empty |
| History.EarlierDuplicateWins | frontend/src/components/LogHistory.tsx:14-19 | of two records with one index, the one earlier in the list is displayed |
| History.NewestAlertHidden | frontend/src/components/LogHistory.tsx:22-25 | with 50 alerts listed, a new live alert is not displayed |
| History.NewestAlertShown | frontend/src/components/LogHistory.tsx:22-25 | with the latest-first view, a new live alert is the first card |
| ActionCard.Receive | frontend/src/components/request.tsx:19-28 | `fix_applied` for this index gives applied only; `fix_error` for it stops applying and sets error, keeping applied; every other message changes no flag |
| ActionCard.StartApply | frontend/src/components/request.tsx:50-52 | applying is set and error cleared; both buttons become disabled |
| ActionCard.SendFailed | frontend/src/components/request.tsx:67-71 | error is set and applying cleared, applied is kept |
| ActionCard.FailedSendReenables | frontend/src/components/request.tsx:524-531 | from an enabled button, a rejected send re-enables it while showing the error |
| ActionCard.RequestCard.constructor | frontend/src/components/request.tsx:17-33 | mounting a card registers its handler with idle flags |
| ActionCard.RequestCard.OnFeedMessage | frontend/src/components/request.tsx:19-28 | runs only while the card's handler is registered on the connection; the flags follow `Receive`; pending removals are unchanged |
| ActionCard.RequestCard.HandleApply | frontend/src/components/request.tsx:50-72 | a successful send sends `apply_fix` once and schedules one removal before any answer; a rejected send marks the error and schedules none |
| ActionCard.RequestCard.FireRemovalTimer | frontend/src/components/request.tsx:64-66 | removal of this card's index is requested exactly when a callback was passed |
| ActionCard.ApplyThenAcknowledge | frontend/src/components/request.tsx:63-66 | under the history list: the removal is scheduled at send time; another card's acknowledgement leaves it applying; its own marks it applied; nothing is removed |
| ActionCard.ApplyWhileDisconnected | frontend/src/components/request.tsx:67-71 | applying while disconnected shows the error, schedules nothing and re-enables the button |
| ActionCard.RelativeTime | frontend/src/components/request.tsx:85-94 | floor divisions; the unit is s, m, h or j exactly for ages under 60 s, 60 min, 24 h, or more; the amount is the floor of age over the unit |
| ActionCard.FutureTimestamp | frontend/src/components/request.tsx:86 | a timestamp 1.5 s in the future reads as -2 seconds (floor) |
| ActionCard.DigitsRoundTrip | frontend/src/components/request.tsx:91-94 | the digits shown in the label read back as the amount |
| ActionCard.AgeLabelDetermines | frontend/src/components/request.tsx:91-94 | two ages with the same label are equal: the amount is read back from its digits and the unit from its letter |
| ActionCard.DecimalInjective | frontend/src/components/request.tsx:91-94 | distinct amounts, negative ones included, are written differently |
| ActionCard.NinetySeconds | frontend/src/components/request.tsx:91-92 | ninety seconds read "Il y a 1m" |
| ActionCard.SeverityTone | frontend/src/components/request.tsx:74-80 | red exactly for "élevé", yellow exactly for "moyen", green for anything else, after lower-casing |
| ActionCard.TonesDistinct | frontend/src/components/request.tsx:74-80 | each tone has its own border colour and its own badge |
| ActionCard.SeverityCaseInsensitive | frontend/src/components/request.tsx:74-80 | capitalised severities get the same colour; an unknown level is green |
| Enrichment.StripJsonFenceRule | frontend/src/lib/llmExplanation.ts:74-75 | with "```json" in the reply, the text after its first occurrence is cut at the first "```" in it, unless that "```" overlaps the next "```json", in which case it is cut where that "```json" begins (to the end when neither occurs); the cut text is trimmed |
| Enrichment.StripJsonFenceClosed | frontend/src/lib/llmExplanation.ts:74-75 | when a "```" follows the opening "```json" and no "```json" starts one or two characters after it, the body is the trimmed text up to that "```" |
| Enrichment.StripPlainFenceRule | frontend/src/lib/llmExplanation.ts:76-77 | with "```" in the reply and no "```json", the body is the trimmed text between the first "```" and the next one, or to the end when none follows |
| Enrichment.UnfencedUnchanged | frontend/src/lib/llmExplanation.ts:73-79 | a reply without fences is parsed as it is |
| Enrichment.ReplyPair | frontend/src/lib/llmExplanation.ts:80-92 | the reply is used exactly when it parses and both fields are truthy, and then its fields are used unchanged |
| Enrichment.GenerateExplanation | frontend/src/lib/llmExplanation.ts:9-98 | total; the fallback without a key, without a reply, or without a usable pair; the reply's pair otherwise |
| Enrichment.NoKeyNoRequest | frontend/src/lib/llmExplanation.ts:14-17 | without an API key the reply plays no part |
| Enrichment.FencedReplyStripped | frontend/src/lib/llmExplanation.ts:66-79 | a reply fenced as ```json … ``` is parsed as the trimmed body |
| Enrichment.ParsedPairUsed | frontend/src/lib/llmExplanation.ts:80-87 | with a key, two non-empty parsed fields are returned as they are |
| Enrichment.FencedReplyUsed | frontend/src/lib/llmExplanation.ts:66-87 | a fenced reply whose body parses to a pair gives that pair |
| Enrichment.GenericExplanation | frontend/src/lib/llmExplanation.ts:135-138 | the generic explanation names the bug type right after its fixed 16-character opening, with the fixed generic fix |
| Enrichment.Fallback | frontend/src/lib/llmExplanation.ts:103-139 | two non-empty fields for every bug type except one named like an inherited object property (`constructor`, `toString`, …), whose table lookup yields a function and so two missing fields |
| Enrichment.UnknownCategoryNamed | frontend/src/lib/llmExplanation.ts:135-138 | a category outside the table gets the generic message, which contains its name, unless it is named like an inherited property, which gets no text |
| Enrichment.KnownCategoriesDistinct | frontend/src/lib/llmExplanation.ts:104-133 | each of the seven known categories has its own pair, never the generic fix |
| Enrichment.SqlInjectionFallback | frontend/src/lib/llmExplanation.ts:60-63 | with the endpoint failing, "sql_injection" gets its own canned pair |
| Watcher.FirstMatch | backend/integrated_watcher.py:224-225 | the pattern returned is the first whose key occurs; None exactly when no key occurs |
| Watcher.ExtractFirewall | backend/integrated_watcher.py:211-221 | a line with a comma yields the trimmed text between its first and second commas (or to the end); IndexError only on comma-free lines holding "fw-"; the default on lines with neither |
| Watcher.CsvFirewall | backend/integrated_watcher.py:213-216 | a line whose first field has no comma yields the trimmed second field, the whole rest when it has no further comma |
| Watcher.CsvFirewallFields | backend/integrated_watcher.py:213-216 | a line laid out as timestamp, firewall, further fields yields the trimmed firewall field |
| Watcher.FwTokenFirewall | backend/integrated_watcher.py:217-221 | a comma-free line: "FW-" and the upper-cased word after the first "fw-", or IndexError when there is no word |
| Watcher.FwAtEndRaises | backend/integrated_watcher.py:218-220 | a comma-free line ending in its first "fw-" raises IndexError, whatever attack it reports |
| Watcher.LocalModelAnalyze | backend/integrated_watcher.py:209-235 | raises exactly when the extraction does; no alert exactly when no key occurs in the lower-cased line; an alert copies the fields of the first matching pattern in table order and the extracted firewall id |
| Watcher.PatternWellFormed | backend/integrated_watcher.py:128-207 | every table entry has a known severity, a bug type the category table files outside "Validation", and non-empty texts |
| Watcher.AlertFields | backend/integrated_watcher.py:226-233 | every alert carries a bug type, explanation and fix proposal, and a severity in {élevé, moyen, faible} |
| Watcher.XssPatternShadowed | backend/integrated_watcher.py:141-152 | the "xss pattern" entry is never the first match |
| Watcher.UnauthorizedEndpointShadowed | backend/integrated_watcher.py:195-206 | the "unauthorized endpoint" entry is never the first match |
| Watcher.CaseInsensitivePatterns | backend/integrated_watcher.py:209 | an upper-cased or already lower-cased line is classified like the line itself |
| Watcher.Category | backend/integrated_watcher.py:271 | "Validation" without a truthy bug type; the table's category for a known one; "Sécurité" for an unknown one |
| Watcher.ClassifiedRecord | backend/integrated_watcher.py:265-282 | a classifier alert is filed under its bug type's category, never "Validation", and keeps its severity and firewall id |
| Watcher.Watcher.constructor | backend/integrated_watcher.py:33 | the counter starts at 1, with nothing broadcast |
| Watcher.Watcher.SendRequest | backend/integrated_watcher.py:261-292 | the alert takes the counter as its index, the counter goes up by 1, and one record is broadcast; the indices broadcast stay strictly increasing |
| Watcher.Watcher.ProcessLine | backend/integrated_watcher.py:347-367 | an alert is sent exactly when the classifier detects one; no alert and the swallowed IndexError change nothing |
| Watcher.Watcher.OnClientMessage | backend/integrated_watcher.py:72-104 | the reply, when there is one, is broadcast; the counter is unchanged |
| Watcher.IssuedDistinct | backend/integrated_watcher.py:274-284 | no two broadcast alerts share an index |
| Watcher.HandleClientMessage | backend/integrated_watcher.py:72-104 | a reply exactly for an `apply_fix` whose data is absent or an object; it echoes request_index and firewall_id; no reply otherwise, on invalid JSON included |
| Watcher.ApplyFixAcknowledged | backend/integrated_watcher.py:78-97 | an apply request from a card is acknowledged with its own index and firewall |
| Watcher.HistoryRequestUnanswered | backend/integrated_watcher.py:98-99 | `get_all_logs` gets no reply |
| Watcher.RepliesAreAcknowledgements | backend/integrated_watcher.py:72-104 | every reply is a `fix_applied` |
| Filters.WithoutProperties | frontend/src/components/LogFilter.tsx:32 | the filter drops every occurrence of the value and keeps every other as often as it occurs |
| Filters.WithoutAppend | frontend/src/components/LogFilter.tsx:32 | the filter distributes over concatenation, so the kept values stay in order |
| Filters.WithoutAbsent | frontend/src/components/LogFilter.tsx:32 | filtering out an absent value changes nothing |
| Filters.Toggle | frontend/src/components/LogFilter.tsx:31-33 | the value is present afterwards exactly when it was absent; an absent one is appended at the end; other values keep their counts |
| Filters.ToggleTwice | frontend/src/components/LogFilter.tsx:31-33 | toggling an absent value twice gives the original list |
| Filters.ToggleSeverity | frontend/src/components/LogFilter.tsx:30-36 | only the severity list changes, by the toggle |
| Filters.ToggleType | frontend/src/components/LogFilter.tsx:38-44 | only the type list changes, by the toggle |
| Filters.BadgeShownIffCount | frontend/src/components/LogFilter.tsx:93-95 | the badge is shown exactly when its count is positive |
| Filters.Clear | frontend/src/components/LogFilter.tsx:46-48 | after clearing no filter is active and the count is 0 |
| Filters.SelectingCounts | frontend/src/components/LogFilter.tsx:30-36 | selecting a new severity activates the filters and adds one to the badge |
| Filters.SeverityVariant | frontend/src/components/LogFilter.tsx:55-62 | destructive, warning and secondary exactly for élevé, moyen and faible; outline otherwise |
| Filters.OfferedSeveritiesDistinct | frontend/src/components/LogFilter.tsx:23 | each offered severity has its own variant, never the default |
| Filters.SeverityBadges | frontend/src/components/LogFilter.tsx:153-159 | one badge per offered level, in order; a badge is coloured, with its level's `getSeverityColor`, exactly while its level is selected, and outlined otherwise |
| Stats.CountSeverity | frontend/src/components/Analytics.tsx:11-15 | a severity count never exceeds the number of records |
| Stats.Summary | frontend/src/components/LogStats.tsx:12-17 | total is the list length and each count is at most the total |
| Stats.CountsBounded | frontend/src/components/LogStats.tsx:13-16 | high + medium + low ≤ total |
| Stats.AppendHigh | frontend/src/components/LogStats.tsx:14-16 | a high-severity record raises high and total by one and leaves medium and low alone |
| Stats.KeysProperties | frontend/src/components/Analytics.tsx:25-29 | the accumulator's keys are distinct, and a key is present exactly when some record is counted under it |
| Stats.AttackTypes | frontend/src/components/Analytics.tsx:25-29 | the loop's keys are the insertion-ordered keys, and each key's count is the number of records counted under it ("unknown" for a falsy bug type) |
| Stats.CountsSumToLength | frontend/src/components/Analytics.tsx:25-29 | the per-type counts add up to the number of records |
| Stats.Entries | frontend/src/components/Analytics.tsx:31 | one entry per key, in key order, with the key's count |
| Stats.EntriesTotal | frontend/src/components/Analytics.tsx:25-31 | the entries' counts add up to the number of records and each is at least 1 |
| Stats.SortSorted | frontend/src/components/Analytics.tsx:32 | the sort orders the counts non-increasingly and is a permutation |
| Stats.TopAttacksProperties | frontend/src/components/Analytics.tsx:31-33 | at most 6 entries, each from the counts, largest first; none exactly when there are no records |
| Stats.MaxCount | frontend/src/components/Analytics.tsx:35 | at least 1, at least every count, and equal to 1 or to one of the counts |
| Stats.MaxIsFirst | frontend/src/components/Analytics.tsx:35 | with records, the maximum is the first count |
| Pipeline.BackendAlertsNotEnriched | backend/integrated_watcher.py:273-282 | a watcher alert is never sent to the language model on either path; a live one only has its timestamp converted |
| Pipeline.PatternHasFallback | frontend/src/lib/llmExplanation.ts:104-133 | every bug type of the classifier's table has a canned fallback |
| Pipeline.ClassifierTypesHaveFallbacks | backend/integrated_watcher.py:226-233 | every bug type the classifier emits has a canned fallback |
| Pipeline.ClassifierSeveritiesOffered | frontend/src/components/LogFilter.tsx:23 | every severity the classifier emits is offered by the filter panel, with its own badge variant |
| Pipeline.CardAcknowledged | frontend/src/components/request.tsx:20-23 | the watcher's answer to a card's apply request marks that card applied |
| Pipeline.NoReplyReportsFailure | frontend/src/components/request.tsx:24-26 | no reply of the watcher sets a card's error flag |
| Pipeline.HistoryLoadNeverCompletes | backend/integrated_watcher.py:98-99 | a history load on an open connection gets no answer, so loading stays set and the button stays disabled |
| Pipeline.CapitalisedSeverity | frontend/src/components/LogStats.tsx:14-16 | "ÉLEVÉ" is counted high by the statistics and coloured red on the card, both of which lower-case; it is not one of the filter panel's levels, so the panel shows no badge for it |

## Findings

| source | as written | input that shows it | evidently intended | confidence | as-written member | corrected member |
|---|---|---|---|---|---|---|
| frontend/src/lib/websocket.ts:56-59 | the reconnect timer's callback never clears `reconnectTimeout`, so the `!reconnectTimeout` guard blocks every later timer | connect, open, close; the timer fires; the new socket closes before opening: no timer is pending and the client never reconnects | the callback forgets its own id, so a failed attempt arms the next one | not executed | Transport.Connector.FireReconnectTimer, Transport.FailedReconnectStalls | Transport.Connector.FireReconnectTimerFixed, Transport.FixedReconnectRetries |
| frontend/src/components/LogHistory.tsx:22-25 | the list is already newest first (live alerts are put in front at App.tsx:116), so `reverse()` puts the oldest first and `slice(0, 50)` keeps the 50 oldest | 50 alerts listed, then a new live alert: it is not among the cards | "latest first", as the comment says: no reversal, so the newest alert is the first card | not executed | History.NewestAlertHidden | History.NewestAlertShown |

The corrected view is `History.ViewLatestFirst`. `History.NewestAlertShown` states the intended property about it.

## Left out

- I/O and concurrency:
  - the real WebSocket transport, JSON encoding and decoding, `fetch`, and the backend's asyncio plumbing (`tail_file`, the queue, the workers, the websockets server, `broadcast_to_clients` send failures). These are I/O: frames arrive already decoded or as parse failures, and the reply text is an input.
  - The awaits are not interleaved. Each event handler runs to completion. The model therefore does not capture alerts broadcast during the watcher's `asyncio.sleep(0.5)` before an acknowledgement, or two live handlers whose enrichment calls finish out of order.
- Transport.Connector.OnMessage: the socket's `onerror` only logs and is not modelled.
- Transport.Connector.Send: a `socket.send` that throws on an open socket is not modelled.
- `getWebSocketState` is not modelled: it only reads the ready state.
- The remote-model branch of `call_model` (`backend/integrated_watcher.py:238-258`) is a network call and is not modelled. Only the local classifier feeds `ProcessLine`.
- Watcher.ModelResult: a key that is present with value null is treated as absent. The local classifier never produces one.
- Reconciler.Dashboard.OnHistoryMessage: a reply with `data` but without `logs` would throw inside the handler. The model treats such a reply as absent, which also leaves the load running.
- ActionCard.RequestCard.constructor: unmounting and re-keying a card, and so unsubscribing its handler, are not modelled.
- Enrichment.ReplyPair: parsed fields that are truthy non-strings (numbers, objects) are not modelled.
- Text.Lower: case mapping covers ASCII and Latin-1 letters only, and Text.Upper is its inverse on those. Full Unicode case mapping is not modelled.
- Text.Upper: leaves ß, ÿ, µ, ı, ſ and the ligatures unchanged. Python's `upper()` maps them to "SS", "Ÿ", "Μ", "I", "S", "FF" and so on, which lie outside Latin-1 or are ASCII letters the model's mapping never produces from them.
- Watcher.CaseInsensitivePatterns: holds for the model's case mapping only. It does not cover a line holding ß, µ or any character whose Python upper case is ASCII (dotless ı, long ſ, ligatures such as ﬀ): Python's `upper()` changes those beyond what `lower()` undoes, so "unauthorızed".upper().lower() contains "unauthorized" while "unauthorızed".lower() does not.
- Text.IsSpace: whitespace is ASCII whitespace plus the no-break space. Python's and JavaScript's wider Unicode whitespace sets are not modelled.
- Stats.SortByCount: the sort is an insertion sort that keeps equal counts in their original order, like the stable `Array.prototype.sort`. Only ordering and permutation are proved; stability is not.
- Stats.Entries: entries follow key insertion order. JavaScript lists integer-like keys (a bug type "42") first, in numeric order, and that is not modelled.
- Stats.AttackTypes: counts a bug type named like an inherited object property as an ordinary key. In JavaScript `acc["constructor"]` starts as the inherited function, so `(acc[type] || 0) + 1` yields the text "function Object() { [native code] }1". The assignment `acc["__proto__"] = …` changes the prototype instead of adding a key.
- Floating point is not modelled: the severity percentages, bar widths and chart circumference in `Analytics.tsx`.
- Dates are not modelled: ISO-8601 parsing (a function parameter), `new Date()`, `toLocaleString`. A card's age is an integer input.
- Rendering is not modelled: React rendering, modals, the Escape key, dropdown clicks and animations are presentation. Only the values they show are modelled.
- The chat widget, the model-training and prediction scripts, the Streamlit app, the mock data, the log generator and the contact page are outside this model. The log generator's CSV layout only shapes `Watcher.CsvFirewallFields`.
