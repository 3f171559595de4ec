# Fish inventory client: a Dafny model

This project models the browser client of a small fish-inventory application. The client has two near-duplicate versions: `js/script.js` (built on `js/util.js` and `js/config.js`) and `app.js`. Both keep the same client-side state:

- **Dirty rows**: the ids of rows edited since their last successful save, held in a `Map` keyed by the stringified id.
- **The `isSaving` flag**: at most one save runs at a time.
- **The autosave timer**: at most one `setInterval` handle, driven by two settings kept in `localStorage` (enabled, minutes).

The model has one canonical state class, `Tracker.InventoryState`. Its methods are the client's operations:
- `setDirty` and `renderDirtyCount`;
- `startAutosave`, `stopAutosave` and `autosaveTick`;
- `loadAutosaveSettings` and `saveAutosaveSettings`;
- `saveRow`, `deleteRow` and `saveAllDirty`;
- the button and settings event handlers.

Each network request appears as the `Request` it issues and an abstract `Outcome`: success, or failure with a detail string. Two modules say how each version derives that outcome from what `fetch` gave:

- **`ScriptOutcomes`** (js/script.js) goes through the util.js wrappers, which are modelled in `Util`:
  - URL building against the base origin;
  - `_readErrorText`, with precedence `error` > `message` > raw text > `HTTP <status>`;
  - the ok / not-ok contract of the four wrappers.
- **`AppOutcomes`** (app.js) calls `fetch` directly and reads `err.error` from `res.json().catch(() => ({error: <fallback>}))`.

The pure pieces are separate modules:

- **`Helpers`** has:
  - `esc`, proved to produce text with no markup characters, whose every `&` starts one of the five entities, and which decodes back to its input;
  - the `notifyResult` message texts;
  - the dirty-count label.
- **`Pages`** has the sidebar router: `showPage`, the initial page, and nav clicks.
- **`Config`** has the start-up resolution of `API_BASE_URL` from the page location and the `api` query parameter.
- **`Scenarios`** states the tracker's result on concrete inputs, each proved by the verifier:
  - reconfiguring autosave from 10 to 60 minutes leaves exactly one timer;
  - an autosave tick during a manual save does nothing;
  - a PUT answered with HTTP 500 `{"error":"db locked"}` fails and leaves the row dirty.

Where the two versions differ, `InventoryState` has a constructor flag or the difference sits in the two outcome modules:

- app.js looks up its DOM elements without null checks. The model fixes `hasDirtyCounter` and `hasAutosaveControls` to true for it; js/script.js tolerates their absence.
- js/script.js ignores a row click when the row's `data-id` is missing or empty (both are falsy; the model passes the id ""). app.js has no such check. An empty `data-id` goes on as the id "", and a missing one as the text "undefined", which both the template URL and `String(id)` produce; the model takes that id as the argument "undefined". This is the `skipsEmptyId` flag.
- app.js uses relative URLs. These equal `BuildUrl("", path)` (`Util.BuildUrlSameOrigin`), so app.js corresponds to the base `""`.
- On an ok response, app.js never reads the body. js/script.js resolves with `res.json()`, so a 2xx response whose body is not JSON counts as a failure there (`ScriptOutcomes.OkWithoutJsonFails`).
- On an error response, app.js reports only the `error` field, or a fixed fallback ("저장 실패", "삭제 실패", "일괄 저장 실패") when the body is not JSON. js/script.js also falls back to `message` and to the raw text (`AppOutcomes.MessageFieldOnlyInScript`).
- A thrown error is shown as `String(e)` in app.js and as `e?.message || String(e)` in js/script.js.
- app.js has no page router.

The base-origin precedence follows `js/config.js` as written:
1. the same-origin default `""`;
2. the local backend `http://127.0.0.1:5000`, for a loopback host served on port 5500 or from `file:`;
3. a non-empty `api` query parameter, with one trailing slash removed.

`js/config.js` applies only these three rules.

## Model

| member | source | states |
|---|---|---|
| Js.Or | js/script.js:77 | `a \|\| b` on optional strings: the result is one of the operands, `a` exactly when `a` is a non-empty string, and it is truthy exactly when either operand is |
| Js.ErrorToString | app.js:276 | `String(e)` of an Error: name and message joined by ": ", either alone when the other is empty. It is empty only when both are |
| Js.MessageOrString | js/script.js:322 | `e?.message \|\| String(e)`: the message when it is non-empty. It is empty only when name and message both are |
| Js.NatToString | js/script.js:136 | decimal digits of a count, with no leading zero except for 0 itself |
| Js.DigitsValueOfNatToString | js/script.js:136 | the rendered digits read back as the same number |
| Js.NatToStringInjective | js/script.js:136 | different counts render differently |
| Helpers.ReplaceAllAppend | js/script.js:6-10 | `replaceAll` of one character distributes over concatenation |
| Helpers.EscapeChainChar | js/script.js:6-10 | on a single character, the five `replaceAll`s give that character's entity, or the character itself when it is not markup |
| Helpers.EscapeChainIsPerChar | js/script.js:5-10 | replacing `&` first makes the chain equal to escaping each character independently, so no entity is escaped twice |
| Helpers.EscapeCharEscaped | js/script.js:6-10 | each escaped character has no markup character, and only its first position can be a `&` that starts an entity |
| Helpers.EscapeEachEscaped | js/script.js:4-11 | escaped text contains no `<`, `>`, `"`, `'`, and every `&` in it starts one of the five entities |
| Helpers.UnescapeEscapeEach | js/script.js:4-11 | decoding the five entities restores the original text |
| Helpers.Esc | js/script.js:4-11 | `esc(null/undefined)` is "". Otherwise the result is the per-character escape of the input, free of raw markup, and decodes back to the input |
| Helpers.EscInjective | js/script.js:4-11 | different strings always escape differently |
| Helpers.FailureReason | js/script.js:77 | `detail \|\| "원인을 확인해주세요."`: never empty, the detail when it is truthy |
| Helpers.NotifyResult | js/script.js:72-81 | success: toast "success"/"성공" for 2500 ms with "`<context>` 완료", and the popup appends "\n\n" + detail only when detail is truthy. Failure: "error"/"실패" for 4500 ms with "`<context>` 실패: `<reason>`", popup "`<context>` 실패\n\n`<reason>`". app.js has the same at app.js:58-67 |
| Helpers.NoticeMessagesDiffer | js/script.js:72-81 | a success toast and a failure toast of the same context never coincide, and the failure popup carries a non-empty reason |
| Helpers.DirtyLabel | js/script.js:136 | "" exactly when the count is 0, otherwise "● 변경된 행: N개" with N the count |
| Helpers.DirtyLabelInjective | js/script.js:136 | the label determines the count |
| Util.BuildUrl | js/util.js:6-15 | an empty path gives the base. A path starting with "http" is returned verbatim. Otherwise base + path, with a "/" inserted when the path does not start with one, so the result starts with the base followed by "/" |
| Util.BuildUrlLeadingSlashIrrelevant | js/util.js:13-14 | "p" and "/p" build the same URL |
| Util.BuildUrlSameOrigin | js/util.js:13-14 | with base "" a rooted path is used as is, which is how app.js's relative `fetch` URLs relate to util.js |
| Util.HttpStatusText | js/util.js:22 | "HTTP " followed by decimal digits that read back as the status |
| Util.ReadErrorText | js/util.js:17-26 | on a JSON body: `error`, else `message`, else raw text, else "HTTP `<status>`". On a non-JSON or null body: raw text, else "HTTP `<status>`". Never empty |
| Util.Settle | js/util.js:28-32 | a network rejection passes through. `!res.ok` rejects with `new Error(_readErrorText(res))`. An ok response resolves with the parsed body, or rejects when it is not JSON. It resolves exactly when ok and JSON |
| Util.HttpFailureMessageNonEmpty | js/util.js:30 | a failed HTTP status always rejects with a non-empty message |
| Util.GetData | js/util.js:28-32 | GET to `buildUrl(path)` with no body, settled as above |
| Util.PostData | js/util.js:34-42 | POST to `buildUrl(path)` with the JSON body, settled as above |
| Util.PutData | js/util.js:44-52 | PUT to `buildUrl(path)` with the JSON body, settled as above |
| Util.DeleteData | js/util.js:54-58 | DELETE to `buildUrl(path)` with no body, settled as above |
| Config.StripTrailingSlash | js/config.js:22 | removes exactly one trailing "/", if present, and nothing else |
| Config.StripOneSlash | js/config.js:22 | `x + "/"` becomes `x`, so "x//" becomes "x/" |
| Config.ResolveApiBaseUrl | js/config.js:6-22 | "" by default. "http://127.0.0.1:5000" for host 127.0.0.1/localhost with port 5500 or protocol file:. A non-empty `api` parameter overrides both, with its trailing slash stripped; `?api=` is ignored |
| Pages.ShowPage | js/script.js:91-106 | a nav item is active exactly when its page equals the chosen name. A section is hidden exactly when its view differs. The inventory loads exactly for "inventory" |
| Pages.ExactlyOneVisible | js/script.js:98-100 | with distinct view names, the chosen page's section is the only visible one |
| Pages.ShowPageIdempotent | js/script.js:91-106 | showing the same page again changes nothing |
| Pages.FirstActive | js/script.js:116 | the first nav item already marked active, in document order, or none |
| Pages.InitialPage | js/script.js:116 | that item's non-empty `data-page`, else "dashboard" |
| Pages.SetupPageRouting | js/script.js:86-118 | nothing without nav items or sections. Otherwise the active items are exactly those naming the initial page, the hidden sections exactly those with another view, and the inventory loads exactly when the initial page is "inventory" |
| Pages.RoutingMarksInitialPage | js/script.js:116-117 | after routing, the active items are exactly those naming the initial page |
| Pages.NavClick | js/script.js:108-114 | a click does something exactly when the item's `data-page` is non-empty. It then shows that page: the active items are exactly those with the same page, including the clicked one, and the hidden sections exactly those with another view |
| Tracker.RemoveMembership | js/script.js:128 | after `delete(id)`, exactly the other ids remain |
| Tracker.RemoveSize | js/script.js:128 | `delete` keeps keys unique and shrinks the size by one exactly when the id was present |
| Tracker.RemoveAbsent | js/script.js:128 | deleting an absent key changes nothing |
| Tracker.MarkMembership | js/script.js:125-130 | after `setDirty(id, d)`, `id` is a member exactly when `d`, and every other id keeps its membership |
| Tracker.MarkIdempotent | js/script.js:125-130 | repeating `setDirty(id, d)` changes nothing |
| Tracker.MarkSize | js/script.js:125-130 | the dirty ids stay unique, and the size grows by one for a new dirty id and shrinks by one for a removed one |
| Tracker.CollectEmptyIff | js/script.js:346-355 | no items are collected exactly when no dirty id has a rendered row |
| Tracker.CollectContents | js/script.js:346-350 | every rendered dirty row is collected, only those are, and there are at most as many items as dirty ids |
| Tracker.StoredMinutes | js/script.js:193 | the stored minutes, or "30" when missing or empty. Never empty |
| Tracker.StoredSettingsRoundTrip | js/script.js:182-196 | settings written by `saveAutosaveSettings` are read back unchanged by `loadAutosaveSettings` |
| Tracker.InventoryState.constructor | js/script.js:123-146 | an empty dirty set, not saving, no timer |
| Tracker.InventoryState.RenderDirtyCount | js/script.js:132-137 | the counter shows the label of the current size and is left alone when the element is absent. app.js has the same at app.js:92-96 |
| Tracker.InventoryState.SetDirty | js/script.js:125-130 | the new dirty ids are the old ones marked for `id` (see MarkMembership). The counter is re-rendered. app.js has the same at app.js:85-90 |
| Tracker.InventoryState.StopAutosave | js/script.js:148-153 | afterwards no timer and no interval runs. Without a timer nothing changes |
| Tracker.InventoryState.StartAutosave | js/script.js:167-175 | stops the previous interval first, then starts exactly one new interval from the selected minutes. Without the minutes control no interval runs. app.js has the same at app.js:126-131 |
| Tracker.InventoryState.SaveAutosaveSettings | js/script.js:177-184 | stores "true"/"false" and the minutes under the two keys. Without the controls storage is unchanged |
| Tracker.InventoryState.LoadAutosaveSettings | js/script.js:186-200 | checked exactly when the stored flag is "true". Minutes are the stored value or "30". The timer runs exactly when enabled, and a previous interval no longer runs. app.js has the same at app.js:140-150 |
| Tracker.InventoryState.OnAutosaveToggle | js/script.js:428-432 | persists the settings, then starts a single timer when checked or stops it when unchecked |
| Tracker.InventoryState.OnIntervalChange | js/script.js:434-437 | persists the settings. While enabled, it restarts with the new minutes, leaving only the new interval. app.js has the same at app.js:376-381 |
| Tracker.InventoryState.SaveRow | js/script.js:307-326 | PUT of the row to `/api/inventory/<id>`. Returns true exactly on success. On success only `id` leaves the dirty set; on failure the set is unchanged. The matching notification. app.js has the same at app.js:254-279 |
| Tracker.InventoryState.DeleteRow | js/script.js:328-338 | DELETE of `/api/inventory/<id>`. On success only `id` leaves the dirty set; on failure nothing changes. app.js has the same at app.js:281-295 |
| Tracker.InventoryState.CollectDirty | js/script.js:346-350 | the payloads of the dirty ids' rendered rows, in the Map's insertion order |
| Tracker.InventoryState.SaveAllDirty | js/script.js:340-370 | with nothing to send: true, no request, "변경된 항목이 없습니다.", set unchanged. Otherwise one bulk POST of the collected items. Success clears the whole set, including ids without a rendered row, and reports "N개 항목 저장 완료". Failure returns false with the set unchanged. app.js has the same at app.js:297-337 |
| Tracker.InventoryState.AutosaveTick | js/script.js:155-165 | skips with no request and no notification while saving or when nothing is dirty. Otherwise it runs one bulk save tagged "자동저장", and `isSaving` is false afterwards whatever the outcome. app.js has the same at app.js:114-124 |
| Tracker.InventoryState.OnSaveAllClick | js/script.js:390-398 | dropped while saving. Otherwise one bulk save, after which `isSaving` is false |
| Tracker.InventoryState.OnRowSaveClick | js/script.js:403-424 | ignored for a row without id (js/script.js only) and while saving. Otherwise one row save, after which `isSaving` is false |
| Tracker.InventoryState.OnRowDeleteClick | js/script.js:403-414 | a DELETE of `/api/inventory/<id>` only after confirmation (and, in js/script.js, with an id), regardless of `isSaving`. Then only `id` leaves the dirty set on success, with the delete notification for either outcome |
| ScriptOutcomes.FromSettled | js/script.js:311-325 | success exactly when the wrapper resolves. Otherwise the detail is `e?.message \|\| String(e)`: the message itself when non-empty, and a truthy detail whenever the error has a name or a message |
| ScriptOutcomes.FromFetched | js/script.js:311-325 | success exactly for an ok JSON response. An HTTP error is reported with `_readErrorText`. A network failure is reported with its message |
| ScriptOutcomes.HttpFailureReason | js/script.js:319-323 | an HTTP failure's toast and popup carry the response's error text |
| ScriptOutcomes.OkWithoutJsonFails | js/util.js:51 | a 2xx response whose body is not JSON is reported as a failure |
| AppOutcomes.FromFetched | app.js:258-278 | success exactly when `res.ok`. Otherwise the detail is `err.error` of the parsed error body, or the fixed fallback for a non-JSON body. A thrown error is reported as `String(e)` |
| AppOutcomes.JsonWithoutErrorGivesGenericReason | app.js:266-267 | a JSON error body without `error` yields "원인을 확인해주세요." in the notification |
| AppOutcomes.NotJsonGivesFallback | app.js:266-267 | a non-JSON error body yields "저장 실패" for a row save |
| AppOutcomes.VariantsAgreeOnSuccess | app.js:265-271 | both versions agree on success, except for a 2xx body that is not JSON |
| AppOutcomes.VariantsAgreeOnErrorField | app.js:266-267 | both versions report a non-empty `error` field identically |
| AppOutcomes.MessageFieldOnlyInScript | app.js:266-267 | for a body with only `message`, js/script.js shows the message and app.js the generic reason |
| Scenarios.AutosaveReconfigured | js/script.js:428-437 | enabling at 10 minutes, then choosing 60, leaves exactly one interval, the one started from "60" |
| Scenarios.TickDuringManualSave | js/script.js:155-157 | a tick during a manual save makes no request, shows nothing and leaves the dirty set as it was |
| Scenarios.DbLockedSave | js/script.js:307-326 | HTTP 500 `{"error":"db locked"}` on PUT: the save fails, the toast reads "개별 저장(ID:1) 실패: db locked", and the row stays dirty |

## Left out

- DOM rendering, element lookups, focus, toasts' removal and event-listener registration: the model keeps only the texts shown and the counter text.
- `loadInventory` and `addRow`: they rebuild the table from the server and clear the add form. The rendered rows appear only as the map from ids to payloads that `saveAllDirty` reads. The success paths' `await loadInventory()` is not modelled.
- `getRowPayload` and `n`/`fmtMoney`: `Number`, `Number.isFinite` and `toLocaleString` are IEEE floats and locale formatting. A payload holds the inputs' raw text.
- `fetch` and the network: each request is the `Request` value issued plus a given outcome.
- `localStorage` is a string-to-string map. `setInterval` is a set of running handles with no clock. `parseInt(minutes) * 60000` is reduced to the minutes string a timer was started from.
- Interleaving across `await`: each save is atomic and the `isSaving` guard is checked on entry. So the model does not show that a bulk success clears ids marked dirty while its request was in flight.
- `confirm()` is a boolean parameter. The `beforeunload` prompt and `console.log` are not modelled.
- JSON fields that are not strings: `error` and `message` are modelled as optional strings. `esc` of a non-string argument (`String(s)` of numbers and objects) is not modelled.
- The popup and overlay close handlers and the Escape key: presentation only.
- app.js without a row element: `tr.dataset.id` on a null `tr` throws in app.js, and the model does not represent that crash.
- Tracker.InventoryState.LoadAutosaveSettings: the autosave checkbox and the minutes selector are modelled as present or absent together (`hasAutosaveControls`). js/script.js checks them separately, so a page with only the selector is not modelled.
