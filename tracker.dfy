/** The client state shared by js/script.js and app.js: the dirty-row tracker,
    the `isSaving` flag, the autosave timer and its persisted settings, and the
    save and delete operations that reconcile the dirty rows with the server's
    answer. Each network call enters as an abstract `Outcome`; the modules
    ScriptOutcomes and AppOutcomes say how each file derives it from the reply. */
module Tracker {
  import opened Js
  import opened Helpers
  import opened Util

  /** `getRowPayload(tr)`: the row's id and the raw text of its inputs
      (the numeric coercion of qty and unit_price is not modelled). */
  datatype RowPayload = RowPayload(id: string, fish: string, size: string, qty: string, unitPrice: string)

  /** The JSON body of a request: one row (PUT) or `{items}` (bulk POST). */
  datatype Body = RowBody(row: RowPayload) | BulkBody(items: seq<RowPayload>)

  /** How a request ended, as the calling code sees it: success, or failure with a detail. */
  datatype Outcome = Done | Failed(detail: Option<string>)

  /** An interval handle returned by `setInterval`, with the minutes it was started from. */
  datatype Timer = Timer(handle: nat, minutes: string)

  const AutosaveKey := "fishInventory.autosave.enabled"
  const AutosaveMinutesKey := "fishInventory.autosave.minutes"
  const DefaultMinutes := "30"
  const NothingToSave := "변경된 항목이 없습니다."
  const BulkPath := "/api/inventory/bulk"

  function RowPath(id: string): string
  {
    "/api/inventory/" + id
  }

  function RowContext(id: string, fromAutosave: bool): string
  {
    if fromAutosave then "자동저장(개별, ID:" + id + ")" else "개별 저장(ID:" + id + ")"
  }

  function DeleteContext(id: string): string
  {
    "행 삭제(ID:" + id + ")"
  }

  function BulkContext(fromAutosave: bool): string
  {
    if fromAutosave then "자동저장" else "일괄 저장"
  }

  function SavedCountDetail(count: nat): string
  {
    NatToString(count) + "개 항목 저장 완료"
  }

  // ---------------------------------------------------------------------------
  // The dirty rows: the keys of the `dirtyRows` Map, in insertion order.

  predicate NoDuplicates(s: seq<string>)
  {
    forall i, j :: 0 <= i < j < |s| ==> s[i] != s[j]
  }

  /** `dirtyRows.delete(id)`. */
  function Remove(s: seq<string>, id: string): seq<string>
    decreases |s|
  {
    if s == [] then [] else (if s[0] == id then [] else [s[0]]) + Remove(s[1..], id)
  }

  lemma {:induction false} RemoveMembership(s: seq<string>, id: string)
    ensures forall x :: x in Remove(s, id) <==> x in s && x != id
    decreases |s|
  {
    if s != [] {
      RemoveMembership(s[1..], id);
      assert s == [s[0]] + s[1..];
    }
  }

  lemma {:induction false} RemoveSize(s: seq<string>, id: string)
    requires NoDuplicates(s)
    ensures NoDuplicates(Remove(s, id))
    ensures |Remove(s, id)| == if id in s then |s| - 1 else |s|
    decreases |s|
  {
    if s != [] {
      RemoveSize(s[1..], id);
      RemoveMembership(s[1..], id);
      assert s == [s[0]] + s[1..];
      var r := Remove(s[1..], id);
      if s[0] != id {
        assert s[0] !in r;
        forall i, j | 0 <= i < j < |[s[0]] + r| ensures ([s[0]] + r)[i] != ([s[0]] + r)[j] {
          if i > 0 { assert ([s[0]] + r)[i] == r[i - 1]; }
          else { assert ([s[0]] + r)[j] in r; }
        }
      } else {
        assert id !in s[1..];
      }
    }
  }

  /** `setDirty(id, isDirty)` on the key sequence: `set` appends a new key and keeps an existing
      one in place; `delete` removes it. */
  function Mark(rows: seq<string>, id: string, isDirty: bool): seq<string>
  {
    if isDirty then (if id in rows then rows else rows + [id]) else Remove(rows, id)
  }

  /** After `setDirty(id, isDirty)`, `id` is dirty exactly when `isDirty`, and no other id changes. */
  lemma MarkMembership(rows: seq<string>, id: string, isDirty: bool)
    ensures forall x :: x in Mark(rows, id, isDirty) <==> (if x == id then isDirty else x in rows)
  {
    RemoveMembership(rows, id);
  }

  /** `setDirty` with the same arguments a second time changes nothing. */
  lemma MarkIdempotent(rows: seq<string>, id: string, isDirty: bool)
    ensures Mark(Mark(rows, id, isDirty), id, isDirty) == Mark(rows, id, isDirty)
  {
    if !isDirty {
      var r := Remove(rows, id);
      RemoveMembership(rows, id);
      RemoveMembership(r, id);
      RemoveAbsent(r, id);
    }
  }

  lemma {:induction false} RemoveAbsent(s: seq<string>, id: string)
    requires id !in s
    ensures Remove(s, id) == s
    decreases |s|
  {
    if s != [] {
      RemoveAbsent(s[1..], id);
      assert s == [s[0]] + s[1..];
    }
  }

  /** The tracker stays a set: no key twice, and its size moves by at most one. */
  lemma MarkSize(rows: seq<string>, id: string, isDirty: bool)
    requires NoDuplicates(rows)
    ensures NoDuplicates(Mark(rows, id, isDirty))
    ensures |Mark(rows, id, isDirty)| ==
            if isDirty then (if id in rows then |rows| else |rows| + 1)
            else (if id in rows then |rows| - 1 else |rows|)
  {
    if !isDirty {
      RemoveSize(rows, id);
    }
  }

  /** The payloads `saveAllDirty` collects: for each dirty id in order, the row rendered for it, if any. */
  function Collect(ids: seq<string>, table: map<string, RowPayload>): seq<RowPayload>
    decreases |ids|
  {
    if ids == [] then []
    else
      var last := ids[|ids| - 1];
      Collect(ids[..|ids| - 1], table) + (if last in table then [table[last]] else [])
  }

  /** Nothing is collected exactly when no dirty id has a rendered row. */
  lemma {:induction false} CollectEmptyIff(ids: seq<string>, table: map<string, RowPayload>)
    ensures Collect(ids, table) == [] <==> forall i :: 0 <= i < |ids| ==> ids[i] !in table
    decreases |ids|
  {
    if ids != [] {
      var init := ids[..|ids| - 1];
      CollectEmptyIff(init, table);
      assert forall i :: 0 <= i < |init| ==> init[i] == ids[i];
    }
  }

  /** Every rendered dirty row is collected, and only rendered dirty rows are. */
  lemma {:induction false} CollectContents(ids: seq<string>, table: map<string, RowPayload>)
    ensures |Collect(ids, table)| <= |ids|
    ensures forall id :: id in ids && id in table ==> table[id] in Collect(ids, table)
    ensures forall p :: p in Collect(ids, table) ==> exists id :: id in ids && id in table && table[id] == p
    decreases |ids|
  {
    if ids != [] {
      var init, last := ids[..|ids| - 1], ids[|ids| - 1];
      CollectContents(init, table);
      assert ids == init + [last];
      forall p | p in Collect(ids, table)
        ensures exists id :: id in ids && id in table && table[id] == p
      {
        if p in Collect(init, table) {
          var id :| id in init && id in table && table[id] == p;
          assert id in ids;
        } else {
          assert last in ids && last in table && table[last] == p;
        }
      }
    }
  }

  // ---------------------------------------------------------------------------
  // Persisted autosave settings (`localStorage`, a string-to-string map).

  /** `localStorage.getItem(AUTOSAVE_KEY) === "true"`: any other value, or none, leaves autosave off. */
  predicate StoredEnabled(storage: map<string, string>)
  {
    AutosaveKey in storage && storage[AutosaveKey] == "true"
  }

  /** `localStorage.getItem(AUTOSAVE_MIN_KEY) || "30"`. */
  function StoredMinutes(storage: map<string, string>): (r: string)
    ensures r != ""
    ensures AutosaveMinutesKey !in storage || storage[AutosaveMinutesKey] == "" ==> r == DefaultMinutes
    ensures AutosaveMinutesKey in storage && storage[AutosaveMinutesKey] != "" ==> r == storage[AutosaveMinutesKey]
  {
    var raw := if AutosaveMinutesKey in storage then Some(storage[AutosaveMinutesKey]) else None;
    Or(raw, Some(DefaultMinutes)).value
  }

  function StoredFlag(checked: bool): string
  {
    if checked then "true" else "false"
  }

  /** Writing the settings and reading them back gives the same settings. */
  lemma StoredSettingsRoundTrip(storage: map<string, string>, checked: bool, minutes: string)
    requires minutes != ""
    ensures var s := storage[AutosaveKey := StoredFlag(checked)][AutosaveMinutesKey := minutes];
            StoredEnabled(s) == checked && StoredMinutes(s) == minutes
  {
  }

  // ---------------------------------------------------------------------------

  class InventoryState {
    /** Whether `#dirty-count` and the autosave controls exist (app.js assumes both do). */
    const hasDirtyCounter: bool
    const hasAutosaveControls: bool
    /** Whether a click on a row without `data-id` is ignored (js/script.js; app.js goes on with the empty id). */
    const skipsEmptyId: bool
    /** `API_BASE_URL` as resolved at start-up. */
    const baseUrl: string

    /** The keys of `dirtyRows`, in insertion order. */
    var dirtyRows: seq<string>
    /** The text of `#dirty-count`. */
    var dirtyCountText: string
    var isSaving: bool
    var autosaveTimer: Option<Timer>
    /** The handles of the intervals the browser is running. */
    var activeIntervals: set<nat>
    /** The handle the next `setInterval` returns. */
    var nextHandle: nat
    /** `#chk-autosave.checked` and `#sel-autosave-min.value`. */
    var autosaveChecked: bool
    var autosaveMinutes: string
    var storage: map<string, string>

    /** The tracker is a set and the counter shows its size. */
    ghost predicate DirtyValid()
      reads this
    {
      NoDuplicates(dirtyRows)
      && dirtyCountText == (if hasDirtyCounter then DirtyLabel(|dirtyRows|) else "")
    }

    /** At most one interval runs, and it is the one `autosaveTimer` holds. */
    ghost predicate TimerValid()
      reads this
    {
      1 <= nextHandle
      && match autosaveTimer
         case None => activeIntervals == {}
         case Some(t) => activeIntervals == {t.handle} && 1 <= t.handle < nextHandle
    }

    /** A timer runs exactly when autosave is checked, with the selected minutes. */
    ghost predicate SettingsValid()
      reads this
    {
      (autosaveTimer.Some? <==> hasAutosaveControls && autosaveChecked)
      && (autosaveTimer.Some? ==> autosaveTimer.value.minutes == autosaveMinutes)
    }

    ghost predicate Valid()
      reads this
    {
      DirtyValid() && TimerValid() && SettingsValid()
    }

    constructor (hasDirtyCounter: bool, hasAutosaveControls: bool, skipsEmptyId: bool, baseUrl: string,
                 storage: map<string, string>, initialMinutes: string)
      ensures Valid()
      ensures this.hasDirtyCounter == hasDirtyCounter && this.hasAutosaveControls == hasAutosaveControls
      ensures this.skipsEmptyId == skipsEmptyId && this.baseUrl == baseUrl && this.storage == storage
      ensures dirtyRows == [] && dirtyCountText == "" && !isSaving
      ensures autosaveTimer.None? && activeIntervals == {} && nextHandle == 1
      ensures !autosaveChecked && autosaveMinutes == initialMinutes
    {
      this.hasDirtyCounter := hasDirtyCounter;
      this.hasAutosaveControls := hasAutosaveControls;
      this.skipsEmptyId := skipsEmptyId;
      this.baseUrl := baseUrl;
      this.storage := storage;
      dirtyRows := [];
      dirtyCountText := "";
      isSaving := false;
      autosaveTimer := None;
      activeIntervals := {};
      nextHandle := 1;
      autosaveChecked := false;
      autosaveMinutes := initialMinutes;
    }

    /** `renderDirtyCount()`; without the counter element it does nothing. */
    method RenderDirtyCount()
      modifies this`dirtyCountText
      ensures dirtyCountText == if hasDirtyCounter then DirtyLabel(|dirtyRows|) else old(dirtyCountText)
    {
      if hasDirtyCounter {
        dirtyCountText := DirtyLabel(|dirtyRows|);
      }
    }

    /** `setDirty(id, isDirty)`. */
    method SetDirty(id: string, isDirty: bool)
      requires DirtyValid()
      modifies this`dirtyRows, this`dirtyCountText
      ensures DirtyValid()
      ensures dirtyRows == Mark(old(dirtyRows), id, isDirty)
      ensures id in dirtyRows <==> isDirty
      ensures forall x :: x != id ==> (x in dirtyRows <==> x in old(dirtyRows))
    {
      MarkMembership(dirtyRows, id, isDirty);
      MarkSize(dirtyRows, id, isDirty);
      if isDirty {
        if id !in dirtyRows {
          dirtyRows := dirtyRows + [id];
        }
      } else {
        dirtyRows := Remove(dirtyRows, id);
      }
      RenderDirtyCount();
    }

    /** `stopAutosave()`: clears the running interval, if any. */
    method StopAutosave()
      requires TimerValid()
      modifies this`autosaveTimer, this`activeIntervals
      ensures TimerValid() && autosaveTimer.None? && activeIntervals == {}
      ensures old(autosaveTimer).None? ==> activeIntervals == old(activeIntervals)
    {
      if autosaveTimer.Some? {
        activeIntervals := activeIntervals - {autosaveTimer.value.handle};
        autosaveTimer := None;
      }
    }

    /** `startAutosave()`: stops any running interval first, then (when the
        minutes control exists) starts a new one from the selected minutes. */
    method StartAutosave()
      requires TimerValid()
      modifies this`autosaveTimer, this`activeIntervals, this`nextHandle
      ensures TimerValid()
      ensures hasAutosaveControls ==>
                autosaveTimer == Some(Timer(old(nextHandle), autosaveMinutes))
                && activeIntervals == {old(nextHandle)}
      ensures !hasAutosaveControls ==> autosaveTimer.None? && activeIntervals == {}
      ensures old(autosaveTimer).Some? ==> old(autosaveTimer).value.handle !in activeIntervals
    {
      StopAutosave();
      if hasAutosaveControls {
        var handle := nextHandle;
        nextHandle := nextHandle + 1;
        activeIntervals := activeIntervals + {handle};
        autosaveTimer := Some(Timer(handle, autosaveMinutes));
      }
    }

    /** `saveAutosaveSettings()`. */
    method SaveAutosaveSettings()
      modifies this`storage
      ensures hasAutosaveControls ==>
                storage == old(storage)[AutosaveKey := StoredFlag(autosaveChecked)][AutosaveMinutesKey := autosaveMinutes]
      ensures !hasAutosaveControls ==> storage == old(storage)
    {
      if hasAutosaveControls {
        storage := storage[AutosaveKey := if autosaveChecked then "true" else "false"];
        storage := storage[AutosaveMinutesKey := autosaveMinutes];
      }
    }

    /** `loadAutosaveSettings()`: restores the controls from storage and starts or stops the timer. */
    method LoadAutosaveSettings()
      requires Valid()
      modifies this`autosaveChecked, this`autosaveMinutes, this`autosaveTimer, this`activeIntervals, this`nextHandle
      ensures Valid()
      ensures !hasAutosaveControls ==>
                autosaveChecked == old(autosaveChecked) && autosaveMinutes == old(autosaveMinutes)
                && autosaveTimer == old(autosaveTimer) && activeIntervals == old(activeIntervals)
      ensures hasAutosaveControls ==>
                autosaveChecked == StoredEnabled(storage) && autosaveMinutes == StoredMinutes(storage)
                && (autosaveTimer.Some? <==> StoredEnabled(storage))
                && (old(autosaveTimer).Some? ==> old(autosaveTimer).value.handle !in activeIntervals)
    {
      if !hasAutosaveControls {
        return;
      }
      var enabledRaw := if AutosaveKey in storage then Some(storage[AutosaveKey]) else None;
      var enabled := enabledRaw == Some("true");
      var stored := if AutosaveMinutesKey in storage then Some(storage[AutosaveMinutesKey]) else None;
      var mins := if stored.Some? && stored.value != "" then stored.value else DefaultMinutes;
      autosaveChecked := enabled;
      autosaveMinutes := mins;
      if enabled {
        StartAutosave();
      } else {
        StopAutosave();
      }
    }

    /** The change handler of `#chk-autosave`. */
    method OnAutosaveToggle(checked: bool)
      requires Valid() && hasAutosaveControls
      modifies this`autosaveChecked, this`storage, this`autosaveTimer, this`activeIntervals, this`nextHandle
      ensures Valid()
      ensures autosaveChecked == checked
      ensures storage == old(storage)[AutosaveKey := StoredFlag(checked)][AutosaveMinutesKey := autosaveMinutes]
      ensures checked ==> autosaveTimer == Some(Timer(old(nextHandle), autosaveMinutes))
      ensures !checked ==> autosaveTimer.None? && activeIntervals == {}
    {
      autosaveChecked := checked;
      SaveAutosaveSettings();
      if checked {
        StartAutosave();
      } else {
        StopAutosave();
      }
    }

    /** The change handler of `#sel-autosave-min`: restarts a running timer with the new minutes. */
    method OnIntervalChange(minutes: string)
      requires Valid() && hasAutosaveControls
      modifies this`autosaveMinutes, this`storage, this`autosaveTimer, this`activeIntervals, this`nextHandle
      ensures Valid()
      ensures autosaveMinutes == minutes
      ensures storage == old(storage)[AutosaveKey := StoredFlag(autosaveChecked)][AutosaveMinutesKey := minutes]
      ensures autosaveChecked ==> autosaveTimer == Some(Timer(old(nextHandle), minutes))
                                  && activeIntervals == {old(nextHandle)}
      ensures !autosaveChecked ==> autosaveTimer.None? && activeIntervals == old(activeIntervals)
    {
      autosaveMinutes := minutes;
      SaveAutosaveSettings();
      if autosaveChecked {
        StartAutosave();
      }
    }

    /** `saveRow(tr, fromAutosave)`: a PUT of the row; on success the row's id alone becomes clean. */
    method SaveRow(id: string, payload: RowPayload, fromAutosave: bool, outcome: Outcome)
      returns (ok: bool, request: Request<Body>, notice: Notice)
      requires DirtyValid()
      modifies this`dirtyRows, this`dirtyCountText
      ensures DirtyValid()
      ensures request == Request(PUT, BuildUrl(baseUrl, RowPath(id)), Some(RowBody(payload)))
      ensures ok <==> outcome.Done?
      ensures dirtyRows == if ok then Remove(old(dirtyRows), id) else old(dirtyRows)
      ensures ok ==> id !in dirtyRows
      ensures forall x :: x != id ==> (x in dirtyRows <==> x in old(dirtyRows))
      ensures notice == if ok then NotifyResult(true, RowContext(id, fromAutosave), Some(""))
                        else NotifyResult(false, RowContext(id, fromAutosave), outcome.detail)
    {
      request := Issue(PUT, baseUrl, RowPath(id), Some(RowBody(payload)));
      if outcome.Done? {
        SetDirty(id, false);
        notice := NotifyResult(true, RowContext(id, fromAutosave), Some(""));
        ok := true;
      } else {
        notice := NotifyResult(false, RowContext(id, fromAutosave), outcome.detail);
        ok := false;
      }
    }

    /** `deleteRow(id)`: a DELETE; on success the id is no longer dirty. */
    method DeleteRow(id: string, outcome: Outcome) returns (request: Request<Body>, notice: Notice)
      requires DirtyValid()
      modifies this`dirtyRows, this`dirtyCountText
      ensures DirtyValid()
      ensures request == Request(DELETE, BuildUrl(baseUrl, RowPath(id)), None)
      ensures dirtyRows == if outcome.Done? then Remove(old(dirtyRows), id) else old(dirtyRows)
      ensures forall x :: x != id ==> (x in dirtyRows <==> x in old(dirtyRows))
      ensures notice == if outcome.Done? then NotifyResult(true, DeleteContext(id), Some(""))
                        else NotifyResult(false, DeleteContext(id), outcome.detail)
    {
      request := Issue(DELETE, baseUrl, RowPath(id), None);
      if outcome.Done? {
        SetDirty(id, false);
        notice := NotifyResult(true, DeleteContext(id), Some(""));
      } else {
        notice := NotifyResult(false, DeleteContext(id), outcome.detail);
      }
    }

    /** The `items` loop of `saveAllDirty`: the rendered row of each dirty id, in order. */
    method CollectDirty(table: map<string, RowPayload>) returns (items: seq<RowPayload>)
      ensures items == Collect(dirtyRows, table)
    {
      items := [];
      var i := 0;
      while i < |dirtyRows|
        invariant 0 <= i <= |dirtyRows|
        invariant items == Collect(dirtyRows[..i], table)
      {
        var id := dirtyRows[i];
        assert dirtyRows[..i + 1][..i] == dirtyRows[..i];
        if id in table {
          items := items + [table[id]];
        }
        i := i + 1;
      }
      assert dirtyRows[..|dirtyRows|] == dirtyRows;
    }

    /** What `saveAllDirty(fromAutosave)` promises, relating the dirty rows before and after. */
    ghost predicate SavedAll(before: seq<string>, table: map<string, RowPayload>, fromAutosave: bool,
                             outcome: Outcome, request: Option<Request<Body>>, notice: Notice)
      reads this
    {
      var items := Collect(before, table);
      var context := BulkContext(fromAutosave);
      if items == [] then
        request.None? && dirtyRows == before
        && notice == NotifyResult(true, context, Some(NothingToSave))
      else
        request == Some(Request(POST, BuildUrl(baseUrl, BulkPath), Some(BulkBody(items))))
        && dirtyRows == (if outcome.Done? then [] else before)
        && notice == (if outcome.Done? then NotifyResult(true, context, Some(SavedCountDetail(|items|)))
                      else NotifyResult(false, context, outcome.detail))
    }

    /** `saveAllDirty(fromAutosave)`: one bulk POST of all rendered dirty rows;
        all-or-nothing on the dirty set, and no request when there is nothing to send. */
    method SaveAllDirty(fromAutosave: bool, table: map<string, RowPayload>, outcome: Outcome)
      returns (ok: bool, request: Option<Request<Body>>, notice: Notice)
      requires DirtyValid()
      modifies this`dirtyRows, this`dirtyCountText
      ensures DirtyValid()
      ensures SavedAll(old(dirtyRows), table, fromAutosave, outcome, request, notice)
      ensures ok <==> request.None? || outcome.Done?
      ensures dirtyRows == [] || dirtyRows == old(dirtyRows)
      ensures outcome.Failed? ==> dirtyRows == old(dirtyRows)
      ensures request.None? ==> ok && dirtyRows == old(dirtyRows)
    {
      var context := BulkContext(fromAutosave);
      if |dirtyRows| == 0 {
        notice := NotifyResult(true, context, Some(NothingToSave));
        return true, None, notice;
      }
      var items := CollectDirty(table);
      if |items| == 0 {
        notice := NotifyResult(true, context, Some(NothingToSave));
        return true, None, notice;
      }
      request := Some(Issue(POST, baseUrl, BulkPath, Some(BulkBody(items))));
      if outcome.Done? {
        dirtyRows := [];
        RenderDirtyCount();
        notice := NotifyResult(true, context, Some(SavedCountDetail(|items|)));
        ok := true;
      } else {
        notice := NotifyResult(false, context, outcome.detail);
        ok := false;
      }
    }

    /** `autosaveTick()`: skipped while saving or when nothing is dirty; otherwise a
        bulk save under the `isSaving` flag, which is false again afterwards. */
    method AutosaveTick(table: map<string, RowPayload>, outcome: Outcome)
      returns (ran: bool, request: Option<Request<Body>>, notice: Option<Notice>)
      requires DirtyValid()
      modifies this`isSaving, this`dirtyRows, this`dirtyCountText
      ensures DirtyValid()
      ensures ran <==> !old(isSaving) && old(dirtyRows) != []
      ensures !ran ==> isSaving == old(isSaving) && dirtyRows == old(dirtyRows)
                       && request.None? && notice.None?
      ensures ran ==> !isSaving && notice.Some?
                      && SavedAll(old(dirtyRows), table, true, outcome, request, notice.value)
    {
      if isSaving {
        return false, None, None;
      }
      if |dirtyRows| == 0 {
        return false, None, None;
      }
      isSaving := true;
      var ok, n;
      ok, request, n := SaveAllDirty(true, table, outcome);
      isSaving := false;
      ran, notice := true, Some(n);
    }

    /** The click handler of `#btn-save-all`: dropped while a save is in flight. */
    method OnSaveAllClick(table: map<string, RowPayload>, outcome: Outcome)
      returns (ran: bool, request: Option<Request<Body>>, notice: Option<Notice>)
      requires DirtyValid()
      modifies this`isSaving, this`dirtyRows, this`dirtyCountText
      ensures DirtyValid()
      ensures ran <==> !old(isSaving)
      ensures !ran ==> isSaving && dirtyRows == old(dirtyRows) && request.None? && notice.None?
      ensures ran ==> !isSaving && notice.Some?
                      && SavedAll(old(dirtyRows), table, false, outcome, request, notice.value)
    {
      if isSaving {
        return false, None, None;
      }
      isSaving := true;
      var ok, n;
      ok, request, n := SaveAllDirty(false, table, outcome);
      isSaving := false;
      ran, notice := true, Some(n);
    }

    /** The "save" button of a row: ignored while a save is in flight, and for a row without id where `skipsEmptyId`. */
    method OnRowSaveClick(id: string, payload: RowPayload, outcome: Outcome)
      returns (ran: bool, request: Option<Request<Body>>, notice: Option<Notice>)
      requires DirtyValid()
      modifies this`isSaving, this`dirtyRows, this`dirtyCountText
      ensures DirtyValid()
      ensures ran <==> !(skipsEmptyId && id == "") && !old(isSaving)
      ensures !ran ==> isSaving == old(isSaving) && dirtyRows == old(dirtyRows) && request.None? && notice.None?
      ensures ran ==> !isSaving
                      && request == Some(Request(PUT, BuildUrl(baseUrl, RowPath(id)), Some(RowBody(payload))))
                      && dirtyRows == (if outcome.Done? then Remove(old(dirtyRows), id) else old(dirtyRows))
                      && notice.Some?
                      && notice.value == (if outcome.Done? then NotifyResult(true, RowContext(id, false), Some(""))
                                          else NotifyResult(false, RowContext(id, false), outcome.detail))
    {
      if (skipsEmptyId && id == "") || isSaving {
        return false, None, None;
      }
      isSaving := true;
      var ok, r, n := SaveRow(id, payload, false, outcome);
      isSaving := false;
      ran, request, notice := true, Some(r), Some(n);
    }

    /** The "delete" button of a row: needs the user's confirmation (and an id where `skipsEmptyId`); not guarded by `isSaving`. */
    method OnRowDeleteClick(id: string, confirmed: bool, outcome: Outcome)
      returns (request: Option<Request<Body>>, notice: Option<Notice>)
      requires DirtyValid()
      modifies this`dirtyRows, this`dirtyCountText
      ensures DirtyValid()
      ensures request.Some? <==> !(skipsEmptyId && id == "") && confirmed
      ensures request.None? ==> dirtyRows == old(dirtyRows) && notice.None?
      ensures request.Some? ==>
                request.value == Request(DELETE, BuildUrl(baseUrl, RowPath(id)), None)
                && dirtyRows == (if outcome.Done? then Remove(old(dirtyRows), id) else old(dirtyRows))
                && notice.Some?
                && notice.value == (if outcome.Done? then NotifyResult(true, DeleteContext(id), Some(""))
                                    else NotifyResult(false, DeleteContext(id), outcome.detail))
    {
      if (skipsEmptyId && id == "") || !confirmed {
        return None, None;
      }
      var r, n := DeleteRow(id, outcome);
      request, notice := Some(r), Some(n);
    }
  }
}
