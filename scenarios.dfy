/** The tracker's results on three concrete inputs, each proved by the verifier. */
module Scenarios {
  import opened Js
  import opened Helpers
  import opened Util
  import opened Tracker
  import ScriptOutcomes

  /** Enabling autosave at 10 minutes and then choosing 60 leaves exactly one
      running interval, the one started from "60". */
  method AutosaveReconfigured() returns (active: set<nat>, timer: Option<Timer>)
    ensures timer.Some? && timer.value.minutes == "60"
    ensures active == {timer.value.handle}
  {
    var s := new InventoryState(true, true, true, "", map[], DefaultMinutes);
    s.OnIntervalChange("10");
    s.OnAutosaveToggle(true);
    s.OnIntervalChange("60");
    active, timer := s.activeIntervals, s.autosaveTimer;
  }

  /** An autosave tick while a manual save is in flight does nothing and notifies nothing. */
  method TickDuringManualSave(outcome: Outcome) returns (ran: bool, request: Option<Request<Body>>, notice: Option<Notice>, dirty: seq<string>)
    ensures !ran && request.None? && notice.None? && dirty == ["1"]
  {
    var s := new InventoryState(true, true, true, "", map[], DefaultMinutes);
    s.SetDirty("1", true);
    s.isSaving := true;
    ran, request, notice := s.AutosaveTick(map["1" := RowPayload("1", "고등어", "중", "2", "3000")], outcome);
    dirty := s.dirtyRows;
  }

  /** A PUT answered with HTTP 500 and `{"error":"db locked"}`: the save fails, the
      failure toast names "db locked", and the row stays dirty. */
  method DbLockedSave() returns (ok: bool, stillDirty: bool, toast: string)
    ensures !ok && stillDirty
    ensures toast == "개별 저장(ID:1) 실패: db locked"
  {
    var s := new InventoryState(true, true, true, "", map[], DefaultMinutes);
    s.SetDirty("1", true);
    var res := Response(false, 500, "{\"error\":\"db locked\"}", Json(Some("db locked"), None));
    assert ReadErrorText(res) == "db locked";
    var outcome := ScriptOutcomes.FromFetched(Received(res));
    assert outcome == Failed(Some("db locked"));
    var request, notice;
    ok, request, notice := s.SaveRow("1", RowPayload("1", "고등어", "중", "2", "3000"), false, outcome);
    stillDirty := "1" in s.dirtyRows;
    toast := notice.toastMessage;
    assert toast == RowContext("1", false) + " 실패: " + "db locked";
  }
}
