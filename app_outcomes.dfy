/** How saveRow, deleteRow and saveAllDirty of app.js derive an `Outcome` from
    a raw `fetch`, with `res.json().catch(...)` and a fixed fallback per operation. */
module AppOutcomes {
  import opened Js
  import opened Helpers
  import opened Util
  import opened Tracker
  import ScriptOutcomes

  const SaveFallback := "저장 실패"
  const DeleteFallback := "삭제 실패"
  const BulkFallback := "일괄 저장 실패"

  /** An ok response is a success and its body is not read. A non-ok response
      reports `err.error`, where `err` is the parsed body or `{error: fallback}`
      when the body is not JSON; reading `.error` of a `null` body throws the
      TypeError `nullRead`. A thrown error is reported as `String(e)`. */
  function FromFetched(f: Fetched, fallback: string, nullRead: JsError): (o: Outcome)
    ensures o.Done? <==> f.Received? && f.res.ok
    ensures f.Rejected? ==> o == Failed(Some(ErrorToString(f.err)))
    ensures f.Received? && !f.res.ok && f.res.body.NotJson? ==> o == Failed(Some(fallback))
    ensures f.Received? && !f.res.ok && f.res.body.JsonNull? ==> o == Failed(Some(ErrorToString(nullRead)))
    ensures f.Received? && !f.res.ok && f.res.body.Json? ==> o == Failed(f.res.body.error)
  {
    match f
    case Rejected(e) => Failed(Some(ErrorToString(e)))
    case Received(res) =>
      if res.ok then Done
      else match res.body
        case NotJson(_) => Failed(Some(fallback))
        case JsonNull => Failed(Some(ErrorToString(nullRead)))
        case Json(error, _) => Failed(error)
  }

  /** A JSON error body without a usable `error` field leaves the detail undefined,
      and the notification falls back to the generic reason. */
  lemma JsonWithoutErrorGivesGenericReason(res: Response, context: string, fallback: string, nullRead: JsError)
    requires !res.ok && res.body.Json? && !Truthy(res.body.error)
    ensures var n := NotifyResult(false, context, FromFetched(Received(res), fallback, nullRead).detail);
            n.toastMessage == context + " 실패: " + GenericReason
  {
    assert FromFetched(Received(res), fallback, nullRead).detail == res.body.error;
  }

  /** A body that is not JSON is reported with the operation's fallback text. */
  lemma NotJsonGivesFallback(res: Response, context: string, nullRead: JsError)
    requires !res.ok && res.body.NotJson?
    ensures var n := NotifyResult(false, context, FromFetched(Received(res), SaveFallback, nullRead).detail);
            n.toastMessage == context + " 실패: " + SaveFallback
  {
    assert FromFetched(Received(res), SaveFallback, nullRead).detail == Some(SaveFallback);
    assert FailureReason(Some(SaveFallback)) == SaveFallback;
  }

  /** Both variants agree on success and failure, except for a 2xx body that is not JSON. */
  lemma VariantsAgreeOnSuccess(f: Fetched, fallback: string, nullRead: JsError)
    requires !(f.Received? && f.res.ok && f.res.body.NotJson?)
    ensures FromFetched(f, fallback, nullRead).Done? <==> ScriptOutcomes.FromFetched(f).Done?
  {
  }

  /** Both variants report a non-empty `error` field of an HTTP error body verbatim. */
  lemma VariantsAgreeOnErrorField(res: Response, fallback: string, nullRead: JsError)
    requires !res.ok && res.body.Json? && Truthy(res.body.error)
    ensures FromFetched(Received(res), fallback, nullRead) == ScriptOutcomes.FromFetched(Received(res))
  {
  }

  /** Only js/script.js falls back to the `message` field: app.js shows the generic reason instead. */
  lemma MessageFieldOnlyInScript(status: nat, text: string, m: string, context: string, fallback: string, nullRead: JsError)
    requires m != ""
    ensures var res := Response(false, status, text, Json(None, Some(m)));
            NotifyResult(false, context, ScriptOutcomes.FromFetched(Received(res)).detail).toastMessage
              == context + " 실패: " + m
            && NotifyResult(false, context, FromFetched(Received(res), fallback, nullRead).detail).toastMessage
              == context + " 실패: " + GenericReason
  {
    var res := Response(false, status, text, Json(None, Some(m)));
    assert ReadErrorText(res) == m;
    assert ScriptOutcomes.FromFetched(Received(res)).detail == Some(m);
  }
}
