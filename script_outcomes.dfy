/** How saveRow, deleteRow and saveAllDirty of js/script.js turn the settled
    util.js wrapper into an `Outcome`. */
module ScriptOutcomes {
  import opened Js
  import opened Helpers
  import opened Util
  import opened Tracker

  /** `try { await wrapper(...) } catch (e)`: success when the wrapper resolves,
      otherwise failure with detail `e?.message || String(e)`. */
  function FromSettled(r: Result<Parsed>): (o: Outcome)
    ensures o.Done? <==> r.Ok?
    ensures r.Err? ==> o == Failed(Some(MessageOrString(r.error)))
    ensures r.Err? && r.error.message != "" ==> o.detail == Some(r.error.message)
    ensures r.Err? && (r.error.name != "" || r.error.message != "") ==> Truthy(o.detail)
  {
    match r
    case Ok(_) => Done
    case Err(e) => Failed(Some(MessageOrString(e)))
  }

  /** The outcome of one request, from what `fetch` gave. */
  function FromFetched(f: Fetched): (o: Outcome)
    ensures o.Done? <==> f.Received? && f.res.ok && !f.res.body.NotJson?
    ensures f.Received? && !f.res.ok ==> o == Failed(Some(ReadErrorText(f.res)))
    ensures f.Rejected? ==> o == Failed(Some(MessageOrString(f.err)))
  {
    FromSettled(Settle(f))
  }

  /** A failed HTTP status is reported with the error text of the response, never the generic reason. */
  lemma HttpFailureReason(res: Response, context: string)
    requires !res.ok
    ensures var n := NotifyResult(false, context, FromFetched(Received(res)).detail);
            n.toastMessage == context + " 실패: " + ReadErrorText(res)
            && n.popupMessage == context + " 실패\n\n" + ReadErrorText(res)
  {
    assert FromFetched(Received(res)).detail == Some(ReadErrorText(res));
  }

  /** A 2xx response whose body is not JSON still counts as a failure here, because
      the wrappers resolve with `res.json()`. */
  lemma OkWithoutJsonFails(res: Response)
    requires res.ok && res.body.NotJson?
    ensures FromFetched(Received(res)) == Failed(Some(MessageOrString(res.body.syntaxError)))
  {
  }
}
