/** The HTTP client wrapper of js/util.js: URL building against the resolved
    base origin, the error text of a failed response, and the four request
    wrappers. `fetch` itself is abstracted: a request is described by a
    `Request` value and its outcome is supplied as a `Fetched` value. */
module Util {
  import opened Js

  /** What `JSON.parse` makes of a body: a syntax error, `null`, or some other
      JSON value, of which only the string-valued `error` and `message`
      properties matter (both `None` for arrays, numbers and objects without them). */
  datatype Parsed = NotJson(syntaxError: JsError) | JsonNull | Json(error: Option<string>, message: Option<string>)

  /** A received HTTP response: `res.ok`, `res.status`, `res.text()` and the parse of that text. */
  datatype Response = Response(ok: bool, status: nat, text: string, body: Parsed)

  /** What `await fetch(...)` gives: a response, or a rejection (network failure). */
  datatype Fetched = Received(res: Response) | Rejected(err: JsError)

  datatype Verb = GET | POST | PUT | DELETE

  /** A request as issued: verb, absolute or same-origin URL, and the JSON body if any. */
  datatype Request<B> = Request(verb: Verb, url: string, body: Option<B>)

  /** The request `fetch(buildUrl(path), {method, body})` issues; the tracker's saves and
      deletes build theirs the same way. */
  function Issue<B>(verb: Verb, base: string, path: string, body: Option<B>): Request<B>
  {
    Request(verb, BuildUrl(base, path), body)
  }

  /** A request together with how the wrapper's promise settles. */
  datatype Exchange<B> = Exchange(request: Request<B>, result: Result<Parsed>)

  /** `buildUrl(path)` resolved against the base origin `base` (`API_BASE_URL`). */
  function BuildUrl(base: string, path: string): (r: string)
    ensures path == "" ==> r == base
    ensures path != "" && StartsWith(path, "http") ==> r == path
    ensures path != "" && !StartsWith(path, "http") ==>
              StartsWith(r, base) && |r| > |base| && r[|base|] == '/'
    ensures path != "" && !StartsWith(path, "http") && path[0] != '/' ==> r == base + "/" + path
    ensures path != "" && !StartsWith(path, "http") && path[0] == '/' ==> r == base + path
  {
    if path == "" then base
    else if StartsWith(path, "http") then path
    else
      var p := if path[0] == '/' then path else "/" + path;
      assert (base + p)[..|base|] == base;
      base + p
  }

  /** A relative path with or without its leading slash reaches the same URL. */
  lemma BuildUrlLeadingSlashIrrelevant(base: string, path: string)
    requires path != "" && path[0] != '/' && !StartsWith(path, "http")
    ensures BuildUrl(base, "/" + path) == BuildUrl(base, path)
  {
    assert ("/" + path)[..1] != "h";
    assert !StartsWith("/" + path, "http");
    assert base + ("/" + path) == base + "/" + path;
  }

  /** With the same-origin base "" a rooted path is used as it is. */
  lemma BuildUrlSameOrigin(path: string)
    requires path != "" && path[0] == '/'
    ensures BuildUrl("", path) == path
  {
    assert path[..1] != "h";
    assert !StartsWith(path, "http");
  }

  /** `HTTP <status>`. */
  function HttpStatusText(status: nat): (r: string)
    ensures StartsWith(r, "HTTP ") && r[5..] == NatToString(status)
    ensures AllDigits(r[5..]) && DigitsValue(r[5..]) == status
  {
    DigitsValueOfNatToString(status);
    var r := "HTTP " + NatToString(status);
    assert r[..5] == "HTTP ";
    r
  }

  /** `_readErrorText(res)`: the JSON body's `error`, else its `message`, else
      the raw text, else `HTTP <status>`. A `null` body makes the property read
      throw inside the `try`, which falls back like a body that is not JSON. */
  function ReadErrorText(res: Response): (r: string)
    ensures r != ""
    ensures res.body.Json? && Truthy(res.body.error) ==> r == res.body.error.value
    ensures res.body.Json? && !Truthy(res.body.error) && Truthy(res.body.message) ==>
              r == res.body.message.value
    ensures (!res.body.Json? || (!Truthy(res.body.error) && !Truthy(res.body.message))) ==>
              r == (if res.text != "" then res.text else HttpStatusText(res.status))
  {
    var fallback := Or(Some(res.text), Some(HttpStatusText(res.status)));
    match res.body
    case Json(error, message) => Or(error, Or(message, fallback)).value
    case _ => fallback.value
  }

  /** How each wrapper settles once `fetch` has settled: the rejection passes
      through; a non-ok response rejects with `new Error(_readErrorText(res))`;
      an ok response resolves with `res.json()`, which rejects when the body is not JSON. */
  function Settle(f: Fetched): (r: Result<Parsed>)
    ensures f.Rejected? ==> r == Err(f.err)
    ensures f.Received? && !f.res.ok ==> r == Err(Thrown(ReadErrorText(f.res)))
    ensures f.Received? && f.res.ok ==>
              (if f.res.body.NotJson? then r == Err(f.res.body.syntaxError) else r == Ok(f.res.body))
    ensures r.Ok? <==> f.Received? && f.res.ok && !f.res.body.NotJson?
  {
    match f
    case Rejected(e) => Err(e)
    case Received(res) =>
      if !res.ok then Err(Thrown(ReadErrorText(res)))
      else if res.body.NotJson? then Err(res.body.syntaxError)
      else Ok(res.body)
  }

  /** A failed HTTP status always rejects with a non-empty message. */
  lemma HttpFailureMessageNonEmpty(res: Response)
    requires !res.ok
    ensures Settle(Received(res)).Err? && Settle(Received(res)).error.message != ""
  {
  }

  /** `getData(path)`. */
  function GetData<B>(base: string, path: string, f: Fetched): (x: Exchange<B>)
    ensures x.request == Request(GET, BuildUrl(base, path), None)
    ensures x.result.Ok? <==> f.Received? && f.res.ok && !f.res.body.NotJson?
    ensures x.result == Settle(f)
  {
    Exchange(Issue(GET, base, path, None), Settle(f))
  }

  /** `postData(path, data)`. */
  function PostData<B>(base: string, path: string, data: B, f: Fetched): (x: Exchange<B>)
    ensures x.request == Request(POST, BuildUrl(base, path), Some(data))
    ensures x.result.Ok? <==> f.Received? && f.res.ok && !f.res.body.NotJson?
    ensures x.result == Settle(f)
  {
    Exchange(Issue(POST, base, path, Some(data)), Settle(f))
  }

  /** `putData(path, data)`. */
  function PutData<B>(base: string, path: string, data: B, f: Fetched): (x: Exchange<B>)
    ensures x.request == Request(PUT, BuildUrl(base, path), Some(data))
    ensures x.result.Ok? <==> f.Received? && f.res.ok && !f.res.body.NotJson?
    ensures x.result == Settle(f)
  {
    Exchange(Issue(PUT, base, path, Some(data)), Settle(f))
  }

  /** `deleteData(path)`. */
  function DeleteData<B>(base: string, path: string, f: Fetched): (x: Exchange<B>)
    ensures x.request == Request(DELETE, BuildUrl(base, path), None)
    ensures x.result.Ok? <==> f.Received? && f.res.ok && !f.res.body.NotJson?
    ensures x.result == Settle(f)
  {
    Exchange(Issue(DELETE, base, path, None), Settle(f))
  }
}
