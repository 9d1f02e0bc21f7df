/** The browser's API client (frontend/src/api/axios.js): the base URL, the admin-token
    helpers, the response-error normaliser and the two calls the pages make. The network is
    a parameter `net` that says what becomes of each request. */
module ApiClient {
  import opened Wrappers
  import opened JsSemantics

  const DefaultApiRoot := "http://localhost:5000"
  const TokenKey := "ADMIN_TOKEN"
  const AdminHeader := "x-admin-token"
  const RequestFailedText := "Request failed"
  const DefaultPage := 1
  const DefaultLimit := 20

  /** The headers every request of the instance carries besides the common ones. */
  const JsonHeaders := map["Content-Type" := Str("application/json"), "Accept" := Str("application/json")]

  /** `(VITE_API_URL || default).replace(/\/$/, "")`: one trailing slash is removed. */
  function ApiRoot(viteApiUrl: Option<string>): (root: string)
    ensures var raw := EnvOr(viteApiUrl, Some(DefaultApiRoot)).value;
      && (raw != [] && raw[|raw| - 1] == '/' ==> root + "/" == raw)
      && (raw == [] || raw[|raw| - 1] != '/' ==> root == raw)
  {
    var raw := EnvOr(viteApiUrl, Some(DefaultApiRoot)).value;
    if raw != [] && raw[|raw| - 1] == '/' then raw[..|raw| - 1] else raw
  }

  /** Exactly one slash goes: a root given with a trailing slash is the same root without
      it, even when more slashes precede it. */
  lemma TrailingSlashRemovedOnce(u: string)
    ensures ApiRoot(Some(u + "/")) == u
  {
  }

  /** A root without a trailing slash is kept as given; unset or empty gives the default. */
  lemma RootKeptOrDefaulted(u: string)
    requires u != [] && u[|u| - 1] != '/'
    ensures ApiRoot(Some(u)) == u
    ensures ApiRoot(None) == DefaultApiRoot && ApiRoot(Some("")) == DefaultApiRoot
  {
  }

  /** What a rejected request is turned into by the response interceptor. */
  datatype NormalizedError = NormalizedError(status: JsValue, message: JsValue, data: JsValue, url: JsValue, httpMethod: JsValue)

  /** The interceptor's error branch, on the error value `err` that axios rejects with. */
  function NormalizeError(err: JsValue): (e: NormalizedError)
    ensures var response := Get(err, "response");
      && (Truthy(Get(response, "status")) ==> e.status == Get(response, "status"))
      && (!Truthy(Get(response, "status")) ==> e.status == Num(0))
      && e.data == Get(response, "data")
      && e.url == Get(Get(err, "config"), "url") && e.httpMethod == Get(Get(err, "config"), "method")
  {
    var response := Get(err, "response");
    var data := Get(response, "data");
    NormalizedError(
      Or(Get(response, "status"), Num(0)),
      Or(Or(Or(Get(data, "error"), Get(data, "message")), Get(err, "message")), Str(RequestFailedText)),
      data,
      Get(Get(err, "config"), "url"),
      Get(Get(err, "config"), "method"))
  }

  /** The message is the first truthy one of the server's `error`, the server's `message`
      and the error's own `message`, and "Request failed" when none is; it is never falsy. */
  lemma NormalizedMessage(err: JsValue)
    ensures var data, m := Get(Get(err, "response"), "data"), NormalizeError(err).message;
      && Truthy(m)
      && (Truthy(Get(data, "error")) ==> m == Get(data, "error"))
      && (!Truthy(Get(data, "error")) && Truthy(Get(data, "message")) ==> m == Get(data, "message"))
      && (!Truthy(Get(data, "error")) && !Truthy(Get(data, "message")) ==>
            (Truthy(Get(err, "message")) ==> m == Get(err, "message"))
            && (!Truthy(Get(err, "message")) ==> m == Str(RequestFailedText)))
  {
  }

  /** Without a response (the server unreachable) the status is 0 and there is no data. */
  lemma NoResponseIsStatusZero(err: JsValue)
    requires Nullish(Get(err, "response"))
    ensures NormalizeError(err).status == Num(0) && NormalizeError(err).data == Undefined
  {
  }

  /** A request as the instance sends it. */
  datatype HttpRequest = HttpRequest(
    httpMethod: string, url: string, params: map<string, JsValue>, data: JsValue, headers: map<string, JsValue>)

  /** What the network and the server make of a request: a 2xx response with its body, or
      the error axios rejects with. */
  datatype AxiosOutcome = Fulfilled(data: JsValue) | Failed(err: JsValue)

  /** How a call of the client fails: the normalised rejection, or a `TypeError` thrown
      before any request. */
  datatype ClientError = Rejected(error: NormalizedError) | TypeError

  /** The body of a fulfilled response, or the normalised rejection. */
  function Settle(outcome: AxiosOutcome): (r: Result<JsValue, ClientError>)
    ensures outcome.Fulfilled? <==> r.Ok?
    ensures outcome.Fulfilled? ==> r.value == outcome.data
    ensures outcome.Failed? ==> r == Err(Rejected(NormalizeError(outcome.err)))
  {
    match outcome
    case Fulfilled(data) => Ok(data)
    case Failed(err) => Err(Rejected(NormalizeError(err)))
  }

  /** The query of `fetchContactRequests(arg)`: the destructuring defaults apply to an
      absent argument and to absent keys; `null` cannot be destructured. */
  function ListingQuery(arg: JsValue): (q: Option<map<string, JsValue>>)
    ensures q.None? <==> arg.Null?
    ensures q.Some? ==>
      && q.value.Keys == {"page", "limit"}
      && q.value["page"] == DefaultIfUndefined(Get(arg, "page"), Num(DefaultPage))
      && q.value["limit"] == DefaultIfUndefined(Get(arg, "limit"), Num(DefaultLimit))
  {
    if arg.Null? then None
    else
      var opts := DefaultIfUndefined(arg, Obj(map[]));
      Some(map["page" := DefaultIfUndefined(Get(opts, "page"), Num(DefaultPage)),
               "limit" := DefaultIfUndefined(Get(opts, "limit"), Num(DefaultLimit))])
  }

  /** The axios instance with its `localStorage`: `storage` is the browser's storage and
      `commonHeaders` is `api.defaults.headers.common`. */
  class Client {
    const baseUrl: string
    var storage: map<string, string>
    var commonHeaders: map<string, JsValue>

    /** Module load: the instance is created and a stored, non-empty token is installed. */
    constructor (viteApiUrl: Option<string>, storage: map<string, string>)
      ensures baseUrl == ApiRoot(viteApiUrl) + "/api"
      ensures this.storage == storage
      ensures TokenKey in storage && storage[TokenKey] != "" ==> commonHeaders == map[AdminHeader := Str(storage[TokenKey])]
      ensures !(TokenKey in storage && storage[TokenKey] != "") ==> commonHeaders == map[]
    {
      baseUrl := ApiRoot(viteApiUrl) + "/api";
      this.storage := storage;
      commonHeaders := map[];
      new;
      // the start-up function: install a stored token
      if TokenKey in storage && storage[TokenKey] != "" {
        commonHeaders := commonHeaders[AdminHeader := Str(storage[TokenKey])];
      }
    }

    /** `setAdminToken(token)`: a falsy token changes nothing; a truthy one is stored (as
        text) and installed as the header. */
    method SetAdminToken(token: JsValue)
      modifies this
      ensures Truthy(token) ==>
        && storage == old(storage)[TokenKey := ToJsString(token)]
        && commonHeaders == old(commonHeaders)[AdminHeader := token]
      ensures !Truthy(token) ==> storage == old(storage) && commonHeaders == old(commonHeaders)
    {
      if Truthy(token) {
        storage := storage[TokenKey := ToJsString(token)];
        commonHeaders := commonHeaders[AdminHeader := token];
      }
    }

    /** The headers of a request: the common ones, overridden by the instance's own. */
    function Headers(): (h: map<string, JsValue>)
      reads this
      ensures h.Keys == JsonHeaders.Keys + commonHeaders.Keys
      ensures forall k :: k in JsonHeaders ==> h[k] == JsonHeaders[k]
      ensures forall k :: k in commonHeaders && k !in JsonHeaders ==> h[k] == commonHeaders[k]
    {
      commonHeaders + JsonHeaders
    }

    /** The request `submitContact(payload)` sends. */
    function ContactPost(payload: JsValue): (r: HttpRequest)
      reads this
    {
      HttpRequest("post", baseUrl + "/contact", map[], payload, Headers())
    }

    /** `submitContact(payload)`: POST the payload and resolve with the response body. */
    function SubmitContact(payload: JsValue, net: HttpRequest -> AxiosOutcome): (r: Result<JsValue, ClientError>)
      reads this
      ensures var out := net(ContactPost(payload));
        && (out.Fulfilled? ==> r == Ok(out.data))
        && (out.Failed? ==> r == Err(Rejected(NormalizeError(out.err))))
    {
      Settle(net(ContactPost(payload)))
    }

    /** `fetchContactRequests(arg)`: GET the listing with the query and resolve with the
        response body. */
    function FetchContactRequests(arg: JsValue, net: HttpRequest -> AxiosOutcome): (r: Result<JsValue, ClientError>)
      reads this
      ensures arg.Null? ==> r == Err(TypeError)
      ensures !arg.Null? ==>
        var req := HttpRequest("get", baseUrl + "/admin/requests", ListingQuery(arg).value, Undefined, Headers());
        r == Settle(net(req))
    {
      match ListingQuery(arg)
      case None => Err(TypeError)
      case Some(query) => Settle(net(HttpRequest("get", baseUrl + "/admin/requests", query, Undefined, Headers())))
    }
  }

  /** Called without an argument, the listing asks for page 1 of 20. */
  lemma DefaultListingQuery()
    ensures ListingQuery(Undefined) == Some(map["page" := Num(1), "limit" := Num(20)])
  {
  }

  /** Once a token is set, every later request carries it in `x-admin-token`; the JSON
      headers stay. */
  lemma TokenReachesRequests(c: Client, token: JsValue, payload: JsValue)
    requires AdminHeader in c.commonHeaders && c.commonHeaders[AdminHeader] == token
    ensures c.ContactPost(payload).headers[AdminHeader] == token
    ensures c.ContactPost(payload).headers["Content-Type"] == Str("application/json")
  {
  }
}
