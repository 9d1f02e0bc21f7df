/** The admin API (backend/routes/adminRoutes.js): the shared-secret gate and the paginated,
    newest-first listing of the stored contact requests. */
module AdminRoutes {
  import opened Wrappers
  import opened JsSemantics
  import opened ContactRequestModel

  const UnauthorizedText := "UNAUTHORIZED"
  const DefaultPage := 1
  const DefaultLimit := 20
  const MaxLimit := 100

  /** What `requireAdmin` does with a request: pass it on with `next()`, or answer 401. */
  datatype Gate = Proceed | Deny

  /** `requireAdmin`: `token` is the `x-admin-token` header and `secret` is `ADMIN_TOKEN`,
      each absent or a string. An empty header is falsy and refused before the comparison,
      and a header never equals an unset secret. */
  function RequireAdmin(token: Option<string>, secret: Option<string>): (g: Gate)
    ensures g == Proceed <==> token.Some? && token.value != "" && secret == token
  {
    if token.None? || token.value == "" then Deny
    else if secret != token then Deny
    else Proceed
  }

  /** Without a header nothing gets through, whatever the secret. */
  lemma MissingTokenIsDenied(secret: Option<string>)
    ensures RequireAdmin(None, secret) == Deny && RequireAdmin(Some(""), secret) == Deny
  {
  }

  /** While `ADMIN_TOKEN` is unset every request is refused. */
  lemma UnsetSecretDeniesAll(token: Option<string>)
    ensures RequireAdmin(token, None) == Deny
  {
  }

  /** `Number(raw || d)` for a query parameter that is absent or one string: an absent or
      empty parameter gives the default. None is a value outside the decimal integers
      (`NaN`, a fraction, an exponent form), which the model does not follow. */
  function QueryNumber(raw: Option<string>, d: int): (n: Option<int>)
    ensures raw.None? || raw == Some("") ==> n == Some(d)
    ensures raw.Some? && raw.value != "" ==> n == ToNumber(raw.value)
  {
    if raw.None? || raw.value == "" then Some(d) else ToNumber(raw.value)
  }

  /** `Math.max(1, n)` */
  function ClampPage(n: int): (page: int)
    ensures page >= 1
    ensures n >= 1 ==> page == n
    ensures n < 1 ==> page == 1
  {
    if n < 1 then 1 else n
  }

  /** `Math.min(100, Math.max(1, n))` */
  function ClampLimit(n: int): (limit: int)
    ensures 1 <= limit <= MaxLimit
    ensures 1 <= n <= MaxLimit ==> limit == n
    ensures n < 1 ==> limit == 1
    ensures n > MaxLimit ==> limit == MaxLimit
  {
    if n < 1 then 1 else if n > MaxLimit then MaxLimit else n
  }

  /** `(page - 1) * limit`, the number of newer records before the page. */
  function Skip(page: int, limit: int): (skip: nat)
    requires page >= 1 && limit >= 1
    ensures skip == (page - 1) * limit
  {
    (page - 1) * limit
  }

  /** The order `sort({ createdAt: -1 })` promises. */
  predicate NewestFirst(s: seq<ContactRequest>) {
    forall i, j :: 0 <= i < j < |s| ==> s[i].createdAt >= s[j].createdAt
  }

  /** Puts `c` into a newest-first sequence, before every record not newer than it. */
  function Insert(c: ContactRequest, s: seq<ContactRequest>): (r: seq<ContactRequest>)
    requires NewestFirst(s)
    ensures NewestFirst(r)
    ensures multiset(r) == multiset(s) + multiset{c}
    ensures |r| == |s| + 1
    ensures r[0] == c || (s != [] && r[0] == s[0])
  {
    if s == [] then [c]
    else if c.createdAt >= s[0].createdAt then PrependNewest(c, s); [c] + s
    else
      var rest := Insert(c, s[1..]);
      PrependNewest(s[0], rest);
      assert s == [s[0]] + s[1..];
      [s[0]] + rest
  }

  /** A record no older than the head of a newest-first sequence can go in front of it. */
  lemma PrependNewest(x: ContactRequest, s: seq<ContactRequest>)
    requires NewestFirst(s)
    requires s == [] || x.createdAt >= s[0].createdAt
    ensures NewestFirst([x] + s)
  {
    var r := [x] + s;
    forall i, j | 0 <= i < j < |r| ensures r[i].createdAt >= r[j].createdAt {
      if i == 0 {
        assert r[j] == s[j - 1];
      } else {
        assert r[i] == s[i - 1] && r[j] == s[j - 1];
      }
    }
  }

  /** The store's records in the order the listing returns them: newest first, and a
      permutation of the store. Records with equal timestamps keep their storage order. */
  function SortNewestFirst(s: seq<ContactRequest>): (r: seq<ContactRequest>)
    ensures NewestFirst(r)
    ensures multiset(r) == multiset(s)
    ensures |r| == |s|
  {
    if s == [] then []
    else
      assert s == [s[0]] + s[1..];
      Insert(s[0], SortNewestFirst(s[1..]))
  }

  /** `skip(skip).limit(limit)`: the records from position `skip` on, at most `limit` of them;
      past the end it is empty. */
  function Window(s: seq<ContactRequest>, skip: nat, limit: nat): (w: seq<ContactRequest>)
    ensures |w| <= limit
    ensures skip <= |s| ==> |w| == if |s| - skip < limit then |s| - skip else limit
    ensures forall k :: 0 <= k < |w| ==> skip + k < |s| && w[k] == s[skip + k]
  {
    if skip >= |s| then []
    else if |s| - skip < limit then s[skip..]
    else s[skip..skip + limit]
  }

  /** The answers of the router: 401 `{ error }` and 200 with the page. `NonIntegerQuery`
      stands for a query the model does not follow (see `QueryNumber`); it has no status. */
  datatype AdminReply =
    | Unauthorized(error: string)
    | Listing(total: nat, page: int, limit: int, items: seq<ContactRequest>)
    | NonIntegerQuery
  {
    function Status(): int
      requires !NonIntegerQuery?
    {
      match this
      case Unauthorized(_) => 401
      case Listing(_, _, _, _) => 200
    }
  }

  /** The `/requests` handler on one snapshot of the store: clamp the query, count all
      records, and return the page of the newest-first order. */
  function ListRequests(records: seq<ContactRequest>, pageRaw: Option<string>, limitRaw: Option<string>): (r: AdminReply)
    ensures r.Listing? || r == NonIntegerQuery
    ensures r.Listing? <==> QueryNumber(pageRaw, DefaultPage).Some? && QueryNumber(limitRaw, DefaultLimit).Some?
    ensures r.Listing? ==>
      && r.page == ClampPage(QueryNumber(pageRaw, DefaultPage).value)
      && r.limit == ClampLimit(QueryNumber(limitRaw, DefaultLimit).value)
    ensures r.Listing? ==>
      && r.total == |records|
      && r.page >= 1 && 1 <= r.limit <= MaxLimit
      && r.items == Window(SortNewestFirst(records), Skip(r.page, r.limit), r.limit)
  {
    var p := QueryNumber(pageRaw, DefaultPage);
    var l := QueryNumber(limitRaw, DefaultLimit);
    if p.None? || l.None? then NonIntegerQuery
    else
      var page := ClampPage(p.value);
      var limit := ClampLimit(l.value);
      var skip := Skip(page, limit);
      Listing(|records|, page, limit, Window(SortNewestFirst(records), skip, limit))
  }

  /** `GET /requests`: the gate, then the handler. */
  function GetRequests(records: seq<ContactRequest>, token: Option<string>, secret: Option<string>,
                       pageRaw: Option<string>, limitRaw: Option<string>): (r: AdminReply)
    ensures r.Unauthorized? <==> RequireAdmin(token, secret) == Deny
    ensures r.Unauthorized? ==> r.error == UnauthorizedText
    ensures RequireAdmin(token, secret) == Proceed ==> r == ListRequests(records, pageRaw, limitRaw)
  {
    match RequireAdmin(token, secret)
    case Deny => Unauthorized(UnauthorizedText)
    case Proceed => ListRequests(records, pageRaw, limitRaw)
  }

  /** A refused request is answered 401 and sees no record; the listing is unreachable. */
  lemma DeniedRequestSeesNothing(records: seq<ContactRequest>, token: Option<string>, secret: Option<string>,
                                 pageRaw: Option<string>, limitRaw: Option<string>)
    requires RequireAdmin(token, secret) == Deny
    ensures GetRequests(records, token, secret, pageRaw, limitRaw).Status() == 401
    ensures GetRequests(records, token, secret, pageRaw, limitRaw) == GetRequests([], token, secret, None, None)
  {
  }

  /** With no query the first 20 records, newest first, are listed as page 1 of limit 20. */
  lemma DefaultQuery(records: seq<ContactRequest>)
    ensures var r := ListRequests(records, None, None);
      && r == Listing(|records|, 1, 20, Window(SortNewestFirst(records), 0, 20))
  {
  }

  /** A query written as `String(n)`, for integers `n` that a double holds exactly, is read
      back as `n` and then clamped. */
  lemma IntegerQuery(records: seq<ContactRequest>, page: int, limit: int)
    requires IsExactInteger(page) && IsExactInteger(limit)
    ensures var p, l := ClampPage(page), ClampLimit(limit);
      ListRequests(records, Some(IntToString(page)), Some(IntToString(limit)))
      == Listing(|records|, p, l, Window(SortNewestFirst(records), Skip(p, l), l))
  {
    ToNumberIntToString(page);
    ToNumberIntToString(limit);
    assert QueryNumber(Some(IntToString(page)), DefaultPage) == Some(page);
    assert QueryNumber(Some(IntToString(limit)), DefaultLimit) == Some(limit);
  }

  /** Every record of the newest-first order is a stored record. */
  lemma SortedRecordsAreStored(records: seq<ContactRequest>)
    ensures forall k :: 0 <= k < |SortNewestFirst(records)| ==> SortNewestFirst(records)[k] in records
  {
    var sorted := SortNewestFirst(records);
    forall k | 0 <= k < |sorted| ensures sorted[k] in records {
      assert sorted[k] in multiset(sorted);
    }
  }

  /** A window of a newest-first sequence is newest first. */
  lemma WindowKeepsOrder(s: seq<ContactRequest>, skip: nat, limit: nat)
    requires NewestFirst(s)
    ensures NewestFirst(Window(s, skip, limit))
  {
    var w := Window(s, skip, limit);
    forall i, j | 0 <= i < j < |w| ensures w[i].createdAt >= w[j].createdAt {
      assert w[i] == s[skip + i] && w[j] == s[skip + j];
    }
  }

  /** The answer echoes the clamped query, and its items are newest first, at most `limit`
      of them, each a stored record. */
  lemma ListingIsAPageOfTheStore(records: seq<ContactRequest>, page: int, limit: int)
    requires IsExactInteger(page) && IsExactInteger(limit)
    ensures var r := ListRequests(records, Some(IntToString(page)), Some(IntToString(limit)));
      && r.Listing?
      && r.page == ClampPage(page) && r.limit == ClampLimit(limit)
      && |r.items| <= r.limit
      && NewestFirst(r.items)
      && forall k :: 0 <= k < |r.items| ==> r.items[k] in records
  {
    IntegerQuery(records, page, limit);
    var p, l := ClampPage(page), ClampLimit(limit);
    var sorted, skip := SortNewestFirst(records), Skip(p, l);
    var w := Window(sorted, skip, l);
    assert ListRequests(records, Some(IntToString(page)), Some(IntToString(limit))).items == w;
    WindowKeepsOrder(sorted, skip, l);
    SortedRecordsAreStored(records);
    forall k | 0 <= k < |w| ensures w[k] in records {
      assert w[k] == sorted[skip + k];
    }
  }

  lemma PageArithmetic(i: nat, limit: int)
    requires limit >= 1
    ensures 0 <= i / limit <= i && 0 <= i % limit < limit
    ensures Skip(i / limit + 1, limit) + i % limit == i
  {
  }

  /** Pagination covers the store: the `i`-th record of the newest-first order is item
      `i % limit` of page `i / limit + 1`. */
  lemma {:induction false} EveryRecordOnItsPage(records: seq<ContactRequest>, i: nat, limit: int)
    requires i < |records| <= MaxExactInteger && 1 <= limit <= MaxLimit
    ensures var r := ListRequests(records, Some(IntToString(i / limit + 1)), Some(IntToString(limit)));
      && r.Listing? && i % limit < |r.items|
      && r.items[i % limit] == SortNewestFirst(records)[i]
  {
    PageArithmetic(i, limit);
    var page, k := i / limit + 1, i % limit;
    IntegerQuery(records, page, limit);
    assert ClampPage(page) == page && ClampLimit(limit) == limit;
    var sorted, skip := SortNewestFirst(records), Skip(page, limit);
    assert skip + k == i && k < limit && |sorted| == |records|;
    WindowAt(sorted, skip, limit, k);
  }

  /** A position inside both the sequence and the limit is in the window. */
  lemma WindowAt(s: seq<ContactRequest>, skip: nat, limit: nat, k: nat)
    requires skip + k < |s| && k < limit
    ensures k < |Window(s, skip, limit)| && Window(s, skip, limit)[k] == s[skip + k]
  {
  }
}
