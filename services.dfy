/**
 * The four API slices (books, newspapers, courses, contact-us): the request each
 * endpoint builds, the cache tags each query provides and each mutation
 * invalidates, the headers every request carries, and the contact-us envelope
 * decoder.
 */
module Services {
  import opened Wrappers
  import opened Text
  import opened Types

  /** One API slice; the tag type of each slice is named after it. */
  datatype Resource = Books | Newspapers | Courses | Messages

  function BasePath(r: Resource): string {
    match r
    case Books => "api/v1/books"
    case Newspapers => "api/v1/newspapers"
    case Courses => "api/v1/courses"
    case Messages => "api/v1/contact-us"
  }

  // ----- the list query -----

  /** GetBooksParams and its siblings; every member is optional. */
  datatype ListParams = ListParams(page: Option<int>, limit: Option<int>, sort: Option<string>, keyword: Option<string>)

  const DefaultPage: int := 1
  const DefaultLimit: int := 10
  const DefaultSort: string := "-createdAt"

  /** The entries of a URLSearchParams, in order. */
  type QueryPairs = seq<(string, string)>

  /** The first value stored under `key`, if any (URLSearchParams.get). */
  function Lookup(q: QueryPairs, key: string): Option<string> {
    if q == [] then None else if q[0].0 == key then Some(q[0].1) else Lookup(q[1..], key)
  }

  function Without(q: QueryPairs, key: string): QueryPairs {
    if q == [] then [] else (if q[0].0 == key then [] else [q[0]]) + Without(q[1..], key)
  }

  /** Dropping every entry of `key` leaves what any other key reads unchanged. */
  lemma {:induction false} WithoutLookup(q: QueryPairs, key: string)
    ensures forall other :: other != key ==> Lookup(Without(q, key), other) == Lookup(q, other)
  {
    if q != [] {
      WithoutLookup(q[1..], key);
      if q[0].0 != key {
        var w := [q[0]] + Without(q[1..], key);
        assert w[0] == q[0] && w[1..] == Without(q[1..], key);
      } else {
        assert Without(q, key) == Without(q[1..], key);
      }
    }
  }

  /**
   * URLSearchParams.set: the first entry with `key` takes the new value and the
   * other entries with that key go; with no such entry the pair is appended.
   * Afterwards `get(key)` answers the new value and every other key reads as before.
   */
  function SetParam(q: QueryPairs, key: string, value: string): (r: QueryPairs)
    ensures Lookup(r, key) == Some(value)
    ensures forall other :: other != key ==> Lookup(r, other) == Lookup(q, other)
  {
    if q == [] then
      var r := [(key, value)];
      assert r[1..] == [];
      r
    else if q[0].0 == key then
      WithoutLookup(q[1..], key);
      var r := [(key, value)] + Without(q[1..], key);
      assert r[0] == (key, value) && r[1..] == Without(q[1..], key);
      r
    else
      var r := [q[0]] + SetParam(q[1..], key, value);
      assert r[0] == q[0] && r[1..] == SetParam(q[1..], key, value);
      r
  }

  lemma {:induction false} SetParamFresh(q: QueryPairs, key: string, value: string)
    requires forall i :: 0 <= i < |q| ==> q[i].0 != key
    ensures SetParam(q, key, value) == q + [(key, value)]
  {
    if q != [] {
      assert q[0].0 != key;
      SetParamFresh(q[1..], key, value);
      assert q == [q[0]] + q[1..];
    }
  }

  lemma LookupSingle(k: string, v: string, key: string)
    ensures Lookup([(k, v)], key) == if k == key then Some(v) else None
  {
    assert [(k, v)][1..] == [];
  }

  /** `get` on a concatenation answers from the first part that holds the key. */
  lemma {:induction false} LookupAppend(a: QueryPairs, b: QueryPairs, key: string)
    ensures Lookup(a + b, key) == if Lookup(a, key).Some? then Lookup(a, key) else Lookup(b, key)
  {
    if a == [] {
      assert a + b == b;
    } else {
      assert (a + b)[0] == a[0] && (a + b)[1..] == a[1..] + b;
      LookupAppend(a[1..], b, key);
    }
  }

  /** The defaults of the `params ?? {}` destructuring; they apply only to absent members. */
  function Effective(params: Option<ListParams>): ListParams {
    var p := params.GetOr(ListParams(None, None, None, None));
    ListParams(Some(p.page.GetOr(DefaultPage)), Some(p.limit.GetOr(DefaultLimit)),
               Some(p.sort.GetOr(DefaultSort)), p.keyword)
  }

  /**
   * The query string every list endpoint builds: page and limit always, in that
   * order, then sort only if non-empty, then keyword only if non-empty.
   */
  function ListQuery(params: Option<ListParams>): (q: QueryPairs)
  {
    var p := Effective(params);
    [("page", IntToString(p.page.value)), ("limit", IntToString(p.limit.value))]
    + (if p.sort.value != "" then [("sort", p.sort.value)] else [])
    + (if Truthy(p.keyword) then [("keyword", p.keyword.value)] else [])
  }

  datatype HttpMethod = GET | POST | PATCH | DELETE

  /** A request relative to the slice's base URL: method, path and query pairs. */
  datatype Request = Request(verb: HttpMethod, path: string, query: QueryPairs)

  /**
   * getAllBooks / getAllNewspapers / getAllCourses / getAllmessage: a fresh
   * URLSearchParams filled by successive `set` calls.
   */
  method GetAllQuery(r: Resource, params: Option<ListParams>) returns (req: Request)
    ensures req.verb == GET && req.path == BasePath(r)
    ensures req.query == ListQuery(params)
  {
    var p := params.GetOr(ListParams(None, None, None, None));
    var page := p.page.GetOr(DefaultPage);
    var limit := p.limit.GetOr(DefaultLimit);
    var sort := p.sort.GetOr(DefaultSort);
    var searchParams: QueryPairs := [];
    SetParamFresh(searchParams, "page", IntToString(page));
    searchParams := SetParam(searchParams, "page", IntToString(page));
    assert searchParams == [("page", IntToString(page))];
    SetParamFresh(searchParams, "limit", IntToString(limit));
    searchParams := SetParam(searchParams, "limit", IntToString(limit));
    assert searchParams == [("page", IntToString(page)), ("limit", IntToString(limit))];
    if sort != "" {
      SetParamFresh(searchParams, "sort", sort);
      searchParams := SetParam(searchParams, "sort", sort);
    }
    assert forall i :: 0 <= i < |searchParams| ==> searchParams[i].0 != "keyword";
    if p.keyword.Some? && p.keyword.value != "" {
      SetParamFresh(searchParams, "keyword", p.keyword.value);
      searchParams := SetParam(searchParams, "keyword", p.keyword.value);
    }
    req := Request(GET, BasePath(r), searchParams);
  }

  /**
   * What the server reads from a list query: page and limit always, with their
   * defaults; sort and keyword only when non-empty; nothing else.
   */
  lemma ListQueryLookup(params: Option<ListParams>, key: string)
    ensures var p := params.GetOr(ListParams(None, None, None, None));
            var sort := p.sort.GetOr("-createdAt");
            Lookup(ListQuery(params), key) ==
              if key == "page" then Some(IntToString(p.page.GetOr(1)))
              else if key == "limit" then Some(IntToString(p.limit.GetOr(10)))
              else if key == "sort" && sort != "" then Some(sort)
              else if key == "keyword" && Truthy(p.keyword) then p.keyword
              else None
  {
    var p := Effective(params);
    var pg := [("page", IntToString(p.page.value))];
    var lm := [("limit", IntToString(p.limit.value))];
    var st: QueryPairs := if p.sort.value != "" then [("sort", p.sort.value)] else [];
    var kw: QueryPairs := if Truthy(p.keyword) then [("keyword", p.keyword.value)] else [];
    assert ListQuery(params) == pg + lm + st + kw;
    LookupSingle("page", IntToString(p.page.value), key);
    LookupSingle("limit", IntToString(p.limit.value), key);
    if st != [] { LookupSingle("sort", p.sort.value, key); }
    if kw != [] { LookupSingle("keyword", p.keyword.value, key); }
    LookupAppend(pg, lm, key);
    LookupAppend(pg + lm, st, key);
    LookupAppend(pg + lm + st, kw, key);
  }

  /** Two list queries are the same cache key only if they ask for the same page. */
  lemma DistinctPagesDistinctQueries(a: Option<ListParams>, b: Option<ListParams>)
    requires Effective(a).page != Effective(b).page
    ensures ListQuery(a) != ListQuery(b)
  {
    if ListQuery(a) == ListQuery(b) {
      assert ListQuery(a)[0] == ListQuery(b)[0];
      IntToStringInjective(Effective(a).page.value, Effective(b).page.value);
    }
  }

  // ----- endpoints and cache tags -----

  /** The endpoints of a slice; the contact-us slice declares only GetAll and Delete. */
  datatype Endpoint = GetAll(params: Option<ListParams>) | GetById(id: string) | Create | Update(id: string) | Delete(id: string)

  predicate Declares(r: Resource, e: Endpoint) {
    r != Messages || e.GetAll? || e.Delete?
  }

  /** The request each declared endpoint sends. */
  function RequestFor(r: Resource, e: Endpoint): (req: Request)
    requires Declares(r, e)
    ensures e.GetAll? ==> req.verb == GET && req.path == BasePath(r)
    ensures e.Create? ==> req.verb == POST && req.path == BasePath(r) && req.query == []
    ensures (e.GetById? || e.Update? || e.Delete?) ==>
            req.path == BasePath(r) + "/" + e.id && req.query == []
            && req.verb == (if e.GetById? then GET else if e.Update? then PATCH else DELETE)
  {
    match e
    case GetAll(p) => Request(GET, BasePath(r), ListQuery(p))
    case GetById(id) => Request(GET, BasePath(r) + "/" + id, [])
    case Create => Request(POST, BasePath(r), [])
    case Update(id) => Request(PATCH, BasePath(r) + "/" + id, [])
    case Delete(id) => Request(DELETE, BasePath(r) + "/" + id, [])
  }

  const ListId: string := "LIST"

  /** `{ type, id }`; `{ type, id: 'LIST' }` is an ordinary tag whose id is the string "LIST". */
  datatype Tag = Tag(kind: Resource, id: string)

  function ListTag(r: Resource): Tag {
    Tag(r, ListId)
  }

  /** providesTags of a list query; `result` is the `_id`s of `result.data`, absent when there is no result. */
  function ListProvides(r: Resource, result: Option<seq<string>>): (tags: seq<Tag>)
    ensures result.None? ==> tags == [ListTag(r)]
    ensures result.Some? ==> |tags| == |result.value| + 1 && tags[|tags| - 1] == ListTag(r)
                             && forall i :: 0 <= i < |result.value| ==> tags[i] == Tag(r, result.value[i])
  {
    if result.None? then [ListTag(r)]
    else seq(|result.value|, i requires 0 <= i < |result.value| => Tag(r, result.value[i])) + [ListTag(r)]
  }

  /** providesTags of getXById: the item's own tag and nothing else. */
  function ByIdProvides(r: Resource, id: string): (tags: seq<Tag>)
    ensures forall t :: t in tags <==> t == Tag(r, id)
  {
    [Tag(r, id)]
  }

  datatype Mutation = CreateItem | UpdateItem(id: string) | DeleteItem(id: string)

  /**
   * invalidatesTags: a create hits the list tag; an update or delete hits the
   * item and the list. Every tag is of the mutating slice, so no other slice's
   * cache is touched.
   */
  function Invalidates(r: Resource, m: Mutation): (tags: seq<Tag>)
    ensures forall t :: t in tags ==> t.kind == r
    ensures ListTag(r) in tags
    ensures forall id :: Tag(r, id) in tags <==> id == ListId || (!m.CreateItem? && m.id == id)
  {
    match m
    case CreateItem => [ListTag(r)]
    case UpdateItem(id) => [Tag(r, id), ListTag(r)]
    case DeleteItem(id) => [Tag(r, id), ListTag(r)]
  }

  /**
   * The cache library's rule, taken as an assumption about code that is not
   * part of this model: an entry goes stale when a tag it provides is invalidated.
   */
  predicate Stale(provided: seq<Tag>, invalidated: seq<Tag>) {
    exists t :: t in provided && t in invalidated
  }

  /** Every mutation of a slice makes every cached list of that slice stale, whatever it held. */
  lemma MutationStalesEveryList(r: Resource, result: Option<seq<string>>, m: Mutation)
    ensures Stale(ListProvides(r, result), Invalidates(r, m))
  {
    var tags := ListProvides(r, result);
    assert tags[|tags| - 1] == ListTag(r);
    assert ListTag(r) in tags && ListTag(r) in Invalidates(r, m);
  }

  /**
   * A by-id entry goes stale exactly when an update or delete targets its id, or
   * when its id is literally "LIST" (it then shares the list tag).
   */
  lemma ByIdStaleIff(r: Resource, id: string, m: Mutation)
    ensures Stale(ByIdProvides(r, id), Invalidates(r, m)) <==>
            id == ListId || (!m.CreateItem? && m.id == id)
  {
    if id == ListId || (!m.CreateItem? && m.id == id) {
      assert Tag(r, id) in Invalidates(r, m);
    }
  }

  // ----- headers -----

  /** `localStorage.getItem("accessToken")`: null is `None`. */
  type TokenStore = Option<string>

  const AuthorizationHeader: string := "authorization"
  const NgrokHeader: string := "ngrok-skip-browser-warning"

  /** prepareHeaders of the four content slices. */
  function PrepareHeaders(headers: map<string, string>, token: TokenStore): (out: map<string, string>)
    ensures NgrokHeader in out && out[NgrokHeader] == "true"
    ensures Truthy(token) ==> AuthorizationHeader in out && out[AuthorizationHeader] == "Bearer " + token.value
    ensures forall k :: k in headers && k != NgrokHeader && (k != AuthorizationHeader || !Truthy(token))
                        ==> k in out && out[k] == headers[k]
    ensures out.Keys == headers.Keys + {NgrokHeader} + (if Truthy(token) then {AuthorizationHeader} else {})
  {
    var withAuth := if Truthy(token) then headers[AuthorizationHeader := "Bearer " + token.value] else headers;
    withAuth[NgrokHeader := "true"]
  }

  /** A request starts with no headers, so it carries a bearer credential if and only if a non-empty token is stored. */
  lemma BearerIffToken(token: TokenStore)
    ensures AuthorizationHeader in PrepareHeaders(map[], token) <==> Truthy(token)
  {
  }

  /** RFC 6750 section 2.1: b64token = 1*( ALPHA / DIGIT / "-" / "." / "_" / "~" / "+" / "/" ) *"=". */
  predicate B64Char(c: char) {
    ('A' <= c <= 'Z') || ('a' <= c <= 'z') || ('0' <= c <= '9')
    || c == '-' || c == '.' || c == '_' || c == '~' || c == '+' || c == '/'
  }

  /** The first `n` characters are token characters and the rest are padding. */
  predicate SplitsAt(s: string, n: nat)
    requires n <= |s|
  {
    (forall k :: 0 <= k < n ==> B64Char(s[k])) && (forall k :: n <= k < |s| ==> s[k] == '=')
  }

  predicate IsB64Token(s: string) {
    exists n: nat :: 1 <= n <= |s| && SplitsAt(s, n)
  }

  /** RFC 6750 section 2.1 credentials with the single space the slices emit: "Bearer" SP b64token. */
  predicate IsBearerCredentials(v: string) {
    |v| > 7 && v[..7] == "Bearer " && IsB64Token(v[7..])
  }

  /** The header a stored token produces is well-formed exactly when the token is a b64token; nothing checks that. */
  lemma BearerConformsIff(token: string)
    requires token != ""
    ensures IsBearerCredentials(PrepareHeaders(map[], Some(token))[AuthorizationHeader]) <==> IsB64Token(token)
  {
    var v := PrepareHeaders(map[], Some(token))[AuthorizationHeader];
    assert v[7..] == token;
  }

  // ----- the contact-us envelope -----

  /** `response.data` as the contact-us API sends it. */
  datatype RawBody = RawBody(results: Option<int>, data: Option<seq<Message>>, pagination: Option<Pagination>)

  /** The raw response; every member may be missing. */
  datatype RawEnvelope = RawEnvelope(status: Option<string>, code: Option<int>, message: Option<string>, data: Option<RawBody>)

  function NumberOr(n: Option<int>, fallback: int): int {
    if n.Some? && n.value != 0 then n.value else fallback
  }

  /** transformResponse of getAllmessage: flattens `{ data: { data, pagination } }` and fills every gap. */
  function TransformMessages(raw: RawEnvelope): (r: ListResponse)
    ensures r.status == (if Truthy(raw.status) then raw.status.value else "success")
    ensures r.code == (if raw.code.Some? && raw.code.value != 0 then raw.code.value else 200)
    ensures r.message == (if Truthy(raw.message) then raw.message.value else "")
    ensures r.results == (if raw.data.Some? && raw.data.value.results.Some? then raw.data.value.results.value else 0)
    ensures r.pagination.Some?
    ensures raw.data.Some? && raw.data.value.pagination.Some? ==> r.pagination == raw.data.value.pagination
    ensures raw.data.None? || raw.data.value.pagination.None? ==> r.pagination == Some(Pagination(None, None, None))
    ensures |r.data| == (if raw.data.Some? && raw.data.value.data.Some? then |raw.data.value.data.value| else 0)
    ensures forall i :: 0 <= i < |r.data| ==> r.data[i] == MessageRow(raw.data.value.data.value[i])
  {
    var body := raw.data;
    var items := if body.Some? && body.value.data.Some? then body.value.data.value else [];
    ListResponse(
      OrElse(raw.status, "success"),
      NumberOr(raw.code, 200),
      OrElse(raw.message, ""),
      if body.Some? then NumberOr(body.value.results, 0) else 0,
      Some(if body.Some? && body.value.pagination.Some? then body.value.pagination.value else Pagination(None, None, None)),
      seq(|items|, i requires 0 <= i < |items| => MessageRow(items[i])))
  }

  /**
   * A well-formed envelope passes through unchanged apart from the flattening.
   * An empty message falls back to "", which is the same text.
   */
  lemma TransformKeepsWellFormed(status: string, code: int, message: string, results: int,
                                 items: seq<Message>, pg: Pagination)
    requires status != "" && code != 0
    ensures var r := TransformMessages(RawEnvelope(Some(status), Some(code), Some(message),
                                                   Some(RawBody(Some(results), Some(items), Some(pg)))));
            r.status == status && r.code == code && r.message == message && r.results == results
            && r.pagination == Some(pg) && |r.data| == |items|
            && forall i :: 0 <= i < |items| ==> r.data[i] == MessageRow(items[i])
  {
  }
}
