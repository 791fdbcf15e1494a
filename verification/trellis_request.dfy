/**
 * An immutable snapshot of an HTTP request's LDP-relevant surface: path, base URL, method,
 * principal name, acceptable media types, and the header and query-parameter multimaps that the
 * accessors read. Header parsers are not modelled: each accessor takes its parser as a parameter.
 */
module Request {
  import opened Wrappers

  /** A multi-valued map: a header or parameter name and its values, in order. */
  type MultiMap = map<string, seq<string>>

  const ContentTypeHeader: string := "Content-Type"
  const SlugHeader: string := "Slug"
  const LinkHeader: string := "Link"
  const AcceptDatetimeHeader: string := "Accept-Datetime"
  const PreferHeader: string := "Prefer"
  const RangeHeader: string := "Range"
  const VersionParameter: string := "version"
  const ExtParameter: string := "ext"
  const PathParameter: string := "path"

  /** `MultivaluedMap.getFirst`: the first value under a name; null when the name is absent or has no value. */
  function GetFirst(m: MultiMap, name: string): (r: Option<string>)
    ensures r.Some? <==> name in m && |m[name]| > 0
    ensures r.Some? ==> r.value == m[name][0]
  {
    if name in m && |m[name]| > 0 then Some(m[name][0]) else None
  }

  datatype Principal = Principal(name: string)
  datatype SecurityContext = SecurityContext(userPrincipal: Option<Principal>)

  /** The framework's request, URI and header contexts, reduced to what the snapshot reads. */
  datatype RequestContext = RequestContext(httpMethod: string)
  datatype UriInfo = UriInfo(queryParameters: MultiMap, baseUri: string, pathParameters: MultiMap)
  datatype HttpHeaders = HttpHeaders(requestHeaders: MultiMap, acceptableMediaTypes: seq<string>)

  datatype TrellisRequest = TrellisRequest(
    path: Option<string>,
    baseUrl: string,
    principalName: Option<string>,
    httpMethod: string,
    acceptableMediaTypes: seq<string>,
    headers: MultiMap,
    parameters: MultiMap)

  /** The principal's name, or null when there is no security context or it carries no principal. */
  function PrincipalName(secCtx: Option<SecurityContext>): (r: Option<string>)
    ensures r.None? <==> secCtx.None? || secCtx.value.userPrincipal.None?
    ensures r.Some? ==> secCtx.Some? && secCtx.value.userPrincipal == Some(Principal(r.value))
  {
    match secCtx
    case None => None
    case Some(ctx) =>
      match ctx.userPrincipal
      case None => None
      case Some(principal) => Some(principal.name)
  }

  /**
   * The constructor: every field is captured here once. The path is the first `path` path
   * parameter; the three-argument constructor passes no security context.
   */
  function Make(request: RequestContext, uriInfo: UriInfo, headers: HttpHeaders, secCtx: Option<SecurityContext>): (r: TrellisRequest)
    ensures r.headers == headers.requestHeaders && r.parameters == uriInfo.queryParameters
    ensures r.acceptableMediaTypes == headers.acceptableMediaTypes
    ensures r.baseUrl == uriInfo.baseUri && r.httpMethod == request.httpMethod
    ensures r.path.Some? <==> PathParameter in uriInfo.pathParameters && |uriInfo.pathParameters[PathParameter]| > 0
    ensures r.path.Some? ==> r.path.value == uriInfo.pathParameters[PathParameter][0]
    ensures r.principalName.Some? <==> secCtx.Some? && secCtx.value.userPrincipal.Some?
    ensures r.principalName.Some? ==> r.principalName.value == secCtx.value.userPrincipal.value.name
  {
    TrellisRequest(
      GetFirst(uriInfo.pathParameters, PathParameter),
      uriInfo.baseUri,
      PrincipalName(secCtx),
      request.httpMethod,
      headers.acceptableMediaTypes,
      headers.requestHeaders,
      uriInfo.queryParameters)
  }

  /** The three-argument constructor: no security context, so no principal name. */
  function MakeAnonymous(request: RequestContext, uriInfo: UriInfo, headers: HttpHeaders): (r: TrellisRequest)
    ensures r.principalName.None?
    ensures r == Make(request, uriInfo, headers, None)
  {
    Make(request, uriInfo, headers, None)
  }

  /** `getContentType`: the first Content-Type value, or null. */
  function GetContentType(req: TrellisRequest): (r: Option<string>)
    ensures r.None? <==> ContentTypeHeader !in req.headers || req.headers[ContentTypeHeader] == []
    ensures r.Some? ==> r.value == req.headers[ContentTypeHeader][0]
  {
    GetFirst(req.headers, ContentTypeHeader)
  }

  /**
   * `getSlug`: the decoded slug when the parsed header is present and non-empty, otherwise null.
   * `parse` stands for `Slug.valueOf` followed by `getValue`, with `None` for a null slug.
   */
  function GetSlug(req: TrellisRequest, parse: Option<string> -> Option<string>): (r: Option<string>)
    ensures r.Some? ==> r.value != [] && parse(GetFirst(req.headers, SlugHeader)) == r
    ensures r.None? <==> parse(GetFirst(req.headers, SlugHeader)) in {None, Some([])}
  {
    var slug := parse(GetFirst(req.headers, SlugHeader));
    if slug.Some? && slug.value != [] then slug else None
  }

  /** `getLink`: null exactly when there is no Link header; otherwise `Link.valueOf` (here `parse`) of its first value. */
  function GetLink<L>(req: TrellisRequest, parse: string -> L): (r: Option<L>)
    ensures r.None? <==> GetFirst(req.headers, LinkHeader).None?
    ensures r.Some? ==> r.value == parse(req.headers[LinkHeader][0])
  {
    var link := GetFirst(req.headers, LinkHeader);
    if link.Some? then Some(parse(link.value)) else None
  }

  /** `getDatetime`: `AcceptDatetime.valueOf` (here `parse`) of the first Accept-Datetime value, or of null. */
  function GetDatetime<D>(req: TrellisRequest, parse: Option<string> -> D): (r: D)
    ensures AcceptDatetimeHeader !in req.headers || req.headers[AcceptDatetimeHeader] == [] ==> r == parse(None)
    ensures AcceptDatetimeHeader in req.headers && req.headers[AcceptDatetimeHeader] != [] ==> r == parse(Some(req.headers[AcceptDatetimeHeader][0]))
  {
    parse(GetFirst(req.headers, AcceptDatetimeHeader))
  }

  /** `getPrefer`: `Prefer.valueOf` (here `parse`) of the first Prefer value, or of null. */
  function GetPrefer<P>(req: TrellisRequest, parse: Option<string> -> P): (r: P)
    ensures PreferHeader !in req.headers || req.headers[PreferHeader] == [] ==> r == parse(None)
    ensures PreferHeader in req.headers && req.headers[PreferHeader] != [] ==> r == parse(Some(req.headers[PreferHeader][0]))
  {
    parse(GetFirst(req.headers, PreferHeader))
  }

  /** `getRange`: `Range.valueOf` (here `parse`) of the first Range value, or of null. */
  function GetRange<R>(req: TrellisRequest, parse: Option<string> -> R): (r: R)
    ensures RangeHeader !in req.headers || req.headers[RangeHeader] == [] ==> r == parse(None)
    ensures RangeHeader in req.headers && req.headers[RangeHeader] != [] ==> r == parse(Some(req.headers[RangeHeader][0]))
  {
    parse(GetFirst(req.headers, RangeHeader))
  }

  /** `getVersion`: `Version.valueOf` (here `parse`) of the first `version` query parameter, or of null. */
  function GetVersion<V>(req: TrellisRequest, parse: Option<string> -> V): (r: V)
    ensures VersionParameter !in req.parameters || req.parameters[VersionParameter] == [] ==> r == parse(None)
    ensures VersionParameter in req.parameters && req.parameters[VersionParameter] != [] ==> r == parse(Some(req.parameters[VersionParameter][0]))
  {
    parse(GetFirst(req.parameters, VersionParameter))
  }

  /** `getExt`: the first `ext` query parameter, or null. */
  function GetExt(req: TrellisRequest): (r: Option<string>)
    ensures r.None? <==> ExtParameter !in req.parameters || req.parameters[ExtParameter] == []
    ensures r.Some? ==> r.value == req.parameters[ExtParameter][0]
  {
    GetFirst(req.parameters, ExtParameter)
  }

  /** Adds values after the existing ones under a name that already has at least one value. */
  function AppendValues(m: MultiMap, name: string, extra: seq<string>): (r: MultiMap)
    requires name in m && |m[name]| > 0
    ensures r.Keys == m.Keys && r[name] == m[name] + extra
  {
    m[name := m[name] + extra]
  }

  /** Header accessors read only the first value: further values under any header change none of them. */
  lemma HeaderAccessorsReadFirstValueOnly<L, D, P, R>(
    req: TrellisRequest, name: string, extra: seq<string>,
    slug: Option<string> -> Option<string>, link: string -> L,
    datetime: Option<string> -> D, prefer: Option<string> -> P, range: Option<string> -> R)
    requires name in req.headers && |req.headers[name]| > 0
    ensures var more := req.(headers := AppendValues(req.headers, name, extra));
      && GetContentType(more) == GetContentType(req)
      && GetSlug(more, slug) == GetSlug(req, slug)
      && GetLink(more, link) == GetLink(req, link)
      && GetDatetime(more, datetime) == GetDatetime(req, datetime)
      && GetPrefer(more, prefer) == GetPrefer(req, prefer)
      && GetRange(more, range) == GetRange(req, range)
  {
  }

  /** `ext` and `version` come from the query parameters: no change to the headers affects them. */
  lemma QueryAccessorsIgnoreHeaders<V>(req: TrellisRequest, headers: MultiMap, version: Option<string> -> V)
    ensures GetExt(req.(headers := headers)) == GetExt(req)
    ensures GetVersion(req.(headers := headers), version) == GetVersion(req, version)
  {
  }

  /** Conversely, a header of the same name as a query parameter is not what `getExt` reads. */
  lemma ExtIsNotAHeader()
    ensures var req := TrellisRequest(None, "", None, "GET", [], map[ExtParameter := ["acl"]], map[]);
      GetExt(req) == None
  {
  }
}
