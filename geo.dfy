/**
 * The geolocation client of all three variants, with the network replaced by
 * its outcomes. A lookup asks the primary endpoint (https://ipapi.co/<ip>/json/)
 * and, when that gives no data, the secondary one
 * (http://ip-api.com/json/<ip>?fields=...); the inline variant asks only the
 * secondary one. What a fetch can come to is an input: a response (with its
 * `ok` flag, and a body that parses as JSON or not) or a rejected fetch.
 *
 * The three variants differ: the hover variant reads the secondary body only
 * for an ok response and reports `data.message`; the selection variant reads
 * the secondary body whatever the status and reports `data.message`, else the
 * caught error's message, else a fixed text; the inline variant reports one of
 * two fixed texts.
 */
module Geo {
  import opened Wrappers
  import opened Text

  /** The primary endpoint's JSON (keys country_name, country_code, city, region, org). */
  datatype IpapiBody = IpapiBody(countryName: Field, countryCode: Field, city: Field, region: Field, org: Field)

  /**
   * The secondary endpoint's JSON (keys status, message, country, countryCode,
   * region, regionName, city, isp, org); also the shape into which a primary
   * body is converted.
   */
  datatype IpApiBody = IpApiBody(
    status: Field, message: Field, country: Field, countryCode: Field,
    region: Field, regionName: Field, city: Field, isp: Field, org: Field)

  /** The record the hover and inline variants cache and render. */
  datatype LocationInfo = LocationInfo(
    country: Field, countryCode: Field, city: Field, region: Field, isp: Field, org: Field)

  /** What `await response.json()` gives: a value, or a rejection with its message. */
  datatype Body<P> = Json(value: P) | Unparsable(message: string)

  /** What `await fetch(url)` gives: a response, or a rejection with its message. */
  datatype Fetch<P> = Response(ok: bool, body: Body<P>) | Rejected(message: string)

  /** What is rendered: a location record, or an `{ error }` object. */
  datatype Resolution<R> = Located(info: R) | Failed(message: string)

  /** A resolution, with the number of requests issued for it. */
  datatype Lookup<R> = Lookup(result: Resolution<R>, requests: nat)

  const Success: string := "success"
  /** The fixed texts: "unknown error", "query failed", "network error". */
  const UnknownError: string := "未知错误"
  const QueryFailed: string := "查询失败"
  const NetworkError: string := "网络错误"

  /** The primary body in the secondary's shape, with status "success". */
  function Converted(b: IpapiBody): IpApiBody {
    IpApiBody(Some(Success), None, b.countryName, b.countryCode, b.region, b.region, b.city, b.org, b.org)
  }

  /** The cached record; its region is the body's regionName. */
  function ToInfo(d: IpApiBody): LocationInfo {
    LocationInfo(d.country, d.countryCode, d.city, d.regionName, d.isp, d.org)
  }

  predicate IsSuccess(d: Option<IpApiBody>) {
    d.Some? && d.value.status == Some(Success)
  }

  /** `data` after the primary attempt: set only for an ok response whose body parsed. */
  function PrimaryData(p: Fetch<IpapiBody>): Option<IpApiBody> {
    if p.Response? && p.ok && p.body.Json? then Some(Converted(p.body.value)) else None
  }

  /** The error the primary attempt catches: a rejected fetch, or an ok body that does not parse. */
  function PrimaryError(p: Fetch<IpapiBody>): Option<string> {
    match p
    case Rejected(m) => Some(m)
    case Response(ok, body) => if ok && body.Unparsable? then Some(body.message) else None
  }

  /** The secondary body read only for an ok response (hover variant). */
  function CheckedData(s: Fetch<IpApiBody>): Option<IpApiBody> {
    if s.Response? && s.ok && s.body.Json? then Some(s.body.value) else None
  }

  /** The secondary body read whatever the status (selection and inline variants). */
  function UncheckedData(s: Fetch<IpApiBody>): Option<IpApiBody> {
    if s.Response? && s.body.Json? then Some(s.body.value) else None
  }

  /** The error an unchecked attempt catches: a rejected fetch or a body that does not parse. */
  function UncheckedError(s: Fetch<IpApiBody>): Option<string> {
    match s
    case Rejected(m) => Some(m)
    case Response(_, body) => if body.Unparsable? then Some(body.message) else None
  }

  /** `data?.message` if truthy, else `fallback`. */
  function MessageOr(data: Option<IpApiBody>, fallback: string): string {
    if data.Some? && Truthy(data.value.message) then data.value.message.value else fallback
  }

  // ---------------------------------------------------------------------------
  // Hover variant (content-debug.js)
  // ---------------------------------------------------------------------------

  /** The lookup of the hover variant after the cache missed. */
  function HoverResolve(p: Fetch<IpapiBody>, s: Fetch<IpApiBody>): (r: Lookup<LocationInfo>)
    ensures r.requests == 1 <==> PrimaryData(p).Some?
    ensures 1 <= r.requests <= 2
    ensures PrimaryData(p).Some? ==> r.result == Located(ToInfo(PrimaryData(p).value))
    ensures r.result.Located? <==> PrimaryData(p).Some? || IsSuccess(CheckedData(s))
    ensures PrimaryData(p).None? && IsSuccess(CheckedData(s)) ==>
              r.result == Located(ToInfo(CheckedData(s).value))
    ensures r.result.Failed? ==>
              r.result.message == QueryFailed + ": " + MessageOr(CheckedData(s), UnknownError)
  {
    var first := PrimaryData(p);
    var data := if first.Some? then first else CheckedData(s);
    var requests := if first.Some? then 1 else 2;
    if IsSuccess(data) then Lookup(Located(ToInfo(data.value)), requests)
    else Lookup(Failed(QueryFailed + ": " + MessageOr(data, UnknownError)), requests)
  }

  /** Once the primary endpoint gives data, the secondary's outcome does not matter. */
  lemma HoverSecondaryUnused(p: Fetch<IpapiBody>, s1: Fetch<IpApiBody>, s2: Fetch<IpApiBody>)
    requires PrimaryData(p).Some?
    ensures HoverResolve(p, s1) == HoverResolve(p, s2)
  {
  }

  /** The hover variant maps the primary body field by field, region from region. */
  lemma HoverPrimaryFields(b: IpapiBody, s: Fetch<IpApiBody>)
    ensures var r := HoverResolve(Response(true, Json(b)), s);
            r == Lookup(Located(LocationInfo(b.countryName, b.countryCode, b.city, b.region, b.org, b.org)), 1)
  {
  }

  /** Both endpoints failing yields a non-empty error message. */
  lemma HoverBothFail(p: Fetch<IpapiBody>, s: Fetch<IpApiBody>)
    requires PrimaryData(p).None? && !IsSuccess(CheckedData(s))
    ensures HoverResolve(p, s).result.Failed? && |HoverResolve(p, s).result.message| > |QueryFailed + ": "|
  {
  }

  // ---------------------------------------------------------------------------
  // Selection variant (content.js)
  // ---------------------------------------------------------------------------

  /** `data?.message || error?.message || '网络错误'`. */
  function ErrorMessage(data: Option<IpApiBody>, error: Option<string>): (m: string)
    ensures m != ""
    ensures data.Some? && Truthy(data.value.message) ==> m == data.value.message.value
    ensures !(data.Some? && Truthy(data.value.message)) && Truthy(error) ==> m == error.value
    ensures !(data.Some? && Truthy(data.value.message)) && !Truthy(error) ==> m == NetworkError
  {
    MessageOr(data, if Truthy(error) then error.value else NetworkError)
  }

  /** The error variable after both attempts: the secondary's catch overwrites the primary's. */
  function LastError(p: Fetch<IpapiBody>, s: Fetch<IpApiBody>): Option<string> {
    if UncheckedError(s).Some? then UncheckedError(s) else PrimaryError(p)
  }

  /** The lookup of the selection variant after the cache missed; a success is the whole body. */
  function SelectionResolve(p: Fetch<IpapiBody>, s: Fetch<IpApiBody>): (r: Lookup<IpApiBody>)
    ensures r.requests == 1 <==> PrimaryData(p).Some?
    ensures 1 <= r.requests <= 2
    ensures PrimaryData(p).Some? ==> r.result == Located(PrimaryData(p).value)
    ensures r.result.Located? <==> PrimaryData(p).Some? || IsSuccess(UncheckedData(s))
    ensures r.result.Located? ==> r.result.info.status == Some(Success)
    ensures PrimaryData(p).None? && IsSuccess(UncheckedData(s)) ==> r.result == Located(UncheckedData(s).value)
    ensures r.result.Failed? ==> r.result.message == ErrorMessage(UncheckedData(s), LastError(p, s))
  {
    var first := PrimaryData(p);
    if first.Some? then Lookup(Located(first.value), 1)
    else
      var data := UncheckedData(s);
      if IsSuccess(data) then Lookup(Located(data.value), 2)
      else Lookup(Failed(ErrorMessage(data, LastError(p, s))), 2)
  }

  /**
   * The message precedence when both attempts fail: the secondary body's
   * message, then the message of the last caught error, then "network error".
   */
  lemma SelectionErrorPrecedence(p: Fetch<IpapiBody>, s: Fetch<IpApiBody>)
    requires PrimaryData(p).None? && !IsSuccess(UncheckedData(s))
    ensures var m := SelectionResolve(p, s).result;
            m.Failed? &&
            (s.Response? && s.body.Json? && Truthy(s.body.value.message) ==> m.message == s.body.value.message.value) &&
            (s.Rejected? && s.message != "" ==> m.message == s.message) &&
            (s.Response? && s.body.Json? && !Truthy(s.body.value.message) && p.Rejected? && p.message != "" ==>
               m.message == p.message) &&
            (s.Response? && s.body.Json? && !Truthy(s.body.value.message) && PrimaryError(p).None? ==>
               m.message == NetworkError)
  {
  }

  /** The selection variant reads a non-ok secondary response; the hover variant does not. */
  lemma StatusCheckDiffers(b: IpApiBody)
    requires b.status == Some(Success)
    ensures SelectionResolve(Response(false, Json(IpapiBody(None, None, None, None, None))), Response(false, Json(b))).result == Located(b)
    ensures HoverResolve(Response(false, Json(IpapiBody(None, None, None, None, None))), Response(false, Json(b))).result.Failed?
  {
  }

  // ---------------------------------------------------------------------------
  // Inline variant (content-simple.js)
  // ---------------------------------------------------------------------------

  /** The lookup of the inline variant: the secondary endpoint only. */
  function InlineResolve(s: Fetch<IpApiBody>): (r: Resolution<LocationInfo>)
    ensures r.Located? <==> IsSuccess(UncheckedData(s))
    ensures r.Located? ==> r == Located(ToInfo(UncheckedData(s).value))
    ensures r.Failed? && UncheckedData(s).Some? ==> r.message == QueryFailed
    ensures UncheckedData(s).None? ==> r == Failed(NetworkError)
  {
    match s
    case Rejected(_) => Failed(NetworkError)
    case Response(_, body) =>
      match body
      case Unparsable(_) => Failed(NetworkError)
      case Json(d) => if d.status == Some(Success) then Located(ToInfo(d)) else Failed(QueryFailed)
  }

  // ---------------------------------------------------------------------------
  // The cache
  // ---------------------------------------------------------------------------

  /** `ipCache.set(ip, info)` on success only; failures are never stored. */
  function Store<R>(cache: map<string, R>, ip: string, res: Resolution<R>): (c: map<string, R>)
    ensures res.Failed? ==> c == cache
    ensures res.Located? ==> c.Keys == cache.Keys + {ip} && c[ip] == res.info
    ensures forall k :: k in cache && k != ip ==> k in c && c[k] == cache[k]
  {
    if res.Located? then cache[ip := res.info] else cache
  }
}
