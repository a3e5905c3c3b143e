/**
 * The request-level logic of the HTTP server (src/server/server.ts): reading
 * the session cookie, the bearer-token gate in front of every API route, the
 * login and logout replies, and the per-route ring of response times behind
 * `/debug/timing`.
 *
 * `decodeURIComponent` and `encodeURIComponent` are parameters: `decode`
 * returns `None` where the source's call throws (a malformed `%` escape).
 * Response times are integers (`reply.elapsedTime` is a float of milliseconds).
 */
module Server {
  import opened Common
  import opened JsValues
  import Text
  import Ring
  import Sorting

  const COOKIE_NAME: string := "claudedash_token"
  const RING_SIZE: nat := 100

  // ---------------------------------------------------------------- cookies

  /** The part, once trimmed, begins with `name=`. */
  predicate Names(part: string, name: string) {
    Text.StartsWith(Text.Trim(part), name + "=")
  }

  /** The text after `name=` in a part that names the cookie. */
  function RawValue(part: string, name: string): string
    requires Names(part, name)
  {
    Text.Trim(part)[|name| + 1..]
  }

  /** `decodeURIComponent(raw)`, or `raw` itself when decoding throws. */
  function DecodeOr(raw: string, decode: string -> Option<string>): string {
    match decode(raw)
    case Some(v) => v
    case None => raw
  }

  /** The value of the first part that names the cookie, if any. */
  function FirstCookie(parts: seq<string>, name: string, decode: string -> Option<string>): Option<string>
    decreases |parts|
  {
    if parts == [] then None
    else if Names(parts[0], name) then Some(DecodeOr(RawValue(parts[0], name), decode))
    else FirstCookie(parts[1..], name, decode)
  }

  /** What `parseCookieToken` returns: nothing for a missing or empty header. */
  function CookieToken(header: Option<string>, name: string, decode: string -> Option<string>): Option<string> {
    if header.None? || header.value == "" then None
    else FirstCookie(Text.Split(header.value, ';'), name, decode)
  }

  /** `parseCookieToken(header, name)`: a scan over the `;`-separated parts that stops at the first match. */
  method ParseCookieToken(header: Option<string>, name: string, decode: string -> Option<string>)
    returns (token: Option<string>)
    ensures token == CookieToken(header, name, decode)
  {
    if header.None? || header.value == "" {
      return None;
    }
    var parts := Text.Split(header.value, ';');
    var i := 0;
    while i < |parts|
      invariant 0 <= i <= |parts|
      invariant FirstCookie(parts[i..], name, decode) == FirstCookie(parts, name, decode)
    {
      var trimmed := Text.Trim(parts[i]);
      if !Text.StartsWith(trimmed, name + "=") {
        assert parts[i..][1..] == parts[i + 1..];
        i := i + 1;
        continue;
      }
      var raw := trimmed[|name| + 1..];
      var decoded := decode(raw);
      if decoded.Some? {
        return decoded;
      }
      return Some(raw);
    }
    return None;
  }

  /** No value is found exactly when no part names the cookie. */
  lemma {:induction false} FirstCookieNone(parts: seq<string>, name: string, decode: string -> Option<string>)
    ensures FirstCookie(parts, name, decode).None? <==> forall k :: 0 <= k < |parts| ==> !Names(parts[k], name)
    decreases |parts|
  {
    if parts != [] {
      FirstCookieNone(parts[1..], name, decode);
      assert forall k :: 1 <= k < |parts| ==> parts[k] == parts[1..][k - 1];
    }
  }

  /** The value found is the (decoded) value of the first part that names the cookie. */
  lemma {:induction false} FirstCookieAt(parts: seq<string>, name: string, decode: string -> Option<string>, k: nat)
    requires k < |parts| && Names(parts[k], name)
    requires forall j :: 0 <= j < k ==> !Names(parts[j], name)
    ensures FirstCookie(parts, name, decode) == Some(DecodeOr(RawValue(parts[k], name), decode))
    decreases k
  {
    if k > 0 {
      assert !Names(parts[0], name);
      assert parts[1..][k - 1] == parts[k];
      FirstCookieAt(parts[1..], name, decode, k - 1);
    }
  }

  /** A leading cookie with another name is skipped: the result is that of the rest of the header. */
  lemma OtherCookieSkipped(first: string, rest: string, name: string, decode: string -> Option<string>)
    requires ';' !in first && !Names(first, name)
    ensures CookieToken(Some(first + ";" + rest), name, decode) == CookieToken(Some(rest), name, decode)
  {
    var h := first + ";" + rest;
    var tail := Text.Split(rest, ';');
    assert Text.Split(h, ';') == [first] + tail by {
      assert h == first + [';'] + rest;
      Text.SplitAround(first, ';', rest);
    }
    assert CookieToken(Some(h), name, decode) == FirstCookie(tail, name, decode) by {
      assert |h| > 0;
      assert ([first] + tail)[1..] == tail;
    }
    if rest == "" {
      EmptyHeaderFindsNothing(name, decode);
    }
  }

  /** The single empty part of an empty header names no cookie. */
  lemma EmptyHeaderFindsNothing(name: string, decode: string -> Option<string>)
    ensures FirstCookie(Text.Split("", ';'), name, decode) == None
  {
    assert Text.Split("", ';') == [""];
    assert !Names("", name);
  }

  /** No `;` and no white space: a piece that survives both the split and the trim. */
  predicate Plain(s: string) {
    ';' !in s && forall i :: 0 <= i < |s| ==> !Text.IsJsSpace(s[i])
  }

  lemma PlainConcat(a: string, b: string)
    requires Plain(a) && Plain(b)
    ensures Plain(a + b)
  {
    assert forall i :: 0 <= i < |a + b| ==> (a + b)[i] == if i < |a| then a[i] else b[i - |a|];
  }

  /** Trimming a string without white space changes nothing. */
  lemma TrimNoSpace(s: string)
    requires forall i :: 0 <= i < |s| ==> !Text.IsJsSpace(s[i])
    ensures Text.Trim(s) == s
  {
  }

  /**
   * The pair `name=value` at the head of a `Set-Cookie` header, sent back on
   * its own, reads as the decoded value.
   */
  lemma PairReadsBack(name: string, value: string, attrs: string, decode: string -> Option<string>)
    requires Plain(name) && Plain(value)
    ensures CookieToken(Some(CookiePair(name + "=" + value + ";" + attrs)), name, decode) == Some(DecodeOr(value, decode))
  {
    var pair := name + "=" + value;
    assert Plain(pair) by {
      assert Plain("=");
      PlainConcat(name, "=");
      PlainConcat(name + "=", value);
    }
    assert CookiePair(name + "=" + value + ";" + attrs) == pair by {
      assert name + "=" + value + ";" + attrs == pair + [';'] + attrs;
      Text.SplitAround(pair, ';', attrs);
    }
    assert Text.Trim(pair) == pair by {
      TrimNoSpace(pair);
    }
    assert Names(pair, name) by {
      assert pair[..|name| + 1] == name + "=";
    }
    assert RawValue(pair, name) == value by {
      assert pair[|name| + 1..] == value;
    }
    assert Text.Split(pair, ';') == [pair];
    FirstCookieAt([pair], name, decode, 0);
  }

  // ------------------------------------------------------------- auth gate

  /** `url.split('?')[0]`: the path without its query string. */
  function UrlPath(url: string): string {
    Text.Split(url, '?')[0]
  }

  /** `/\.(html|js|css|png|svg|ico|woff2?)$/` matches the path. */
  predicate IsStaticAsset(path: string) {
    || Text.EndsWith(path, ".html") || Text.EndsWith(path, ".js") || Text.EndsWith(path, ".css")
    || Text.EndsWith(path, ".png") || Text.EndsWith(path, ".svg") || Text.EndsWith(path, ".ico")
    || Text.EndsWith(path, ".woff") || Text.EndsWith(path, ".woff2")
  }

  /** The paths the gate lets through without credentials. */
  predicate IsPublic(path: string) {
    path == "/" || IsStaticAsset(path) || path == "/auth/login" || path == "/auth/logout"
  }

  /** The text after `Bearer ` in the `Authorization` header, when it starts that way. */
  function BearerOf(authorization: Option<string>): Option<string> {
    if authorization.Some? && Text.StartsWith(authorization.value, "Bearer ") then Some(authorization.value[7..])
    else None
  }

  /** `if (token)`: the gate is installed only for a non-empty token. */
  predicate AuthEnabled(token: Option<string>) {
    token.Some? && token.value != ""
  }

  datatype Gate = Pass | Unauthorized

  /** The `onRequest` hook: 401 for an API path unless the bearer or the cookie carries the token. */
  function Authorize(token: Option<string>, url: string, authorization: Option<string>, cookie: Option<string>,
                     decode: string -> Option<string>): Gate
  {
    if !AuthEnabled(token) || IsPublic(UrlPath(url)) then Pass
    else if BearerOf(authorization) == token || CookieToken(cookie, COOKIE_NAME, decode) == token then Pass
    else Unauthorized
  }

  /** Without a configured token, and on public paths, every request passes. */
  lemma UnprotectedPass(token: Option<string>, url: string, authorization: Option<string>, cookie: Option<string>,
                        decode: string -> Option<string>)
    requires !AuthEnabled(token) || IsPublic(UrlPath(url))
    ensures Authorize(token, url, authorization, cookie, decode) == Pass
  {
  }

  /** On a protected path a request passes exactly when its bearer credential or its cookie equals the token. */
  lemma ProtectedNeedsToken(token: Option<string>, url: string, authorization: Option<string>, cookie: Option<string>,
                            decode: string -> Option<string>)
    requires AuthEnabled(token) && !IsPublic(UrlPath(url))
    ensures Authorize(token, url, authorization, cookie, decode) == Pass
        <==> BearerOf(authorization) == token || CookieToken(cookie, COOKIE_NAME, decode) == token
  {
  }

  /** `Authorization: Bearer <token>` opens every path. */
  lemma BearerAccepted(t: string, url: string, cookie: Option<string>, decode: string -> Option<string>)
    ensures Authorize(Some(t), url, Some("Bearer " + t), cookie, decode) == Pass
  {
    assert ("Bearer " + t)[7..] == t;
  }

  /** A query string neither opens nor closes a path: the gate judges the part before `?`. */
  lemma QueryIgnored(token: Option<string>, url: string, query: string, authorization: Option<string>,
                     cookie: Option<string>, decode: string -> Option<string>)
    requires '?' !in url
    ensures Authorize(token, url + "?" + query, authorization, cookie, decode)
         == Authorize(token, url, authorization, cookie, decode)
  {
    Text.SplitAround(url, '?', query);
    assert url + "?" + query == url + ['?'] + query;
  }

  /**
   * The static-file test looks only at the suffix, so an API path whose last
   * segment ends in `.js` (here a session id) passes without credentials.
   */
  lemma StaticSuffixOpensApiPath(t: string, id: string, decode: string -> Option<string>)
    requires '?' !in id
    ensures Authorize(Some(t), "/sessions/" + id + ".js", None, None, decode) == Pass
  {
    var path := "/sessions/" + id + ".js";
    assert '?' !in path by {
      assert forall i :: 0 <= i < |path| ==> path[i] == if i < 10 then "/sessions/"[i] else if i < 10 + |id| then id[i - 10] else ".js"[i - 10 - |id|];
    }
    assert UrlPath(path) == path;
    assert path[|path| - 3..] == ".js";
  }

  // ----------------------------------------------------------- login/logout

  datatype LoginReply = NotEnabled | InvalidToken | LoggedIn(setCookie: string)

  /** The HTTP status of each login reply. */
  function LoginStatus(r: LoginReply): int {
    match r
    case NotEnabled => 400
    case InvalidToken => 401
    case LoggedIn(_) => 200
  }

  /** The `Set-Cookie` header of a successful login. */
  function SessionCookie(encoded: string): string {
    COOKIE_NAME + "=" + encoded + ";" + SESSION_ATTRIBUTES
  }

  const SESSION_ATTRIBUTES: string := " Path=/; HttpOnly; SameSite=Strict; Max-Age=43200"

  /** The `Set-Cookie` header of `/auth/logout`: an empty value that expires at once. */
  const LOGOUT_COOKIE: string := COOKIE_NAME + "=" + "" + ";" + LOGOUT_ATTRIBUTES

  const LOGOUT_ATTRIBUTES: string := " Path=/; HttpOnly; SameSite=Strict; Max-Age=0"

  lemma CookieNamePlain()
    ensures Plain(COOKIE_NAME)
  {
  }

  /** The name-value pair a browser keeps from a `Set-Cookie` header and sends back (RFC 6265 section 5.2). */
  function CookiePair(setCookie: string): string {
    Text.Split(setCookie, ';')[0]
  }

  /** `typeof request.body?.token === 'string' ? request.body.token : ''`. */
  function BodyToken(body: Value): string {
    match OptionalProp(body, "token")
    case Str(s) => s
    case _ => ""
  }

  /** `POST /auth/login`. */
  function Login(token: Option<string>, body: Value, encode: string -> string): LoginReply {
    if !AuthEnabled(token) then NotEnabled
    else if BodyToken(body) != token.value then InvalidToken
    else LoggedIn(SessionCookie(encode(token.value)))
  }

  /** Login answers 400 without a token, 401 for a wrong one, and sets the cookie exactly for the right one. */
  lemma LoginOutcomes(token: Option<string>, body: Value, encode: string -> string)
    ensures LoginStatus(Login(token, body, encode)) == 400 <==> !AuthEnabled(token)
    ensures LoginStatus(Login(token, body, encode)) == 401 <==> AuthEnabled(token) && BodyToken(body) != token.value
    ensures Login(token, body, encode).LoggedIn? <==> AuthEnabled(token) && BodyToken(body) == token.value
    ensures Login(token, body, encode).LoggedIn? ==> Login(token, body, encode).setCookie == SessionCookie(encode(token.value))
  {
  }

  /** The cookie a login sets reads back as the token, provided the encoding round-trips and leaves no `;` or white space. */
  lemma SessionCookieReadsBack(t: string, encode: string -> string, decode: string -> Option<string>)
    requires Plain(encode(t))
    requires decode(encode(t)) == Some(t)
    ensures CookieToken(Some(CookiePair(SessionCookie(encode(t)))), COOKIE_NAME, decode) == Some(t)
  {
    CookieNamePlain();
    PairReadsBack(COOKIE_NAME, encode(t), SESSION_ATTRIBUTES, decode);
  }

  /** After a successful login the browser's cookie alone opens every path. */
  lemma LoginThenAuthorized(token: Option<string>, body: Value, url: string, encode: string -> string,
                            decode: string -> Option<string>)
    requires Login(token, body, encode).LoggedIn?
    requires Plain(encode(token.value))
    requires decode(encode(token.value)) == Some(token.value)
    ensures Authorize(token, url, None, Some(CookiePair(Login(token, body, encode).setCookie)), decode) == Pass
  {
    SessionCookieReadsBack(token.value, encode, decode);
  }

  /** The cookie logout leaves behind opens no protected path. */
  lemma LogoutCookieRejected(token: Option<string>, url: string, decode: string -> Option<string>)
    requires AuthEnabled(token) && !IsPublic(UrlPath(url))
    requires DecodeOr("", decode) == ""
    ensures Authorize(token, url, None, Some(CookiePair(LOGOUT_COOKIE)), decode) == Unauthorized
  {
    CookieNamePlain();
    PairReadsBack(COOKIE_NAME, "", LOGOUT_ATTRIBUTES, decode);
  }

  // ---------------------------------------------------------------- timing

  /** `request.routeOptions?.url ?? request.url.split('?')[0]`. */
  function RouteOf(routeUrl: Option<string>, url: string): string {
    if routeUrl.Some? then routeUrl.value else UrlPath(url)
  }

  /** Responses the timing hook does not record: the event stream and the timing report itself. */
  predicate Skipped(route: string, contentType: Option<string>) {
    || route == "/events" || route == "/debug/timing"
    || (contentType.Some? && Text.StartsWith(contentType.value, "text/event-stream"))
  }

  /** `timings.get(route) ?? []`. */
  function SamplesOf(buffers: map<string, seq<int>>, route: string): seq<int> {
    if route in buffers then buffers[route] else []
  }

  /** `Math.min(Math.floor(n * pct / 100), n - 1)`: the index `p(pct)` reads in the sorted samples. */
  function PercentileIndex(n: nat, pct: nat): (i: nat)
    requires n > 0
    ensures i < n
    ensures pct <= 100 ==> i == n * pct / 100 || (pct == 100 && i == n - 1)
  {
    var j := n * pct / 100;
    if j < n - 1 then j else n - 1
  }

  /** A larger percentile never reads an earlier index. */
  lemma PercentileIndexMonotone(n: nat, p: nat, q: nat)
    requires n > 0 && p <= q
    ensures PercentileIndex(n, p) <= PercentileIndex(n, q)
  {
    assert n * p <= n * q;
  }

  /** `Math.max(...xs)`. */
  function MaxOf(xs: seq<int>): int
    requires xs != []
  {
    if |xs| == 1 then xs[0]
    else
      var m := MaxOf(xs[..|xs| - 1]);
      if xs[|xs| - 1] > m then xs[|xs| - 1] else m
  }

  /** The maximum is one of the numbers and no number exceeds it. */
  lemma {:induction false} MaxOfIsMax(xs: seq<int>)
    requires xs != []
    ensures MaxOf(xs) in xs
    ensures forall k :: 0 <= k < |xs| ==> xs[k] <= MaxOf(xs)
  {
    if |xs| > 1 {
      var front := xs[..|xs| - 1];
      MaxOfIsMax(front);
      assert forall k :: 0 <= k < |xs| - 1 ==> front[k] == xs[k];
    }
  }

  /** One route's entry in the `/debug/timing` report. */
  datatype Stats = Stats(p50: int, p95: int, max: int, samples: nat)

  /** The samples in ascending numeric order (`.sort((a, b) => a - b)`). */
  function SortedSamples(samples: seq<int>): (s: seq<int>)
    ensures |s| == |samples| && multiset(s) == multiset(samples)
    ensures forall i, j :: 0 <= i <= j < |s| ==> s[i] <= s[j]
  {
    Sorting.KeyComparatorsAntisymmetric(Sorting.Identity);
    var sorted := Sorting.SortBy(samples, Sorting.Ascending(Sorting.Identity));
    Sorting.AscendingSortedGlobally(sorted, Sorting.Identity);
    assert forall x :: Sorting.Identity(x) == x;
    sorted
  }

  function StatsOf(samples: seq<int>): Stats
    requires samples != []
  {
    var sorted := SortedSamples(samples);
    Stats(sorted[PercentileIndex(|sorted|, 50)], sorted[PercentileIndex(|sorted|, 95)], MaxOf(sorted), |sorted|)
  }

  /** Each entry reports recorded samples, with `p50 <= p95 <= max` and `max` the largest sample. */
  lemma StatsOrdered(samples: seq<int>)
    requires samples != []
    ensures StatsOf(samples).p50 in samples && StatsOf(samples).p95 in samples && StatsOf(samples).max in samples
    ensures StatsOf(samples).p50 <= StatsOf(samples).p95 <= StatsOf(samples).max
    ensures forall k :: 0 <= k < |samples| ==> samples[k] <= StatsOf(samples).max
    ensures StatsOf(samples).samples == |samples|
  {
    var sorted := SortedSamples(samples);
    var n := |sorted|;
    PercentileIndexMonotone(n, 50, 95);
    MaxOfIsMax(sorted);
    var i50, i95 := PercentileIndex(n, 50), PercentileIndex(n, 95);
    assert sorted[i50] in multiset(samples) && sorted[i95] in multiset(samples) && MaxOf(sorted) in multiset(samples);
    forall k | 0 <= k < |samples|
      ensures samples[k] <= MaxOf(sorted)
    {
      assert samples[k] in multiset(sorted);
    }
  }

  /** A report that has an entry for every listed route has one for every buffer. */
  lemma ReportCoversOrder(report: map<string, Stats>, buffers: map<string, seq<int>>, order: seq<string>)
    requires forall route :: route in buffers <==> route in order
    requires forall route :: route in report ==> route in buffers
    requires forall k :: 0 <= k < |order| ==> order[k] in report
    ensures report.Keys == buffers.Keys
  {
    forall route | route in buffers
      ensures route in report
    {
      var k :| 0 <= k < |order| && order[k] == route;
    }
  }

  /**
   * The `timings` map of the server: for each route, its latest response times,
   * oldest first. `order` is the map's insertion order, which is the order the
   * report is built in.
   */
  class Timings {
    var order: seq<string>
    var buffers: map<string, seq<int>>

    /** Every route is listed once, and every buffer holds between 1 and `RING_SIZE` samples. */
    ghost predicate Valid()
      reads this
    {
      && NoDuplicates(order)
      && (forall route :: route in buffers <==> route in order)
      && (forall route :: route in buffers ==> 1 <= |buffers[route]| <= RING_SIZE)
    }

    constructor()
      ensures Valid() && order == [] && buffers == map[]
    {
      order := [];
      buffers := map[];
    }

    /** The `onResponse` hook: push the response time into the route's ring unless the response is skipped. */
    method Record(routeUrl: Option<string>, url: string, contentType: Option<string>, ms: int)
      requires Valid()
      modifies this
      ensures Valid()
      ensures var route := RouteOf(routeUrl, url);
              if Skipped(route, contentType) then order == old(order) && buffers == old(buffers)
              else
                && buffers == old(buffers)[route := Ring.Push(SamplesOf(old(buffers), route), ms, RING_SIZE)]
                && order == (if route in old(buffers) then old(order) else old(order) + [route])
    {
      var route := RouteOf(routeUrl, url);
      if Skipped(route, contentType) {
        return;
      }
      var buf := SamplesOf(buffers, route);
      var pushed := Ring.Push(buf, ms, RING_SIZE);
      if route !in buffers {
        order := order + [route];
      }
      buffers := buffers[route := pushed];
    }

    /**
     * `GET /debug/timing`: one entry per route with samples, built in
     * insertion order; every recorded route has samples, so every one is reported.
     */
    method Report() returns (report: map<string, Stats>)
      requires Valid()
      ensures forall route :: route in report <==> route in buffers && buffers[route] != []
      ensures forall route :: route in report ==> report[route] == StatsOf(buffers[route])
      ensures report.Keys == buffers.Keys
    {
      report := map[];
      for i := 0 to |order|
        invariant forall route :: route in report ==> route in buffers && report[route] == StatsOf(buffers[route])
        invariant forall k :: 0 <= k < i ==> order[k] in report
      {
        var route := order[i];
        var samples := buffers[route];
        if |samples| == 0 {
          continue;
        }
        report := report[route := StatsOf(samples)];
      }
      ReportCoversOrder(report, buffers, order);
    }
  }
}
