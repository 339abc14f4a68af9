/**
 * capability/httpserver: the HTTP trigger. It reads its settings from a
 * configuration map, keeps a table of routes (a literal path, or "/" as the
 * catch-all), and resolves every request to a service through a strictly
 * sequential pipeline that ends in exactly one status, or in a crash when
 * the service itself panics.
 *
 * The pure functions below say what one request resolves to; the class
 * HttpServer holds the state that the Go type updates in place (settings,
 * route table, counters) and its methods are proved to follow them.
 */
module HttpServer {
  import opened Wrappers
  import opened Integers
  import opened Events
  import Strconv
  import Strings
  import Sorting
  import Finder
  import Categories
  import ConfigMaps

  type ConfigMap = ConfigMaps.ConfigMap

  /** The trigger's own contract id; it also labels the panic counter. */
  const TriggerContractId := "abesh:httpserver"

  /*
   * Default error bodies
   */

  /** The text of the default body around the two occurrences of the status code. */
  const Head := "\n\t\t{\n\t\t\t\"code\": \"SE_"
  const Mid := "\",\n\t\t\t\"lang\": \"en\",\n\t\t\t\"message\": \""
  const Tail := " ERROR\",\n\t\t\t\"data\": {}\n\t\t}\n\t"

  /** The text `h + d + m + d + t`: a template with one value filled in twice. */
  function Frame(h: string, d: string, m: string, t: string): string {
    h + d + m + d + t
  }

  /** The value filled into a framed text, if the text is one. */
  function Unframe(s: string, h: string, m: string, t: string): Option<string> {
    if |s| < |h| + |m| + |t| + 2 || s[..|h|] != h || s[|s| - |t|..] != t then None
    else
      var middle := s[|h|..|s| - |t|];
      var d := middle[..(|middle| - |m|) / 2];
      if middle == d + m + d then Some(d) else None
  }

  /** Unframe reads back what Frame filled in, and nothing else reads back. */
  lemma UnframeFrame(h: string, d: string, m: string, t: string)
    requires d != []
    ensures Unframe(Frame(h, d, m, t), h, m, t) == Some(d)
  {
    var s := h + d + m + d + t;
    assert s[..|h|] == h;
    assert s[|s| - |t|..] == t;
    var middle := s[|h|..|s| - |t|];
    assert middle == d + m + d;
    assert middle[..(|middle| - |m|) / 2] == d;
  }

  lemma FrameUnframe(s: string, h: string, m: string, t: string)
    requires Unframe(s, h, m, t).Some?
    ensures Unframe(s, h, m, t).value != []
    ensures Frame(h, Unframe(s, h, m, t).value, m, t) == s
  {
    var middle := s[|h|..|s| - |t|];
    assert s == s[..|h|] + middle + s[|s| - |t|..];
  }

  /** buildDefaultMessage: a JSON body with code "SE_<code>", lang "en", message "<code> ERROR" and empty data. */
  function BuildDefaultMessage(code: Uint32): string {
    Frame(Head, Strconv.FormatUint(code), Mid, Tail)
  }

  /** Reads back the status code from a default body; None for any other text. */
  function ParseDefaultMessage(s: string): (r: Option<Uint32>)
  {
    match Unframe(s, Head, Mid, Tail)
    case None => None
    case Some(d) =>
      if d == [] || (d[0] == '0' && d != "0") then None
      else
        match Strconv.ParseUint(d, W32)
        case Some(v) => Some(v)
        case None => None
  }

  /** Every default body names its own status code. */
  lemma DefaultMessageRoundTrip(code: Uint32)
    ensures ParseDefaultMessage(BuildDefaultMessage(code)) == Some(code)
  {
    UnframeFrame(Head, Strconv.FormatUint(code), Mid, Tail);
    Strconv.ParseFormatUint(code, W32);
  }

  /** A text that reads back as a code is exactly that code's default body. */
  lemma DefaultMessageCanonical(s: string)
    requires ParseDefaultMessage(s).Some?
    ensures BuildDefaultMessage(ParseDefaultMessage(s).value) == s
  {
    FrameUnframe(s, Head, Mid, Tail);
    Strconv.FormatParseUint(Unframe(s, Head, Mid, Tail).value, W32);
  }

  /** The statuses the trigger prepares default bodies for. */
  const DefaultCodes: seq<Uint32> := [401, 403, 404, 405, 408, 409, 499, 500]

  /** `m` holds the default body of exactly the codes that have one. */
  predicate DefaultsBuilt(m: map<nat, string>) {
    && (forall c :: c in DefaultCodes ==> c in m && m[c] == BuildDefaultMessage(c))
    && (forall c :: c in m ==> c in DefaultCodes)
  }

  /*
   * Localised messages
   */

  /** getMessage: the value at `key_lang` when it is non-empty, else the value at `key` when present (even empty), else `d`. */
  function GetMessage(values: ConfigMap, key: string, d: string, lang: string): (r: string)
    ensures var localized := key + "_" + lang;
      && (localized in values && values[localized] != [] ==> r == values[localized])
      && ((localized !in values || values[localized] == []) && key in values ==> r == values[key])
      && ((localized !in values || values[localized] == []) && key !in values ==> r == d)
  {
    var data := ConfigMaps.String(values, key + "_" + lang, "");
    if |data| == 0 then ConfigMaps.String(values, key, d) else data
  }

  /** Request and response headers: each name with its values in order. */
  type Header = map<string, seq<string>>

  /** The first value stored under a header name, or "" (Header.Get). */
  function HeaderGet(h: Header, name: string): string {
    if name in h && |h[name]| > 0 then h[name][0] else ""
  }

  /** getLanguage: the Accept-Language value, or "en" when it is empty or absent. */
  function Language(h: Header): (l: string)
    ensures l != []
    ensures HeaderGet(h, "Accept-Language") != [] ==> l == HeaderGet(h, "Accept-Language")
    ensures HeaderGet(h, "Accept-Language") == [] ==> l == "en"
  {
    var l := HeaderGet(h, "Accept-Language");
    if |l| == 0 then "en" else l
  }

  /** The configuration key of a status's body override: `s<code>m`. */
  function MessageKey(code: nat): string {
    "s" + Strconv.FormatUint(code) + "m"
  }

  /*
   * Requests, routes and outcomes
   */

  /**
   * A request as the handler sees it. A body of None stands for a failing
   * body read; `contextError` is the error of the request's own context
   * at the moment the handler checks it.
   */
  datatype Request = Request(
    httpMethod: string,
    path: string,
    escapedPath: string,
    header: Header,
    query: map<string, seq<string>>,
    body: Option<seq<Byte>>,
    contextError: Option<Failure>)

  /** How a header name is matched internally: trimmed and lower-cased. */
  function Normalise(name: string): string {
    Strings.ToLower(Strings.TrimSpace(name))
  }

  /** No two names of a header normalise to the same name. */
  predicate DistinctNames(h: Header) {
    DistinctUnder(h, Normalise)
  }

  /** No two names of `h` have the same image under `norm`. */
  predicate DistinctUnder(h: Header, norm: string -> string) {
    forall a, b {:trigger norm(a), norm(b)} :: a in h && b in h && a != b ==> norm(a) != norm(b)
  }

  /**
   * What the transport guarantees about a request: header names are
   * canonical, so they stay distinct once normalised, and a context error is
   * one of the two context errors.
   */
  predicate WellFormed(req: Request) {
    DistinctNames(req.header) && (req.contextError.None? || !req.contextError.value.Other?)
  }

  /** The first value of every name that has one. */
  function FirstValues(h: map<string, seq<string>>): (m: map<string, string>)
    ensures m.Keys == set k | k in h && |h[k]| > 0
    ensures forall k :: k in m ==> m[k] == h[k][0]
  {
    map k | k in h && |h[k]| > 0 :: h[k][0]
  }

  /** `lowered` holds the first value of every header of `h`, under its normalised name, and nothing else. */
  predicate LoweredFrom(h: Header, lowered: map<string, string>) {
    LoweredUnder(h, lowered, Normalise)
  }

  /** `lowered` holds the first value of every header of `h` under its image by `norm`, and nothing else. */
  predicate LoweredUnder(h: Header, lowered: map<string, string>, norm: string -> string) {
    && (forall k :: k in h && |h[k]| > 0 ==> norm(k) in lowered && lowered[norm(k)] == h[k][0])
    && (forall n :: n in lowered ==> exists k :: k in h && |h[k]| > 0 && norm(k) == n)
  }

  /** Whether some header with a value is named content-type once normalised. */
  predicate HasContentType(h: Header) {
    exists k :: k in h && |h[k]| > 0 && Normalise(k) == "content-type"
  }

  /** The input event's type: the first content-type value, or "application/text" without one. */
  function TypeUrl(h: Header): string
    requires DistinctNames(h)
  {
    if HasContentType(h) then
      var k :| k in h && |h[k]| > 0 && Normalise(k) == "content-type";
      h[k][0]
    else "application/text"
  }

  /** Looking content-type up in the lowered header map gives TypeUrl. */
  lemma LoweredTypeUrl(h: Header, lowered: map<string, string>)
    requires DistinctNames(h) && LoweredFrom(h, lowered)
    ensures GetValue(lowered, "content-type", "application/text") == TypeUrl(h)
  {
    if HasContentType(h) {
      var k :| k in h && |h[k]| > 0 && Normalise(k) == "content-type";
      assert Normalise(k) in lowered;
    }
    if "content-type" in lowered {
      var k :| k in h && |h[k]| > 0 && Normalise(k) == "content-type";
      assert HasContentType(h);
    }
  }

  /** utility.GetValue: the value under `key`, or `d` when there is none; the same lookup as ConfigMap.String. */
  function GetValue(m: map<string, string>, key: string, d: string): (r: string)
    ensures key in m ==> r == m[key]
    ensures key !in m ==> r == d
  {
    ConfigMaps.String(m, key, d)
  }

  /** The metadata of the input event built for a request. */
  function RequestMetadata(req: Request): Metadata {
    EmptyMetadata.(
      httpMethod := req.httpMethod,
      path := req.escapedPath,
      headers := FirstValues(req.header),
      query := FirstValues(req.query),
      contractIdList := [TriggerContractId])
  }

  /** The input event: typed by the request's content-type header, "application/text" without one. */
  function InputEvent(req: Request, body: seq<Byte>): Event
    requires WellFormed(req)
  {
    Event(RequestMetadata(req), TypeUrl(req.header), body)
  }

  /** What an authorizer answers; a panic inside it is caught by the handler's barrier. */
  datatype Verdict = Allow | Deny | Panic

  type Authorizer = (string, Metadata) -> Verdict

  /** A registered service: its sorted method list, optional authorizer with its expression, and contract id. */
  datatype Route = Route(methods: seq<string>, authorizer: Option<Authorizer>, expression: string, serviceId: string)

  /** What the route table maps a pattern to. */
  datatype Handler =
    | NotFoundHandler
    | StaticHandler
    | HealthHandler
    | MetricsHandler
    | ServiceHandler(route: Route)

  /** Which of the two awaited signals the handler's select observes first. */
  datatype Signal = DeadlineFirst | ResultFirst

  /** How the service call ends, when it is started. */
  datatype ServeResult = Returned(event: Event, err: Option<Failure>) | Panicked

  datatype Reply = Reply(status: nat, header: Header, body: seq<Byte>)

  /**
   * Written: the one response sent. Crashed: the process terminates, since a
   * panic in the service's own goroutine is beyond the handler's barrier.
   * Delegated: a library handler (file server, metrics exposition) answers.
   */
  datatype Response = Written(reply: Reply) | Crashed | Delegated

  /**
   * The observable effects of one request: the response, the status labels
   * counted under the request path (in order), whether the barrier caught a
   * panic, the input event handed to the transmitter and to the service,
   * and the output event handed to the transmitter.
   */
  datatype Outcome = Outcome(
    response: Response,
    statusLabels: seq<string>,
    panicRecovered: bool,
    inputTransmitted: Option<(string, Event)>,
    served: Option<Event>,
    outputTransmitted: Option<(string, Event)>)

  /** The settings the handler reads. */
  datatype Settings = Settings(values: ConfigMap, defaultContentType: string, defaults: map<nat, string>, transmitterSet: bool)

  /** Header.Add: appends a value under a name. */
  function Add(h: Header, name: string, v: string): Header {
    h[name := (if name in h then h[name] else []) + [v]]
  }

  /** A header holding each entry of `m` as a single value. */
  function Singletons(m: map<string, string>): Header {
    map k | k in m :: [m[k]]
  }

  /** The body of an error reply: the localised override, the plain override, or the default body. */
  function ErrorBody(cfg: Settings, code: nat, req: Request): string {
    var d := if code in cfg.defaults then cfg.defaults[code] else "";
    GetMessage(cfg.values, MessageKey(code), d, Language(req.header))
  }

  /** writeMessage: the status, the default content type added to the header so far, and the error body. */
  function StatusReply(cfg: Settings, code: nat, req: Request, h: Header): Reply {
    Reply(code, Add(h, "Content-Type", cfg.defaultContentType), Strings.Utf8(ErrorBody(cfg, code, req)))
  }

  /** s<code>m: one count for (path, code) and the error reply. */
  function Failed(cfg: Settings, code: nat, req: Request): Outcome {
    Outcome(Written(StatusReply(cfg, code, req, map[])), [Strconv.FormatUint(code)], false, None, None, None)
  }

  /** The panic barrier: a 500 reply over whatever header was already added. */
  function Recovered(cfg: Settings, req: Request, h: Header, labels: seq<string>): Outcome {
    Outcome(Written(StatusReply(cfg, 500, req, h)), labels + ["500"], true, None, None, None)
  }

  /** How an error received from the service channel is answered. */
  function Classify(cfg: Settings, req: Request, e: Failure): Outcome {
    match e
    case DeadlineExceeded => Failed(cfg, 408, req)
    case Canceled => Failed(cfg, 499, req)
    case Other(_) => Failed(cfg, 500, req)
  }

  /** The status codes net/http's WriteHeader accepts; any other code makes it panic. */
  predicate ValidStatus(code: int) {
    100 <= code <= 999
  }

  /**
   * Whether net/http sends a body with this status: a 204 or a 304 reply has
   * none, and writing the payload there fails and is only logged.
   */
  predicate BodyAllowed(code: int) {
    code != 204 && code != 304
  }

  /** The payload a reply with this status carries. */
  function Payload(code: int, value: seq<Byte>): (body: seq<Byte>)
    ensures BodyAllowed(code) ==> body == value
    ensures !BodyAllowed(code) ==> body == []
  {
    if BodyAllowed(code) then value else []
  }

  /** A successful service result: its headers, status and body, or the barrier's 500 when the status is invalid. */
  function Deliver(cfg: Settings, req: Request, serviceId: string, ev: Event): Outcome {
    var code := ev.metadata.statusCode;
    var statusText := Strconv.FormatUint(code);
    var out := if cfg.transmitterSet then Some((serviceId, ev)) else None;
    var h := Singletons(ev.metadata.headers);
    if ValidStatus(code) then Outcome(Written(Reply(code, h, Payload(code, ev.value))), [statusText], false, None, None, out)
    else Recovered(cfg, req, h, [statusText]).(outputTransmitted := out)
  }

  /** The authorizer's verdict, Allow when the route has none. */
  function Authorize(route: Route, req: Request): Verdict {
    if route.authorizer.Some? then route.authorizer.value(route.expression, RequestMetadata(req)) else Allow
  }

  /** Whether a request passes the method, authorizer and body checks. */
  predicate PassesChecks(route: Route, req: Request) {
    req.httpMethod in route.methods && Authorize(route, req) == Allow && req.body.Some?
  }

  /**
   * The request handler of a service route: the method check, the
   * authorizer, the body read, then the race between the derived context
   * and the service's result.
   */
  function Handle(cfg: Settings, route: Route, req: Request, signal: Signal, result: ServeResult): Outcome
    requires WellFormed(req)
  {
    match Reject(route, req)
    case Some(r) => Rejected(cfg, req, r)
    case None =>
      var input := InputEvent(req, req.body.value);
      var sent := if cfg.transmitterSet then Some((route.serviceId, input)) else None;
      Resolve(cfg, route, req, input, signal, result).(inputTransmitted := sent)
  }

  /** Why a request is turned away before the service is called. */
  datatype Rejection = Status(code: nat) | AuthorizerPanicked

  /** The method, authorizer and body checks, in that order; None when all pass. */
  function Reject(route: Route, req: Request): (r: Option<Rejection>)
    ensures r.None? <==> PassesChecks(route, req)
  {
    if req.httpMethod !in route.methods then Some(Status(405))
    else
      var verdict := Authorize(route, req);
      if verdict == Panic then Some(AuthorizerPanicked)
      else if verdict == Deny then Some(Status(403))
      else if req.body.None? then Some(Status(500))
      else None
  }

  /** The answer to a rejected request: the error status, or the barrier's 500. */
  function Rejected(cfg: Settings, req: Request, r: Rejection): Outcome {
    match r
    case Status(code) => Failed(cfg, code, req)
    case AuthorizerPanicked => Recovered(cfg, req, map[], [])
  }

  /**
   * The race between the derived context and the service's result, once the
   * input event is built. A request whose context has already ended does not
   * start the service; either signal may then be observed first.
   */
  function Resolve(cfg: Settings, route: Route, req: Request, input: Event, signal: Signal, result: ServeResult): Outcome {
    if req.contextError.Some? then
      match signal
      case DeadlineFirst => Failed(cfg, 408, req)
      case ResultFirst => Classify(cfg, req, req.contextError.value)
    else
      match signal
      case DeadlineFirst => Failed(cfg, 408, req).(served := Some(input))
      case ResultFirst =>
        match result
        case Panicked => Outcome(Crashed, [], false, None, Some(input), None)
        case Returned(ev, err) =>
          if err.Some? then Classify(cfg, req, err.value).(served := Some(input))
          else Deliver(cfg, req, route.serviceId, ev).(served := Some(input))
  }

  /** http.NotFound's reply, for a path no pattern matches when there is no catch-all. */
  const MuxNotFoundText := "404 page not found\n"
  const MuxNotFoundBody: seq<Byte> := [52, 48, 52, 32, 112, 97, 103, 101, 32, 110, 111, 116, 32, 102, 111, 117, 110, 100, 10]
  const MuxNotFound := Reply(404, map["Content-Type" := ["text/plain; charset=utf-8"], "X-Content-Type-Options" := ["nosniff"]], MuxNotFoundBody)

  /** The handler the route table selects: the exact pattern, else the "/" catch-all. */
  function Lookup(routes: map<string, Handler>, path: string): (r: Option<Handler>)
    ensures path in routes ==> r == Some(routes[path])
    ensures path !in routes && "/" in routes ==> r == Some(routes["/"])
    ensures r.None? <==> path !in routes && "/" !in routes
  {
    if path in routes then Some(routes[path])
    else if "/" in routes then Some(routes["/"])
    else None
  }

  /** A whole request, from the route table to the outcome. */
  function Dispatch(cfg: Settings, routes: map<string, Handler>, req: Request, signal: Signal, result: ServeResult): Outcome
    requires WellFormed(req)
  {
    match Lookup(routes, req.path)
    case None => Outcome(Written(MuxNotFound), [], false, None, None, None)
    case Some(NotFoundHandler) => Failed(cfg, 404, req)
    case Some(HealthHandler) => Outcome(Written(Reply(200, map[], [])), [], false, None, None, None)
    case Some(StaticHandler) => Outcome(Delegated, [], false, None, None, None)
    case Some(MetricsHandler) => Outcome(Delegated, [], false, None, None, None)
    case Some(ServiceHandler(route)) => Handle(cfg, route, req, signal, result)
  }

  /*
   * Counters
   */

  type Counter<K> = map<K, nat>

  function Inc<K>(m: Counter<K>, k: K): (r: Counter<K>)
    ensures r.Keys == m.Keys + {k}
  {
    m[k := if k in m then m[k] + 1 else 1]
  }

  /** The response-status counter after counting `labels` under `path`. */
  function CountAll(m: Counter<(string, string)>, path: string, labels: seq<string>): Counter<(string, string)>
    decreases |labels|
  {
    if labels == [] then m else CountAll(Inc(m, (path, labels[0])), path, labels[1..])
  }

  /** The count recorded under k, 0 when there is none. */
  function Count<K>(m: Counter<K>, k: K): nat {
    if k in m then m[k] else 0
  }

  /** Counting one label is one increment. */
  lemma CountOne(m: Counter<(string, string)>, path: string, a: string)
    ensures CountAll(m, path, [a]) == Inc(m, (path, a))
  {
    assert [a][1..] == [];
  }

  /** Counting two labels is two increments. */
  lemma CountTwo(m: Counter<(string, string)>, path: string, a: string, b: string)
    ensures CountAll(m, path, [a, b]) == Inc(Inc(m, (path, a)), (path, b))
  {
    var m1 := Inc(m, (path, a));
    assert [a, b][1..] == [b];
    assert CountAll(m, path, [a, b]) == CountAll(m1, path, [b]);
    assert [b][1..] == [];
    assert CountAll(m1, path, [b]) == CountAll(Inc(m1, (path, b)), path, []);
  }

  /** Counting labels adds, under each (path, label), the number of times that label occurs. */
  lemma {:induction false} CountAllSpec(m: Counter<(string, string)>, path: string, labels: seq<string>, k: (string, string))
    ensures Count(CountAll(m, path, labels), k) == Count(m, k) + (if k.0 == path then multiset(labels)[k.1] else 0)
    decreases |labels|
  {
    if labels != [] {
      CountAllSpec(Inc(m, (path, labels[0])), path, labels[1..], k);
      assert labels == [labels[0]] + labels[1..];
    }
  }

  /*
   * Route table
   */

  /** ServeMux.Handle: a new pattern is added; an empty or repeated pattern panics (None). */
  function Register(routes: map<string, Handler>, pattern: string, h: Handler): Option<map<string, Handler>> {
    if pattern == "" || pattern in routes then None else Some(routes[pattern := h])
  }

  /** Registering several patterns in order, stopping at the first panic. */
  function RegisterAll(routes: map<string, Handler>, regs: seq<(string, Handler)>): Option<map<string, Handler>>
    decreases |regs|
  {
    if regs == [] then Some(routes)
    else
      match Register(routes, regs[0].0, regs[0].1)
      case None => None
      case Some(next) => RegisterAll(next, regs[1..])
  }

  /** Patterns that can be registered together: non-empty, pairwise distinct, and new. */
  predicate Registrable(routes: map<string, Handler>, regs: seq<(string, Handler)>) {
    && (forall i :: 0 <= i < |regs| ==> regs[i].0 != "" && regs[i].0 !in routes)
    && (forall i, j :: 0 <= i < j < |regs| ==> regs[i].0 != regs[j].0)
  }

  /** Registration succeeds exactly when the patterns are registrable. */
  lemma {:induction false} RegisterAllSucceeds(routes: map<string, Handler>, regs: seq<(string, Handler)>)
    ensures RegisterAll(routes, regs).Some? <==> Registrable(routes, regs)
    decreases |regs|
  {
    if regs != [] && regs[0].0 != "" && regs[0].0 !in routes {
      RegisterAllSucceeds(routes[regs[0].0 := regs[0].1], regs[1..]);
      RegistrableStep(routes, regs);
    }
  }

  lemma RegistrableStep(routes: map<string, Handler>, regs: seq<(string, Handler)>)
    requires regs != [] && regs[0].0 != "" && regs[0].0 !in routes
    ensures Registrable(routes, regs) <==> Registrable(routes[regs[0].0 := regs[0].1], regs[1..])
  {
    assert forall i :: 1 <= i < |regs| ==> regs[1..][i - 1] == regs[i];
  }

  /** After a successful registration the table maps every new pattern to its handler and keeps the old ones. */
  lemma {:induction false} RegisterAllContents(routes: map<string, Handler>, regs: seq<(string, Handler)>)
    requires RegisterAll(routes, regs).Some?
    ensures var r := RegisterAll(routes, regs).value;
      && r.Keys == routes.Keys + (set i | 0 <= i < |regs| :: regs[i].0)
      && (forall p :: p in routes ==> r[p] == routes[p])
      && (forall i :: 0 <= i < |regs| ==> r[regs[i].0] == regs[i].1)
    decreases |regs|
  {
    if regs != [] {
      var next := routes[regs[0].0 := regs[0].1];
      RegisterAllContents(next, regs[1..]);
      assert forall i :: 1 <= i < |regs| ==> regs[1..][i - 1] == regs[i];
      assert (set i | 0 <= i < |regs| :: regs[i].0) == {regs[0].0} + (set i | 0 <= i < |regs[1..]| :: regs[1..][i].0);
    }
  }

  /** The registrations Setup makes, in order. */
  function SetupRegistrations(notFound: bool, staticDir: string, staticPath: string, staticIsDir: bool,
                              healthPath: string, metricsEnabled: bool, metricPath: string): seq<(string, Handler)>
  {
    (if notFound then [("/", NotFoundHandler)] else [])
    + (if staticDir != "" && staticIsDir then [(staticPath, StaticHandler)] else [])
    + (if healthPath != "" then [(healthPath, HealthHandler)] else [])
    + (if metricsEnabled then [(metricPath, MetricsHandler)] else [])
  }

  /** The method list of a route: the whole text trimmed, upper-cased, cut at commas, then sorted. */
  function MethodList(methods: string): (r: seq<string>)
    ensures Sorting.Sorted(r)
    ensures multiset(r) == multiset(Strings.Split(Strings.ToUpper(Strings.TrimSpace(methods)), ","))
  {
    Sorting.Sort(Strings.Split(Strings.ToUpper(Strings.TrimSpace(methods)), ","))
  }

  /** What AddService does with a service's trigger values. */
  datatype AddResult = Added | MethodNotDefined | PathNotDefined | RegistrationPanicked

  /** The settings SetConfigMap reads for the listener. */
  datatype ListenerSettings = ListenerSettings(host: string, port: string, certFile: string, keyFile: string,
                                               defaultContentType: string)

  /** The settings SetConfigMap reads for the built-in routes. */
  datatype RouteSettings = RouteSettings(staticDir: string, staticPath: string, healthPath: string,
                                         default404HandlerEnabled: bool, metricsEnabled: bool, metricPath: string)

  /** The listener settings `configuration` gives, each with its default. */
  function ListenerOf(configuration: ConfigMap): ListenerSettings {
    ListenerSettings(
      ConfigMaps.String(configuration, "host", "0.0.0.0"),
      ConfigMaps.String(configuration, "port", "8080"),
      ConfigMaps.String(configuration, "cert_file", ""),
      ConfigMaps.String(configuration, "key_file", ""),
      ConfigMaps.String(configuration, "default_content_type", "application/json"))
  }

  /** The route settings `configuration` gives, each with its default. */
  function RoutesOf(configuration: ConfigMap): RouteSettings {
    RouteSettings(
      ConfigMaps.String(configuration, "static_dir", ""),
      ConfigMaps.String(configuration, "static_path", "/static/"),
      ConfigMaps.String(configuration, "health_path", ""),
      ConfigMaps.Bool(configuration, "default_404_handler_enabled", true),
      ConfigMaps.Bool(configuration, "metrics_enabled", false),
      ConfigMaps.String(configuration, "metric_path", "/metrics"))
  }

  /** An empty configuration gives every default. */
  lemma EmptyConfigurationDefaults()
    ensures ListenerOf(map[]) == ListenerSettings("0.0.0.0", "8080", "", "", "application/json")
    ensures RoutesOf(map[]) == RouteSettings("", "/static/", "", true, false, "/metrics")
  {
  }

  /**
   * HTTPServer: the settings read by SetConfigMap, the default bodies, the
   * route table (None until Setup creates the multiplexer), and the two
   * counters, kept here as fields.
   */
  class HttpServer {
    var values: ConfigMap
    var listener: ListenerSettings
    var routes: RouteSettings
    var defaultMessages: map<nat, string>
    var transmitterSet: bool
    var mux: Option<map<string, Handler>>
    var responseStatus: Counter<(string, string)>
    var panicCounter: Counter<string>

    /** New: every field at its zero value. */
    constructor ()
      ensures values == map[] && listener == ListenerSettings("", "", "", "", "")
      ensures routes == RouteSettings("", "", "", false, false, "")
      ensures defaultMessages == map[] && !transmitterSet
      ensures mux.None? && responseStatus == map[] && panicCounter == map[]
    {
      values := map[];
      listener := ListenerSettings("", "", "", "", "");
      routes := RouteSettings("", "", "", false, false, "");
      defaultMessages := map[];
      transmitterSet := false;
      mux := None;
      responseStatus, panicCounter := map[], map[];
    }

    function Name(): string { "abesh_httpserver" }

    /** Category: the trigger category. */
    function Category(): (s: string)
      ensures s == "trigger"
    {
      Categories.CategoryString(Categories.Trigger)
    }

    function ContractId(): string { TriggerContractId }

    /** GetConfigMap: the configuration last set. */
    function GetConfigMap(): (c: ConfigMap)
      reads this`values
      ensures c == values
    {
      values
    }

    /** SetConfigMap: every setting read with its default, and the default bodies built; it never fails. */
    method SetConfigMap(configuration: ConfigMap) returns (err: Option<Failure>)
      modifies this`values, this`listener, this`routes, this`defaultMessages
      ensures err.None? && values == configuration
      ensures listener == ListenerOf(configuration) && routes == RoutesOf(configuration)
      ensures DefaultsBuilt(defaultMessages)
    {
      values := configuration;
      listener := ListenerOf(configuration);
      routes := RoutesOf(configuration);
      BuildDefaultMessages();
      return None;
    }

    /** The default bodies of the statuses that have one. */
    method BuildDefaultMessages()
      modifies this`defaultMessages
      ensures DefaultsBuilt(defaultMessages)
    {
      defaultMessages := map c | c in DefaultCodes :: BuildDefaultMessage(c);
    }

    /** What the request handler reads of the server. */
    function CurrentSettings(): Settings
      reads this`values, this`listener, this`defaultMessages, this`transmitterSet
    {
      Settings(values, listener.defaultContentType,
        defaultMessages,
        transmitterSet)
    }

    /** SetEventTransmitter: whether input and output events are handed to a transmitter. */
    method SetEventTransmitter(present: bool) returns (err: Option<Failure>)
      modifies this`transmitterSet
      ensures transmitterSet == present && err.None?
    {
      transmitterSet := present;
      return None;
    }

    /**
     * AddHandler / AddHandlerFunc: ServeMux registration, which panics on an
     * empty or repeated pattern, and on a route table not yet built by Setup.
     */
    method HandlePattern(pattern: string, h: Handler) returns (ok: bool)
      modifies this`mux
      ensures ok <==> old(mux).Some? && Register(old(mux).value, pattern, h).Some?
      ensures mux == if ok then Register(old(mux).value, pattern, h) else old(mux)
    {
      if mux.None? || pattern == "" || pattern in mux.value {
        return false;
      }
      mux := Some(mux.value[pattern := h]);
      return true;
    }

    /**
     * Setup: a fresh route table with the catch-all 404 route when enabled,
     * the static route when the static directory exists, the health route and
     * the metrics route when configured; false when a registration panics.
     * `staticIsDir` is what os.Stat reports about the static directory.
     */
    method Setup(staticIsDir: bool) returns (ok: bool)
      modifies this`mux
      ensures var regs := SetupRegistrations(routes.default404HandlerEnabled, routes.staticDir, routes.staticPath,
                                             staticIsDir, routes.healthPath, routes.metricsEnabled, routes.metricPath);
        && mux.Some?
        && (ok <==> RegisterAll(map[], regs).Some?)
        && (ok ==> mux == RegisterAll(map[], regs))
    {
      mux := Some(map[]);
      ok := true;
      ghost var done: seq<(string, Handler)> := [];
      assert RegisterAll(map[], done) == Some(map[]);
      var r := routes;
      ok, done := RegisterIf(ok, done, r.default404HandlerEnabled, "/", NotFoundHandler);
      assert done == if r.default404HandlerEnabled then [("/", NotFoundHandler)] else [];
      ok, done := RegisterIf(ok, done, r.staticDir != "" && staticIsDir, r.staticPath, StaticHandler);
      ok, done := RegisterIf(ok, done, r.healthPath != "", r.healthPath, HealthHandler);
      ok, done := RegisterIf(ok, done, r.metricsEnabled, r.metricPath, MetricsHandler);
    }

    /**
     * One conditional registration of Setup, after the registrations `done`:
     * the table stays RegisterAll of the registrations so far while none
     * panicked, and once one panicked the whole sequence fails.
     */
    method RegisterIf(okIn: bool, ghost done: seq<(string, Handler)>, cond: bool, pattern: string, h: Handler)
      returns (ok: bool, ghost done': seq<(string, Handler)>)
      requires mux.Some?
      requires okIn ==> mux == RegisterAll(map[], done)
      requires !okIn ==> RegisterAll(map[], done).None?
      modifies this`mux
      ensures mux.Some?
      ensures done' == done + if cond then [(pattern, h)] else []
      ensures ok ==> mux == RegisterAll(map[], done')
      ensures !ok ==> RegisterAll(map[], done').None?
    {
      var step := if cond then [(pattern, h)] else [];
      done' := done + step;
      RegisterAllAppend(map[], done, step);
      if !cond {
        assert done' == done;
        return okIn, done';
      }
      if !okIn {
        return false, done';
      }
      assert step[1..] == [];
      ok := HandlePattern(pattern, h);
    }

    /**
     * AddService: checks the method before the path, normalises both, and
     * registers the request handler under the trimmed path. On an error
     * nothing is registered.
     */
    method AddService(authorizer: Option<Authorizer>, expression: string, triggerValues: ConfigMap, serviceId: string)
      returns (r: AddResult)
      modifies this`mux
      ensures var methods := ConfigMaps.String(triggerValues, "method", "");
              var path := ConfigMaps.String(triggerValues, "path", "");
              var h := ServiceHandler(Route(MethodList(methods), authorizer, expression, serviceId));
        && (methods == "" ==> r == MethodNotDefined)
        && (methods != "" && path == "" ==> r == PathNotDefined)
        && (methods != "" && path != "" ==>
              r == if old(mux).Some? && Register(old(mux).value, Strings.TrimSpace(path), h).Some?
                   then Added else RegistrationPanicked)
        && (r == Added ==> mux == Register(old(mux).value, Strings.TrimSpace(path), h))
        && (r != Added ==> mux == old(mux))
    {
      var methods := ConfigMaps.String(triggerValues, "method", "");
      if |methods| == 0 {
        return MethodNotDefined;
      }
      var methodList := MethodList(methods);
      var path := ConfigMaps.String(triggerValues, "path", "");
      if |path| == 0 {
        return PathNotDefined;
      }
      path := Strings.TrimSpace(path);
      if mux.None? {
        return RegistrationPanicked;
      }
      var ok := HandlePattern(path, ServiceHandler(Route(methodList, authorizer, expression, serviceId)));
      return if ok then Added else RegistrationPanicked;
    }

    /** writeMessage through s<code>m: counts (path, code) once and builds the error reply over the header so far. */
    method WriteMessage(code: nat, req: Request, h: Header) returns (reply: Reply)
      modifies this`responseStatus
      ensures reply == StatusReply(CurrentSettings(), code, req, h)
      ensures responseStatus == Inc(old(responseStatus), (req.path, Strconv.FormatUint(code)))
    {
      responseStatus := Inc(responseStatus, (req.path, Strconv.FormatUint(code)));
      var header := Add(h, "Content-Type", listener.defaultContentType);
      var d := if code in CurrentSettings().defaults then CurrentSettings().defaults[code] else "";
      var body := GetMessage(values, MessageKey(code), d, Language(req.header));
      reply := Reply(code, header, Strings.Utf8(body));
    }

    /** An error status as the whole answer. */
    method Respond(code: nat, req: Request) returns (o: Outcome)
      modifies this`responseStatus
      ensures o == Failed(CurrentSettings(), code, req)
      ensures responseStatus == CountAll(old(responseStatus), req.path, o.statusLabels)
    {
      var reply := WriteMessage(code, req, map[]);
      o := Outcome(Written(reply), [Strconv.FormatUint(code)], false, None, None, None);
    }

    /** The panic barrier: counts the panic under the trigger's contract id and answers 500. */
    method Barrier(req: Request, h: Header, labels: seq<string>) returns (o: Outcome)
      modifies this`responseStatus, this`panicCounter
      ensures o == Recovered(CurrentSettings(), req, h, labels)
      ensures responseStatus == Inc(old(responseStatus), (req.path, "500"))
      ensures panicCounter == Inc(old(panicCounter), TriggerContractId)
    {
      panicCounter := Inc(panicCounter, ContractId());
      var reply := WriteMessage(500, req, h);
      assert Strconv.FormatUint(500) == "500";
      o := Outcome(Written(reply), labels + ["500"], true, None, None, None);
    }

    /** The error identities the handler tells apart. */
    method ClassifyFailure(req: Request, e: Failure) returns (o: Outcome)
      modifies this`responseStatus
      ensures o == Classify(CurrentSettings(), req, e)
      ensures responseStatus == CountAll(old(responseStatus), req.path, o.statusLabels)
    {
      if e == DeadlineExceeded {
        o := Respond(408, req);
        return;
      }
      if e == Canceled {
        o := Respond(499, req);
        return;
      }
      o := Respond(500, req);
    }

    /** A successful result: counted under its own status, transmitted, its headers added, its status written. */
    method DeliverEvent(req: Request, serviceId: string, ev: Event) returns (o: Outcome)
      modifies this`responseStatus, this`panicCounter
      ensures o == Deliver(CurrentSettings(), req, serviceId, ev)
      ensures responseStatus == CountAll(old(responseStatus), req.path, o.statusLabels)
      ensures panicCounter == if o.panicRecovered then Inc(old(panicCounter), TriggerContractId) else old(panicCounter)
    {
      var code := ev.metadata.statusCode;
      var statusText := Strconv.FormatUint(code);
      responseStatus := Inc(responseStatus, (req.path, statusText));
      var out := if transmitterSet then Some((serviceId, ev)) else None;
      var h := CopyHeaders(ev.metadata.headers);
      if 100 <= code <= 999 {
        var body := if code != 204 && code != 304 then ev.value else [];
        o := Outcome(Written(Reply(code, h, body)), [statusText], false, None, None, out);
      } else {
        o := Barrier(req, h, [statusText]);
        CountTwo(old(responseStatus), req.path, statusText, "500");
        o := o.(outputTransmitted := out);
      }
    }

    /**
     * The request handler of a service route: 405 for a method outside the
     * list, then the request maps, the authorizer (403), the body (500), the
     * input event, and the first signal observed.
     */
    method HandleRequest(route: Route, req: Request, signal: Signal, result: ServeResult) returns (o: Outcome)
      requires WellFormed(req)
      modifies this`responseStatus, this`panicCounter
      ensures o == Handle(CurrentSettings(), route, req, signal, result)
      ensures responseStatus == CountAll(old(responseStatus), req.path, o.statusLabels)
      ensures panicCounter == if o.panicRecovered then Inc(old(panicCounter), TriggerContractId) else old(panicCounter)
    {
      var rejection, metadata, lowered := Admit(route, req);
      if rejection.Some? {
        o := Refuse(req, rejection.value);
        return;
      }
      var input := Event(metadata, GetValue(lowered, "content-type", "application/text"), req.body.value);
      LoweredTypeUrl(req.header, lowered);
      var sent := if transmitterSet then Some((route.serviceId, input)) else None;
      o := Await(route, req, input, signal, result);
      o := o.(inputTransmitted := sent);
    }

    /** An answer to a rejected request. */
    method Refuse(req: Request, r: Rejection) returns (o: Outcome)
      modifies this`responseStatus, this`panicCounter
      ensures o == Rejected(CurrentSettings(), req, r)
      ensures responseStatus == CountAll(old(responseStatus), req.path, o.statusLabels)
      ensures panicCounter == if o.panicRecovered then Inc(old(panicCounter), TriggerContractId) else old(panicCounter)
    {
      match r
      case Status(code) =>
        o := Respond(code, req);
      case AuthorizerPanicked =>
        o := Barrier(req, map[], []);
        assert [] + ["500"] == ["500"];
        CountOne(old(responseStatus), req.path, "500");
    }

    /** The select over the derived context and the service channel. */
    method Await(route: Route, req: Request, input: Event, signal: Signal, result: ServeResult) returns (o: Outcome)
      modifies this`responseStatus, this`panicCounter
      ensures o == Resolve(CurrentSettings(), route, req, input, signal, result)
      ensures responseStatus == CountAll(old(responseStatus), req.path, o.statusLabels)
      ensures panicCounter == if o.panicRecovered then Inc(old(panicCounter), TriggerContractId) else old(panicCounter)
    {
      if req.contextError.Some? {
        if signal == DeadlineFirst {
          o := Respond(408, req);
        } else {
          o := ClassifyFailure(req, req.contextError.value);
        }
      } else if signal == DeadlineFirst {
        o := Respond(408, req);
        o := o.(served := Some(input));
      } else if result.Panicked? {
        o := Outcome(Crashed, [], false, None, Some(input), None);
      } else if result.err.Some? {
        o := ClassifyFailure(req, result.err.value);
        o := o.(served := Some(input));
      } else {
        o := DeliverEvent(req, route.serviceId, result.event);
        o := o.(served := Some(input));
      }
    }

    /** ServeHTTP of the multiplexer: the selected handler's outcome. */
    method ServeHttp(req: Request, signal: Signal, result: ServeResult) returns (o: Outcome)
      requires WellFormed(req) && mux.Some?
      modifies this`responseStatus, this`panicCounter
      ensures o == Dispatch(CurrentSettings(), mux.value, req, signal, result)
      ensures responseStatus == CountAll(old(responseStatus), req.path, o.statusLabels)
      ensures panicCounter == if o.panicRecovered then Inc(old(panicCounter), TriggerContractId) else old(panicCounter)
    {
      var handler := Lookup(mux.value, req.path);
      match handler
      case None =>
        o := Outcome(Written(MuxNotFound), [], false, None, None, None);
      case Some(NotFoundHandler) =>
        o := Respond(404, req);
      case Some(HealthHandler) =>
        o := Outcome(Written(Reply(200, map[], [])), [], false, None, None, None);
      case Some(StaticHandler) =>
        o := Outcome(Delegated, [], false, None, None, None);
      case Some(MetricsHandler) =>
        o := Outcome(Delegated, [], false, None, None, None);
      case Some(ServiceHandler(route)) =>
        o := HandleRequest(route, req, signal, result);
    }
  }

  /** The method check, the request maps, the authorizer and the body read. */
  method Admit(route: Route, req: Request) returns (rejection: Option<Rejection>, metadata: Metadata, lowered: map<string, string>)
    requires WellFormed(req)
    ensures rejection == Reject(route, req)
    ensures rejection.None? ==> metadata == RequestMetadata(req) && LoweredFrom(req.header, lowered)
  {
    metadata, lowered := EmptyMetadata, map[];
    var allowed := Finder.IsIn(route.methods, req.httpMethod);
    if !allowed {
      return Some(Status(405)), metadata, lowered;
    }
    metadata, lowered := ReadRequest(req);
    var verdict := Allow;
    if route.authorizer.Some? {
      verdict := route.authorizer.value(route.expression, metadata);
    }
    if verdict == Panic {
      return Some(AuthorizerPanicked), metadata, lowered;
    }
    if verdict == Deny {
      return Some(Status(403)), metadata, lowered;
    }
    if req.body.None? {
      return Some(Status(500)), metadata, lowered;
    }
    rejection := None;
  }

  /** The metadata of the input event, and the request headers under their normalised names. */
  method ReadRequest(req: Request) returns (metadata: Metadata, lowered: map<string, string>)
    requires WellFormed(req)
    ensures metadata == RequestMetadata(req) && LoweredFrom(req.header, lowered)
  {
    var headers;
    headers, lowered := ReadHeaders(req.header, Normalise);
    var query := ReadQuery(req.query);
    metadata := EmptyMetadata.(
      httpMethod := req.httpMethod,
      path := req.escapedPath,
      headers := headers,
      query := query,
      contractIdList := [TriggerContractId]);
  }

  /**
   * The first value of every request header, as given and under its
   * normalised name; the normalisation is a parameter, as the loop only
   * needs it to keep distinct names apart.
   */
  method ReadHeaders(h: Header, norm: string -> string) returns (first: map<string, string>, lowered: map<string, string>)
    requires DistinctUnder(h, norm)
    ensures first == FirstValues(h) && LoweredUnder(h, lowered, norm)
  {
    first, lowered := map[], map[];
    var pending := h.Keys;
    while pending != {}
      invariant pending <= h.Keys
      invariant first == FirstValues(h - pending)
      invariant LoweredUnder(h - pending, lowered, norm)
      decreases |pending|
    {
      var k :| k in pending;
      var v := h[k];
      var first', lowered' := first, lowered;
      if |v| > 0 {
        first' := first[k := v[0]];
        lowered' := lowered[norm(k) := v[0]];
      }
      ReadHeaderStep(h, pending, k, first, lowered, first', lowered', norm);
      first, lowered, pending := first', lowered', pending - {k};
    }
    assert h - pending == h;
  }

  /** One iteration of ReadHeaders keeps both of its invariants. */
  lemma ReadHeaderStep(h: Header, pending: set<string>, k: string, first: map<string, string>, lowered: map<string, string>,
                       first': map<string, string>, lowered': map<string, string>, norm: string -> string)
    requires DistinctUnder(h, norm) && k in pending && pending <= h.Keys
    requires first == FirstValues(h - pending) && LoweredUnder(h - pending, lowered, norm)
    requires |h[k]| > 0 ==> first' == first[k := h[k][0]] && lowered' == lowered[norm(k) := h[k][0]]
    requires |h[k]| == 0 ==> first' == first && lowered' == lowered
    ensures first' == FirstValues(h - (pending - {k})) && LoweredUnder(h - (pending - {k}), lowered', norm)
  {
    var seen := h - pending;
    Grow(h, pending, k);
    FirstValuesStep(seen, k, h[k]);
    DistinctRestrict(h, pending - {k}, norm);
    LoweredUnderStep(seen, k, h[k], lowered, norm);
  }

  /** Removing names keeps the normalised names distinct. */
  lemma DistinctRestrict(h: Header, pending: set<string>, norm: string -> string)
    requires DistinctUnder(h, norm)
    ensures DistinctUnder(h - pending, norm)
  {
  }

  /** Taking one more key out of the pending set adds its entry to what was seen. */
  lemma Grow<K, V>(m: map<K, V>, pending: set<K>, k: K)
    requires k in pending && pending <= m.Keys
    ensures k !in m - pending && m - (pending - {k}) == (m - pending)[k := m[k]]
  {
  }

  /** Adding one header to the lowered map keeps LoweredUnder. */
  lemma LoweredUnderStep(seen: Header, k: string, v: seq<string>, lowered: map<string, string>, norm: string -> string)
    requires k !in seen && DistinctUnder(seen[k := v], norm) && LoweredUnder(seen, lowered, norm)
    ensures LoweredUnder(seen[k := v], if |v| > 0 then lowered[norm(k) := v[0]] else lowered, norm)
  {
    if |v| > 0 {
      LoweredUnderAdd(seen, k, v, lowered, norm);
    } else {
      var next := seen[k := v];
      forall n | n in lowered
        ensures exists j :: j in next && |next[j]| > 0 && norm(j) == n
      {
        var j :| j in seen && |seen[j]| > 0 && norm(j) == n;
        assert j in next;
      }
    }
  }

  lemma LoweredUnderAdd(seen: Header, k: string, v: seq<string>, lowered: map<string, string>, norm: string -> string)
    requires k !in seen && |v| > 0 && DistinctUnder(seen[k := v], norm) && LoweredUnder(seen, lowered, norm)
    ensures LoweredUnder(seen[k := v], lowered[norm(k) := v[0]], norm)
  {
    var next := seen[k := v];
    var l' := lowered[norm(k) := v[0]];
    forall j | j in next && |next[j]| > 0
      ensures norm(j) in l' && l'[norm(j)] == next[j][0]
    {
      if j != k {
        assert norm(j) != norm(k);
      }
    }
    forall n | n in l'
      ensures exists j :: j in next && |next[j]| > 0 && norm(j) == n
    {
      if n == norm(k) {
        assert k in next;
      } else {
        var j :| j in seen && |seen[j]| > 0 && norm(j) == n;
        assert j in next;
      }
    }
  }

  /** The first value of every query parameter. */
  method ReadQuery(q: map<string, seq<string>>) returns (first: map<string, string>)
    ensures first == FirstValues(q)
  {
    first := map[];
    var pending := q.Keys;
    while pending != {}
      invariant pending <= q.Keys
      invariant first == FirstValues(q - pending)
      decreases |pending|
    {
      var k :| k in pending;
      Grow(q, pending, k);
      FirstValuesStep(q - pending, k, q[k]);
      if |q[k]| > 0 {
        first := first[k := q[k][0]];
      }
      pending := pending - {k};
    }
    assert q - pending == q;
  }

  lemma FirstValuesStep(seen: map<string, seq<string>>, k: string, v: seq<string>)
    requires k !in seen
    ensures FirstValues(seen[k := v]) == if |v| > 0 then FirstValues(seen)[k := v[0]] else FirstValues(seen)
  {
  }

  lemma SingletonsStep(seen: map<string, string>, k: string, v: string)
    requires k !in seen
    ensures k !in Singletons(seen)
    ensures Singletons(seen[k := v]) == Singletons(seen)[k := [v]]
  {
  }

  /** Header().Add for every entry of the service's header map, into an empty response header. */
  method CopyHeaders(m: map<string, string>) returns (h: Header)
    ensures h == Singletons(m)
  {
    h := map[];
    var pending := m.Keys;
    while pending != {}
      invariant pending <= m.Keys
      invariant h == Singletons(m - pending)
      decreases |pending|
    {
      var k :| k in pending;
      Grow(m, pending, k);
      SingletonsStep(m - pending, k, m[k]);
      assert k !in h;
      assert [] + [m[k]] == [m[k]];
      h := Add(h, k, m[k]);
      pending := pending - {k};
    }
    assert m - pending == m;
  }

  /** Registering `a + b` is registering `a`, then `b` on the result. */
  lemma {:induction false} RegisterAllAppend(routes: map<string, Handler>, a: seq<(string, Handler)>, b: seq<(string, Handler)>)
    ensures RegisterAll(routes, a + b) ==
      match RegisterAll(routes, a)
      case None => None
      case Some(r) => RegisterAll(r, b)
    decreases |a|
  {
    if a == [] {
      assert a + b == b;
    } else {
      assert (a + b)[1..] == a[1..] + b;
      match Register(routes, a[0].0, a[0].1)
      case None =>
      case Some(next) => RegisterAllAppend(next, a[1..], b);
    }
  }
}
