# abesh core, modelled in Dafny

abesh is a Go framework for composing "capabilities" (triggers, services,
authorizers) from a manifest. This project models the part of it that makes
decisions:

- **HTTP trigger** (`capability/httpserver/httpserver.go`). It reads its
  settings from a configuration map, builds the default JSON error bodies, and
  registers the built-in routes and one route per service. Each service request
  goes through a strictly sequential pipeline:
  - method check (405);
  - request metadata and header/query maps;
  - authorizer (403);
  - body read (500);
  - the race between the request deadline and the service's result (408, 499,
    500 or the service's own status).

  A panic barrier answers 500. The pure functions `Handle`, `Resolve` and
  `Dispatch` say what one request resolves to. The class `HttpServer.HttpServer`
  keeps what the Go type updates in place: the settings, the default bodies,
  the route table and the two counters. Its methods are proved to follow those
  functions and to count exactly the status labels those functions record.
- **ConfigMap** (`model/configmap.go`). "Value or default" getters, integer
  parsing with bit-size range checks, all-or-nothing integer lists (some of
  which wrap out-of-range elements), and the `k=v;k=v` map parser.
- **Structured errors** (`errors/errors_test.go`). An error value with just
  the behaviour the package's tests observe: rendering, unwrapping, prefix
  matching, the retryable flag.
- **Finder** (`utility/finder.go`). Linear membership scans.
- **Echo service** (`example/echo/echo.go`). It maps the input type to a fixed
  reply.
- **Categories** (`constant/category.go`). The capability categories.

Helper modules model the parts of Go's standard library the core depends on:

- `Strings`: `TrimSpace`, ASCII `ToUpper`/`ToLower`, `Split`/`Join`, and UTF-8
  encoding for `[]byte(s)`;
- `Strconv`: base-10 `ParseUint`/`ParseInt`/`Atoi`/`ParseBool`/`FormatUint`;
- `Sorting`: `sort.Strings` as a value;
- `Integers`: Go's integer widths and truncating conversions, on a 64-bit
  platform;
- `Events`: `model.Event`/`model.Metadata`.

Concurrency is replaced by inputs. A `Signal` says which of the two awaited
channels `select` observes first; either may win when both are ready. A
`ServeResult` says how the service call ended.

Behaviour of the code worth noting:

- **Check order.** The handler checks the method, then builds the metadata,
  then asks the authorizer, then reads the body (lines 441-480).
- **Service panics are not caught.** `Service.Serve` runs in its own goroutine
  (line 503). The handler's `recover` cannot catch a panic there, so it ends
  the process. The model records this as the `Crashed` response, not as a 500.
- **Panic counter label.** The panic counter is labelled with the trigger's
  own contract id `abesh:httpserver` (line 431).
- **What the barrier does catch.** Besides a panicking authorizer, it catches
  `WriteHeader` with a status outside 100..999, which makes net/http panic
  after the event's headers were added and after its status was counted.
- **Request context already ended.** The derived context is then done too, so
  the handler may answer 408 or classify the context's own error (499 for a
  cancellation).

## Model

| member | source | states |
|---|---|---|
| Categories.CategoryString | constant/category.go:16-18 | the category's underlying string, unchanged: converting it back gives the same category |
| Categories.CategoriesDistinct | constant/category.go:5-13 | the nine category constants have pairwise distinct, non-empty strings |
| Finder.IsInGeneric | utility/finder.go:126-133 | true exactly when the value occurs in the list (so false on an empty list), proved over the front-to-back scan with early return |
| Finder.IsIn | utility/finder.go:6-13 | the same scan over strings: true exactly when the value occurs |
| Finder.IsInInteger | utility/finder.go:15-103 | each integer variant answers membership exactly, for values of its Go type |
| Finder.MembershipUnderPermutation | utility/finder.go:6-13 | lists with the same elements give the same answers, so sorting the method list changes no membership decision |
| Echo.BodiesSpellTexts | example/echo/echo.go:68-84 | the three reply bodies are the ASCII spellings of `{"message":"echo"}`, `echo` and `default echo` |
| Echo.AsciiBytes | example/echo/echo.go:71 | an ASCII spelling is exactly the string's `[]byte` conversion |
| Echo.Echo.constructor | example/echo/echo.go:56-58 | a new echo service has an empty configuration |
| Echo.Echo.Category | example/echo/echo.go:34-36 | the echo service reports the category "service" |
| Echo.Echo.SetConfigMap | example/echo/echo.go:50-54 | the configuration is stored as given and no error is returned |
| Echo.Echo.GetConfigMap | example/echo/echo.go:42-44 | returns the configuration last stored |
| Echo.Echo.Serve | example/echo/echo.go:60-92 | always status 200 "OK", contract list ["abesh:ex_echo"], no error, and a header map with the single key Content-Type equal to the output type; JSON input gives the JSON body, text input gives "echo", any other type "default echo" as application/text |
| ConfigMaps.String | model/configmap.go:11-16 | the stored text whenever the key is present, even if empty; the default only when the key is absent |
| ConfigMaps.StringList | model/configmap.go:18-23 | the default when absent; otherwise pieces that join back, with the separator, into the stored text; for a non-empty separator at least one piece, none containing the separator, and each cut at the leftmost occurrence (no separator starts inside a piece and runs into the next cut); for an empty one the text's characters one by one |
| ConfigMaps.OverlappingSeparator | model/configmap.go:18-23 | a self-overlapping separator is cut where it first occurs: "aaa" at "aa" gives "" and "a", and the cut "a", "" is not leftmost |
| ConfigMaps.Bytes | model/configmap.go:39-44 | the default when absent; for ASCII text, one byte per character with the character's code |
| ConfigMaps.Bool | model/configmap.go:204-213 | true for the six true spellings of ParseBool, false for the six false spellings, the default for an absent key or any other text |
| ConfigMaps.ParseScalar | model/configmap.go:68-180 | whatever a scalar integer getter parses is a value of its Go type, and the Uint getter's value is also below 2^32 |
| ConfigMaps.Integer | model/configmap.go:68-180 | Int/Uint/IntN/UintN: the parsed value, of the getter's type, when the text parses in range; the default when the key is absent or the text does not parse |
| ConfigMaps.ParseElement | model/configmap.go:215-373 | every element a list getter accepts is a value of its Go type: range-checked for Int64List/Uint64List, wrapped by conversion for the others |
| ConfigMaps.CollectSpec | model/configmap.go:219-226 | all or nothing: a result exactly when every element parsed, then the same length and the elements in order |
| ConfigMaps.ParseListSpec | model/configmap.go:215-373 | a list getter's pieces give a list exactly when each piece parses, of the same length, in order, every element of the getter's type |
| ConfigMaps.IntegerList | model/configmap.go:215-373 | IntList ... Uint64List: the default when absent; otherwise the parsed pieces, or the whole default when any piece fails |
| ConfigMaps.CollectAll | model/configmap.go:219-226 | the append loop with early return computes the all-or-nothing result |
| ConfigMaps.CollectPrefixFailure | model/configmap.go:220-223 | one unparsable element makes the whole list fail, whatever follows it |
| ConfigMaps.StringMap | model/configmap.go:25-37 | the default when absent; otherwise the map built by assigning, left to right, every ";"-piece that splits on "=" into exactly two trimmed parts |
| ConfigMaps.AssignLastWins | model/configmap.go:28-33 | a key is in the map exactly when some piece is a pair with that key, and it maps to the value of the last such pair |
| ConfigMaps.NoPairsGiveEmptyMap | model/configmap.go:26-34 | a present key whose text holds no valid pair gives the empty map, not the default |
| Errors.New | errors/errors_test.go:22-26 | a structured error with the given prefix and message, not retryable, with nothing to unwrap |
| Errors.NewWithAllInfo | errors/errors_test.go:89-93 | as New, retryable exactly when asked to be |
| Errors.NewInternalErrorWithCause | errors/errors_test.go:28-31 | unwraps to its cause and has prefix "internal_service.<code>" |
| Errors.Message | errors/errors_test.go:10-19 | a structured error without a cause renders exactly as its prefix, ": " and its message; with a cause, that text followed by ": " and the cause's rendering; a foreign error renders as its own text |
| Errors.Unwrap | errors/errors_test.go:22-31 | a cause exactly when one was wrapped, always a smaller error |
| Errors.PrefixMatches | errors/errors_test.go:57-79 | true exactly for a structured error whose prefix equals the argument; never for a foreign error |
| Errors.IsPrefixMatches | errors/errors_test.go:95-99 | a structured error whose prefix is the text always matches; a match means the rendering starts with the text; a foreign error never matches |
| Errors.IsRetryable | errors/errors_test.go:89-93 | retryable exactly when the error is structured and was created retryable; a foreign error never is |
| Errors.VerboseString | errors/errors_test.go:50-55 | the verbose text begins with the prefix |
| Errors.RootCause | errors/errors_test.go:28-31 | following Unwrap ends at an error with nothing to unwrap, which is the error itself or one nested inside it |
| Errors.MessageEndsWithRootCause | errors/errors_test.go:16-19 | the rendering of a wrapped error ends with the rendering of its root cause |
| Errors.ObservedBehaviour | errors/errors_test.go:8-99 | every value the tests assert: "T: failed", "internal_service.1: failed: cause", the unwrapped cause, prefix matches and mismatches, retryable, a verbose text starting with 'T' |
| HttpServer.DefaultMessageRoundTrip | capability/httpserver/httpserver.go:105-114 | every default body names its own status code, which can be read back from it |
| HttpServer.DefaultMessageCanonical | capability/httpserver/httpserver.go:105-114 | any text that reads back as a code is exactly that code's default body |
| HttpServer.GetMessage | capability/httpserver/httpserver.go:148-156 | the value at key_lang when non-empty; else the value at key when present, even empty; else the default |
| HttpServer.Language | capability/httpserver/httpserver.go:158-165 | the Accept-Language value, or "en" when it is empty or absent; never empty |
| HttpServer.FirstValues | capability/httpserver/httpserver.go:457-468 | exactly the names with a value, each with its first value |
| HttpServer.LoweredTypeUrl | capability/httpserver/httpserver.go:457-484 | the input type looked up in the lowered header map is the first value of the header whose trimmed, lower-cased name is content-type, or "application/text" |
| HttpServer.GetValue | capability/httpserver/httpserver.go:484 | the value under the key, or the default when there is none |
| HttpServer.Reject | capability/httpserver/httpserver.go:441-480 | a request is turned away exactly when it fails the method, authorizer or body check |
| HttpServer.Lookup | capability/httpserver/httpserver.go:202-216 | the exact pattern's handler, else the "/" catch-all, and no handler exactly when neither exists |
| HttpServer.CountAllSpec | capability/httpserver/httpserver.go:331-363 | counting labels adds, under each (path, label), the number of times the label occurs, and leaves other counts alone |
| HttpServer.RegisterAllSucceeds | capability/httpserver/httpserver.go:185-191 | registering patterns succeeds exactly when they are non-empty, new and pairwise distinct (ServeMux panics otherwise) |
| HttpServer.RegisterAllContents | capability/httpserver/httpserver.go:185-191 | after success the table holds the old patterns unchanged plus exactly the new ones, each with its handler |
| HttpServer.MethodList | capability/httpserver/httpserver.go:394-398 | the route's method list is sorted and holds exactly the pieces of the trimmed, upper-cased text cut at commas |
| HttpServer.EmptyConfigurationDefaults | capability/httpserver/httpserver.go:116-146 | with no configuration: host 0.0.0.0, port 8080, application/json, static path /static/, 404 route on, metrics off at /metrics |
| HttpServer.HttpServer.constructor | capability/httpserver/httpserver.go:181-183 | a new trigger has zero-valued settings, no route table and empty counters |
| HttpServer.HttpServer.Category | capability/httpserver/httpserver.go:93-95 | the trigger reports the category "trigger" |
| HttpServer.HttpServer.GetConfigMap | capability/httpserver/httpserver.go:101-103 | returns the configuration last set |
| HttpServer.HttpServer.SetConfigMap | capability/httpserver/httpserver.go:116-146 | stores the configuration, every setting with its default, and the default body of exactly the eight codes; never fails |
| HttpServer.HttpServer.BuildDefaultMessages | capability/httpserver/httpserver.go:133-140 | the default body of exactly 401, 403, 404, 405, 408, 409, 499 and 500 |
| HttpServer.HttpServer.SetEventTransmitter | capability/httpserver/httpserver.go:167-170 | whether events are transmitted is set as given; never fails |
| HttpServer.HttpServer.HandlePattern | capability/httpserver/httpserver.go:185-191 | a new non-empty pattern is added; an empty or repeated one, or any pattern before Setup built the route table, leaves the table unchanged and reports failure (the panic) |
| HttpServer.HttpServer.Setup | capability/httpserver/httpserver.go:193-253 | a fresh table holding the 404, static, health and metrics routes that are enabled, or failure exactly when registering them panics |
| HttpServer.HttpServer.RegisterIf | capability/httpserver/httpserver.go:202-250 | each conditional registration keeps the table equal to registering all routes so far, and a failure stays a failure |
| HttpServer.HttpServer.AddService | capability/httpserver/httpserver.go:375-558 | a missing or empty method is refused before the path; then a missing or empty path; otherwise the handler is registered under the trimmed path with the method list; on any error the table is unchanged |
| HttpServer.HttpServer.WriteMessage | capability/httpserver/httpserver.go:313-329 | counts (path, code) once and writes the code with the default content type and the localised error body |
| HttpServer.HttpServer.Respond | capability/httpserver/httpserver.go:331-364 | an s<code>m helper: the error outcome, with the counter advanced by exactly its one label |
| HttpServer.HttpServer.Barrier | capability/httpserver/httpserver.go:416-437 | a recovered panic counts once under the trigger's contract id and answers 500, counted once |
| HttpServer.HttpServer.ClassifyFailure | capability/httpserver/httpserver.go:515-528 | DeadlineExceeded answers 408, Canceled 499, anything else 500, each counted |
| HttpServer.HttpServer.DeliverEvent | capability/httpserver/httpserver.go:530-551 | a successful event is counted under its status, transmitted, and written (without a body for 204 and 304), or caught by the barrier when its status is invalid |
| HttpServer.HttpServer.HandleRequest | capability/httpserver/httpserver.go:406-553 | the handler's outcome is Handle's, and the counters advance by exactly the labels and panic it records |
| HttpServer.HttpServer.Refuse | capability/httpserver/httpserver.go:441-480 | a rejected request is answered with its status, or the barrier's 500 for a panicking authorizer, and counted |
| HttpServer.HttpServer.Await | capability/httpserver/httpserver.go:491-552 | the select's outcome is Resolve's, with the counters advanced accordingly |
| HttpServer.HttpServer.ServeHttp | capability/httpserver/httpserver.go:202-241 | the multiplexer's outcome is Dispatch's over the route table, with the counters advanced accordingly |
| HttpServer.Admit | capability/httpserver/httpserver.go:441-480 | the checks reject exactly as Reject does, and a passing request gets its metadata and lowered header map |
| HttpServer.ReadRequest | capability/httpserver/httpserver.go:446-468 | the input metadata (method, escaped path, first header and query values, the trigger's contract id) and the lowered header map |
| HttpServer.ReadHeaders | capability/httpserver/httpserver.go:457-462 | the loop over headers yields the first value of every header, both as given and under its normalised name, and nothing else |
| HttpServer.ReadQuery | capability/httpserver/httpserver.go:464-468 | the loop over query parameters yields the first value of each one that has a value |
| HttpServer.CopyHeaders | capability/httpserver/httpserver.go:540-542 | every entry of the event's header map is added as a single value |
| RequestHandling.ServedExactly | capability/httpserver/httpserver.go:482-508 | the service is called exactly when the checks pass and the request context has not ended, with the input event |
| RequestHandling.InputTransmittedExactly | capability/httpserver/httpserver.go:482-489 | the input event is transmitted exactly when the checks pass and a transmitter is set |
| RequestHandling.OutputTransmittedExactly | capability/httpserver/httpserver.go:510-537 | the output event is transmitted exactly when the service returned without error before the deadline and a transmitter is set |
| RequestHandling.CrashOnlyFromService | capability/httpserver/httpserver.go:503-506 | the process ends exactly when the called service panics, with nothing counted |
| RequestHandling.StatusCounted | capability/httpserver/httpserver.go:331-363 | every answer is counted under the status it writes, at most two labels, and two only when the barrier stepped in |
| RequestHandling.BarrierExactly | capability/httpserver/httpserver.go:416-437 | the barrier steps in exactly when the authorizer panics or the event's status is outside 100..999, and then answers 500 |
| RequestHandling.WrittenStatuses | capability/httpserver/httpserver.go:406-553 | every status written is 403, 405, 408, 499, 500 or the service's own |
| RequestHandling.CheckOrder | capability/httpserver/httpserver.go:441-480 | a method outside the list is 405 whatever the authorizer says; then a denial is 403; then a failed body read is 500 |
| RequestHandling.ServiceErrorStatuses | capability/httpserver/httpserver.go:510-528 | a fired deadline 408, DeadlineExceeded 408, Canceled 499, any other error 500, each counted once |
| RequestHandling.EndedContext | capability/httpserver/httpserver.go:496-523 | a request whose context has ended never reaches the service and is answered 408, or 499 for an observed cancellation |
| RequestHandling.SuccessfulReply | capability/httpserver/httpserver.go:530-551 | a valid event is written with its status, its headers and its payload (an empty body for 204 and 304, which net/http refuses a body), counted once under its status |
| RequestHandling.InvalidStatusCaught | capability/httpserver/httpserver.go:540-544 | an event status outside 100..999 gives the barrier's 500 over the event's headers, with both statuses counted |
| RequestHandling.SuccessCountedOnce | capability/httpserver/httpserver.go:531-534 | a 200 reply adds one under (path, "200") and changes no other count |
| RequestHandling.DispatchRoutes | capability/httpserver/httpserver.go:202-241 | an unmatched path goes to the 404 route, or to net/http's plain 404 without one; the health route answers an empty 200; a service path runs its handler |
| Registration.MethodListMembership | capability/httpserver/httpserver.go:394-398 | a method is in the list exactly when it is one of the comma pieces of the trimmed, upper-cased text |
| Registration.MethodListUppercase | capability/httpserver/httpserver.go:394-398 | no entry of a method list holds a lower-case ASCII letter |
| Registration.LowercaseMethodRefused | capability/httpserver/httpserver.go:441-444 | request methods are compared as sent: one with a lower-case letter is always refused with 405 |
| Registration.PiecesKeepTheirSpaces | capability/httpserver/httpserver.go:394-395 | only the whole text is trimmed: for methods "A, B" a request for B is refused with 405 |
| Registration.TwoMethodList | capability/httpserver/httpserver.go:394-398 | the route for "A, B" lists exactly "A" and " B" |
| Registration.DefaultSetup | capability/httpserver/httpserver.go:193-253 | with no configuration Setup registers only the catch-all 404 route |
| Registration.SetupClashes | capability/httpserver/httpserver.go:202-250 | Setup fails when the health path is "/" with the 404 route on, or equals the metrics path with metrics on |
| Registration.SetupSucceeds | capability/httpserver/httpserver.go:202-250 | when the enabled patterns are non-empty and distinct, Setup succeeds and maps each to its handler |
| Strings.TrimSpaceSpec | capability/httpserver/httpserver.go:394 | TrimSpace removes white space, and only white space, from both ends and keeps the middle |
| Strings.TrimSpaceIdempotent | capability/httpserver/httpserver.go:404 | trimming twice trims nothing more |
| Strings.CaseMappings | capability/httpserver/httpserver.go:394 | upper-casing is idempotent, leaves no lower-case ASCII letter, and lower-casing forgets it |
| Strings.JoinSplit | model/configmap.go:20 | the pieces of a split join back into the original text |
| Strings.SplitPiecesFree | model/configmap.go:28 | no piece of a split contains the separator |
| Strings.SplitLeftmost | model/configmap.go:28 | every cut of a split is at the leftmost remaining occurrence of the separator |
| Strings.Utf8Ascii | model/configmap.go:41 | an ASCII string converts to one byte per character |
| Strings.Utf8Append | model/configmap.go:41 | the byte conversion distributes over concatenation |
| Sorting.Sort | capability/httpserver/httpserver.go:397 | sorted, and the same strings |
| Sorting.SortedUnique | capability/httpserver/httpserver.go:397 | two sorted arrangements of the same strings are equal, so the sorting algorithm does not matter |
| Strconv.ParseUint | model/configmap.go:82 | accepts exactly the non-empty digit strings whose value fits the width |
| Strconv.ParseInt | model/configmap.go:93 | accepts exactly an optional sign followed by digits whose signed value fits the width, and returns that signed value |
| Strconv.ParseBool | model/configmap.go:206 | the six true and six false spellings, nothing else |
| Strconv.ParseFormatUint | model/configmap.go:173 | parsing the decimal rendering of an in-range value gives it back |
| Strconv.ParseFormatInt | model/configmap.go:93 | the same round trip for signed values |
| Strconv.FormatParseUint | capability/httpserver/httpserver.go:108 | a canonical digit string is the rendering of its value |
| Integers.WrapSigned | model/configmap.go:240 | the conversion to a narrower signed type is in range, differs from the input by a multiple of 2^bits (so it is the unique such value) and keeps in-range values |
| Integers.WrapUnsigned | model/configmap.go:240 | the conversion to a narrower unsigned type is in range, differs from the input by a multiple of 2^bits and keeps in-range values |
| Integers.Convert | model/configmap.go:240 | conversion to a list getter's type gives a value of that type congruent to the input modulo 2^bits, and keeps values that already are |
| ConfigMaps.ListElementsWrap | model/configmap.go:231-245 | a narrow list element is the `int` it reads as, converted, so an out-of-range one wraps (1000 becomes -24 in an Int8List) where the scalar getter refuses it |

## Left out

- Floating-point, `Duration` and `Time` getters and list getters, and `IsInFloat32`/`IsInFloat64`: floating point and time parsing are outside the model.
- `StackTrace`, `StackString` and `NewFromError`: they deal in runtime program counters. The layout of `VerboseString` beyond its leading message is the caller-supplied `trace` parameter.
- The errors package's implementation file is not part of this model. The error value has only the behaviour the tests observe.
- `Start`, `Stop`, TLS, the listener, `AddEmbeddedStaticFS`, the static file server and the metrics exposition handler: transport I/O. Their routes answer `Delegated`.
- Logging, timing and `debugMessage`: they have no effect on the decisions.
- `Version` of both capabilities: `constant.Version` is not part of this model.
- The capability registry and `init`: their source is not part of this model.
- `example/expanic` and the echo service's random gauge: a metrics side effect driven by randomness.
- The request timeout (`default_request_timeout`). The race it drives is the `Signal` input.
- The goroutines that transmit events and increment counters. They are modelled as taking effect immediately and in order. A transmitter's own error is only logged and is not modelled.
- A panic inside `Serve` that arrives after the deadline reply: the model records a crash only when the result is observed first.
- `utility.GetValue` is not part of this model. It is modelled as lookup-or-default, which is how the handler uses it.
- `HttpServer.CopyHeaders`: header names are stored as the event gives them. net/http's `Header.Add` canonicalises each name (`content-type` becomes `Content-Type`), so two event keys differing only in case end up as two values under one name there and as two names here.
- `HttpServer.Deliver`: a HEAD request's reply carries the payload here; net/http discards it. The failed `Write` on a 204 or 304 is only logged, and logging is not modelled.
- `HttpServer.ServeResult`: a service returning neither an event nor an error, or an event without metadata, is not representable. In Go the counting goroutine dereferences the missing metadata (lines 531-534) and the process crashes; the header loop (line 540) may first panic into the barrier and write a 500.
- `ConfigMaps.Bytes`: the contract describes ASCII text only, one byte per character. Other characters are encoded by `Strings.Utf8`, and no decoding round trip is proved for them.
- `HttpServer.Reply`: its header is the one the handler builds. net/http adds `Date` and `Content-Length` on the wire, and sniffs a `Content-Type` for a reply that has none; those are not modelled.
- Go strings may hold invalid UTF-8; Dafny strings hold characters. Configuration values, paths and header texts that are not valid UTF-8 are not representable.
- ServeMux pattern semantics (subtree patterns such as `/static/`, longest match, host patterns): routes are literal paths plus the "/" catch-all.
- `Strings.ToUpper`, `Strings.ToLower`: only ASCII letters change case. Go maps all of Unicode.
- `Strings.IsSpace`: the Unicode White_Space set is written out, not derived from Unicode tables.
- 1xx statuses written by a service are treated like any valid status, though net/http handles them as informational responses.
- `HttpServer.HttpServer.SetConfigMap`: the settings are kept as two records (`listener`, `routes`) and a map of default bodies instead of one field each. The request timeout is not kept.
- `HttpServer.ReadHeaders`: proved for any normalisation that keeps header names apart. The handler uses trimming plus lower-casing, which the transport's canonical header names keep apart (`WellFormed`).
- `HttpServer.HttpServer.AddService`: the handler receives the service's contract id, not the service itself. Calling a service is the `ServeResult` input.
- Header maps iterate in an unspecified order in Go. The loops pick keys in any order, and the results do not depend on the order.
