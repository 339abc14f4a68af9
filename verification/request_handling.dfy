/**
 * Properties of one request as the HTTP trigger resolves it: who gets to see
 * the request, which status is written and counted, when the barrier steps
 * in, and how the route table picks the handler.
 */
module RequestHandling {
  import opened Wrappers
  import opened Events
  import opened HttpServer
  import Strconv
  import Strings
  import Sorting

  /*
   * Who sees the request
   */

  /** The service is called exactly when the checks pass and the request's own context has not ended, with the input event. */
  lemma ServedExactly(cfg: Settings, route: Route, req: Request, signal: Signal, result: ServeResult)
    requires WellFormed(req)
    ensures var o := Handle(cfg, route, req, signal, result);
      && (o.served.Some? <==> PassesChecks(route, req) && req.contextError.None?)
      && (o.served.Some? ==> o.served.value == InputEvent(req, req.body.value))
  {
    if PassesChecks(route, req) {
      var input := InputEvent(req, req.body.value);
      assert Reject(route, req).None?;
    } else {
      assert Reject(route, req).Some?;
    }
  }

  /** The input event goes to the transmitter exactly when the checks pass and a transmitter is set, whatever happens next. */
  lemma InputTransmittedExactly(cfg: Settings, route: Route, req: Request, signal: Signal, result: ServeResult)
    requires WellFormed(req)
    ensures var o := Handle(cfg, route, req, signal, result);
      && (o.inputTransmitted.Some? <==> PassesChecks(route, req) && cfg.transmitterSet)
      && (o.inputTransmitted.Some? ==> o.inputTransmitted.value == (route.serviceId, InputEvent(req, req.body.value)))
  {
    if !PassesChecks(route, req) {
      assert Reject(route, req).Some?;
    }
  }

  /**
   * The output event goes to the transmitter exactly when the service returned
   * an event without an error before the deadline and a transmitter is set,
   * even when the barrier then rejects the event's status.
   */
  lemma OutputTransmittedExactly(cfg: Settings, route: Route, req: Request, signal: Signal, result: ServeResult)
    requires WellFormed(req)
    ensures var o := Handle(cfg, route, req, signal, result);
      && (o.outputTransmitted.Some? <==>
            && PassesChecks(route, req) && req.contextError.None? && signal == ResultFirst
            && result.Returned? && result.err.None? && cfg.transmitterSet)
      && (o.outputTransmitted.Some? ==> o.outputTransmitted.value == (route.serviceId, result.event))
  {
    if !PassesChecks(route, req) {
      assert Reject(route, req).Some?;
    }
  }

  /** The process goes down exactly when the service itself panics, and only after it was called. */
  lemma CrashOnlyFromService(cfg: Settings, route: Route, req: Request, signal: Signal, result: ServeResult)
    requires WellFormed(req)
    ensures var o := Handle(cfg, route, req, signal, result);
      && (o.response.Crashed? <==>
            PassesChecks(route, req) && req.contextError.None? && signal == ResultFirst && result.Panicked?)
      && (o.response.Crashed? ==> o.served.Some? && o.statusLabels == [] && !o.panicRecovered)
  {
    if !PassesChecks(route, req) {
      assert Reject(route, req).Some?;
    }
  }

  /*
   * What is written and counted
   */

  /**
   * The counter agrees with the response: the answer is given by the
   * handler itself (never by a library handler), and unless the process
   * crashes the last status counted is the status written; only the barrier
   * counts a second one.
   */
  predicate CountedAsWritten(o: Outcome) {
    && !o.response.Delegated?
    && (o.response.Written? ==>
          && 1 <= |o.statusLabels| <= 2
          && o.statusLabels[|o.statusLabels| - 1] == Strconv.FormatUint(o.response.reply.status))
    && (|o.statusLabels| == 2 ==> o.panicRecovered)
  }

  /** Every answer of a service route is counted under the status it writes. */
  lemma StatusCounted(cfg: Settings, route: Route, req: Request, signal: Signal, result: ServeResult)
    requires WellFormed(req)
    ensures CountedAsWritten(Handle(cfg, route, req, signal, result))
  {
    match Reject(route, req)
    case Some(r) =>
      RejectedCounted(cfg, req, r);
    case None =>
      var input := InputEvent(req, req.body.value);
      var o := Resolve(cfg, route, req, input, signal, result);
      var sent := if cfg.transmitterSet then Some((route.serviceId, input)) else None;
      assert Handle(cfg, route, req, signal, result) == o.(inputTransmitted := sent);
      ResolveCounted(cfg, route, req, input, signal, result);
      TransmissionUncounted(o, sent);
  }

  /** Handing the input event to the transmitter changes nothing in what is counted. */
  lemma TransmissionUncounted(o: Outcome, sent: Option<(string, Event)>)
    requires CountedAsWritten(o)
    ensures CountedAsWritten(o.(inputTransmitted := sent))
  {
  }

  lemma RejectedCounted(cfg: Settings, req: Request, r: Rejection)
    ensures CountedAsWritten(Rejected(cfg, req, r))
  {
    if r.AuthorizerPanicked? {
      FiveHundredLabel();
    }
  }

  lemma ResolveCounted(cfg: Settings, route: Route, req: Request, input: Event, signal: Signal, result: ServeResult)
    ensures CountedAsWritten(Resolve(cfg, route, req, input, signal, result))
  {
    if req.contextError.Some? {
      if signal == DeadlineFirst {
        FailedCounted(cfg, 408, req);
      } else {
        ClassifyCounted(cfg, req, req.contextError.value);
      }
    } else if signal == DeadlineFirst {
      FailedCounted(cfg, 408, req);
      ServedUncounted(Failed(cfg, 408, req), Some(input));
    } else if result.Returned? {
      if result.err.Some? {
        var o := Classify(cfg, req, result.err.value);
        ClassifyCounted(cfg, req, result.err.value);
        ServedUncounted(o, Some(input));
      } else {
        var o := Deliver(cfg, req, route.serviceId, result.event);
        DeliverCounted(cfg, req, route.serviceId, result.event);
        ServedUncounted(o, Some(input));
      }
    }
  }

  lemma FailedCounted(cfg: Settings, code: nat, req: Request)
    ensures CountedAsWritten(Failed(cfg, code, req))
  {
  }

  lemma ClassifyCounted(cfg: Settings, req: Request, e: Failure)
    ensures CountedAsWritten(Classify(cfg, req, e))
  {
    match e
    case DeadlineExceeded => FailedCounted(cfg, 408, req);
    case Canceled => FailedCounted(cfg, 499, req);
    case Other(_) => FailedCounted(cfg, 500, req);
  }

  lemma DeliverCounted(cfg: Settings, req: Request, serviceId: string, ev: Event)
    ensures CountedAsWritten(Deliver(cfg, req, serviceId, ev))
  {
    if !ValidStatus(ev.metadata.statusCode) {
      FiveHundredLabel();
    }
  }

  /** Handing the input event to the service changes nothing in what is counted. */
  lemma ServedUncounted(o: Outcome, served: Option<Event>)
    requires CountedAsWritten(o)
    ensures CountedAsWritten(o.(served := served))
  {
  }

  /** The label the barrier counts is the text of its status. */
  lemma FiveHundredLabel()
    ensures Strconv.FormatUint(500) == "500"
  {
  }

  /**
   * The barrier steps in exactly when the authorizer panics or the service's
   * event carries a status net/http refuses; it then answers 500.
   */
  lemma BarrierExactly(cfg: Settings, route: Route, req: Request, signal: Signal, result: ServeResult)
    requires WellFormed(req)
    ensures var o := Handle(cfg, route, req, signal, result);
      && (o.panicRecovered <==>
            || (req.httpMethod in route.methods && Authorize(route, req) == Panic)
            || (&& PassesChecks(route, req) && req.contextError.None? && signal == ResultFirst
                && result.Returned? && result.err.None? && !ValidStatus(result.event.metadata.statusCode)))
      && (o.panicRecovered ==> o.response.Written? && o.response.reply.status == 500)
  {
    if PassesChecks(route, req) {
      assert Reject(route, req).None?;
    }
  }

  /**
   * Every status written is one of the handler's own error statuses or the
   * status of the service's event.
   */
  lemma WrittenStatuses(cfg: Settings, route: Route, req: Request, signal: Signal, result: ServeResult)
    requires WellFormed(req)
    ensures var o := Handle(cfg, route, req, signal, result);
      o.response.Written? ==>
        || o.response.reply.status in {403, 405, 408, 499, 500}
        || (result.Returned? && o.response.reply.status == result.event.metadata.statusCode)
  {
  }

  /** The checks run in order: a method outside the list is 405 before the authorizer is asked, a denial 403, a failed body read 500. */
  lemma CheckOrder(cfg: Settings, route: Route, req: Request, signal: Signal, result: ServeResult)
    requires WellFormed(req)
    ensures var o := Handle(cfg, route, req, signal, result);
      && (req.httpMethod !in route.methods ==> o == Failed(cfg, 405, req))
      && (req.httpMethod in route.methods && Authorize(route, req) == Deny ==> o == Failed(cfg, 403, req))
      && (req.httpMethod in route.methods && Authorize(route, req) == Allow && req.body.None? ==>
            o == Failed(cfg, 500, req))
  {
  }

  /**
   * Once the service is called, the deadline answers 408, and an error from
   * the service answers 408 for a deadline, 499 for a cancellation and 500
   * for anything else, each counted once.
   */
  lemma ServiceErrorStatuses(cfg: Settings, route: Route, req: Request, signal: Signal, result: ServeResult)
    requires WellFormed(req) && PassesChecks(route, req) && req.contextError.None?
    ensures var o := Handle(cfg, route, req, signal, result);
      && (signal == DeadlineFirst ==> o.response == Written(StatusReply(cfg, 408, req, map[])))
      && (signal == ResultFirst && result.Returned? && result.err == Some(DeadlineExceeded) ==>
            o.response == Written(StatusReply(cfg, 408, req, map[])))
      && (signal == ResultFirst && result.Returned? && result.err == Some(Canceled) ==>
            o.response == Written(StatusReply(cfg, 499, req, map[])))
      && (signal == ResultFirst && result.Returned? && result.err.Some? && result.err.value.Other? ==>
            o.response == Written(StatusReply(cfg, 500, req, map[])))
      && (signal == DeadlineFirst || (result.Returned? && result.err.Some?) ==> |o.statusLabels| == 1)
  {
    assert Reject(route, req).None?;
  }

  /**
   * A request whose own context has already ended never reaches the service:
   * it is answered 408, or, when the context's own error is observed, 408 for
   * a deadline and 499 for a cancellation.
   */
  lemma EndedContext(cfg: Settings, route: Route, req: Request, signal: Signal, result: ServeResult)
    requires WellFormed(req) && PassesChecks(route, req) && req.contextError.Some?
    ensures var o := Handle(cfg, route, req, signal, result);
      && o.served.None?
      && (signal == DeadlineFirst || req.contextError == Some(DeadlineExceeded) ==>
            o.response == Written(StatusReply(cfg, 408, req, map[])))
      && (signal == ResultFirst && req.contextError == Some(Canceled) ==>
            o.response == Written(StatusReply(cfg, 499, req, map[])))
  {
    assert Reject(route, req).None?;
  }

  /**
   * A service event with a valid status is written as it is: its status, its
   * headers one value each, its payload (none for 204 and 304, where net/http
   * refuses a body), counted once under its status.
   */
  lemma SuccessfulReply(cfg: Settings, route: Route, req: Request, ev: Event)
    requires WellFormed(req) && PassesChecks(route, req) && req.contextError.None?
    requires ValidStatus(ev.metadata.statusCode)
    ensures var o := Handle(cfg, route, req, ResultFirst, Returned(ev, None));
      && o.response.Written? && o.response.reply.status == ev.metadata.statusCode
      && o.response.reply.header == Singletons(ev.metadata.headers)
      && o.response.reply.body == (if ev.metadata.statusCode in {204, 304} then [] else ev.value)
      && o.statusLabels == [Strconv.FormatUint(ev.metadata.statusCode)]
      && !o.panicRecovered
      && o.served == Some(InputEvent(req, req.body.value))
  {
    assert Reject(route, req).None?;
  }

  /**
   * A service event with a status outside 100..999 makes WriteHeader panic
   * after its headers were added: the barrier answers 500 over those headers,
   * and both the event's status and 500 are counted.
   */
  lemma InvalidStatusCaught(cfg: Settings, route: Route, req: Request, ev: Event)
    requires WellFormed(req) && PassesChecks(route, req) && req.contextError.None?
    requires !ValidStatus(ev.metadata.statusCode)
    ensures var o := Handle(cfg, route, req, ResultFirst, Returned(ev, None));
      && o.response == Written(StatusReply(cfg, 500, req, Singletons(ev.metadata.headers)))
      && o.statusLabels == [Strconv.FormatUint(ev.metadata.statusCode), "500"]
      && o.panicRecovered
  {
    assert Reject(route, req).None?;
  }

  /*
   * Counting
   */

  /**
   * Counting the labels of a successful 200 reply adds one under
   * (path, "200") and leaves every other count as it was.
   */
  lemma SuccessCountedOnce(cfg: Settings, route: Route, req: Request, ev: Event,
                           m: Counter<(string, string)>, k: (string, string))
    requires WellFormed(req) && PassesChecks(route, req) && req.contextError.None?
    requires ev.metadata.statusCode == 200
    ensures var o := Handle(cfg, route, req, ResultFirst, Returned(ev, None));
      Count(CountAll(m, req.path, o.statusLabels), k) == Count(m, k) + (if k == (req.path, "200") then 1 else 0)
  {
    SuccessfulReply(cfg, route, req, ev);
    var o := Handle(cfg, route, req, ResultFirst, Returned(ev, None));
    assert Strconv.FormatUint(200) == "200";
    assert o.statusLabels == ["200"];
    CountAllSpec(m, req.path, o.statusLabels, k);
  }

  /*
   * The route table
   */

  /**
   * The route table picks the handler: a path without its own pattern goes
   * to the catch-all 404 when there is one and to net/http's plain 404
   * otherwise, counted in neither case by the mux itself; the health route
   * answers an empty 200.
   */
  lemma DispatchRoutes(cfg: Settings, routes: map<string, Handler>, req: Request, signal: Signal, result: ServeResult)
    requires WellFormed(req)
    ensures var o := Dispatch(cfg, routes, req, signal, result);
      && (req.path !in routes && "/" !in routes ==> o.response == Written(MuxNotFound) && o.statusLabels == [])
      && (req.path !in routes && "/" in routes && routes["/"] == NotFoundHandler ==>
            o == Failed(cfg, 404, req))
      && (req.path in routes && routes[req.path] == HealthHandler ==>
            o.response == Written(Reply(200, map[], [])) && o.statusLabels == [])
      && (req.path in routes && routes[req.path].ServiceHandler? ==>
            o == Handle(cfg, routes[req.path].route, req, signal, result))
  {
  }
}
