/**
 * Properties of what the HTTP trigger registers: the method list of a
 * service route, and the built-in routes Setup puts in the route table.
 */
module Registration {
  import opened Wrappers
  import opened HttpServer
  import Strings
  import Sorting
  import Finder

  /*
   * Method lists
   */

  /** A method is in the route's list exactly when it is one of the comma-separated pieces of the upper-cased, trimmed text. */
  lemma MethodListMembership(methods: string, m: string)
    ensures m in MethodList(methods) <==> m in Strings.Split(Strings.ToUpper(Strings.TrimSpace(methods)), ",")
  {
    Finder.MembershipUnderPermutation(MethodList(methods), Strings.Split(Strings.ToUpper(Strings.TrimSpace(methods)), ","));
  }

  predicate HasLowercase(s: string) {
    exists i :: 0 <= i < |s| && 'a' <= s[i] <= 'z'
  }

  /** No entry of a method list holds a lower-case ASCII letter. */
  lemma MethodListUppercase(methods: string, m: string)
    requires m in MethodList(methods)
    ensures !HasLowercase(m)
  {
    var u := Strings.ToUpper(Strings.TrimSpace(methods));
    MethodListMembership(methods, m);
    UpperHasNoLowercase(Strings.TrimSpace(methods));
    var k :| 0 <= k < |Strings.Split(u, ",")| && Strings.Split(u, ",")[k] == m;
    PiecesHaveNoLowercase(u, k);
  }

  lemma UpperHasNoLowercase(s: string)
    ensures !HasLowercase(Strings.ToUpper(s))
  {
    var u := Strings.ToUpper(s);
    forall i | 0 <= i < |u|
      ensures !('a' <= u[i] <= 'z')
    {
      assert u[i] == Strings.UpperChar(s[i]);
    }
  }

  lemma PiecesHaveNoLowercase(u: string, k: int)
    requires !HasLowercase(u) && 0 <= k < |Strings.Split(u, ",")|
    ensures !HasLowercase(Strings.Split(u, ",")[k])
  {
    var m := Strings.Split(u, ",")[k];
    forall i | 0 <= i < |m|
      ensures !('a' <= m[i] <= 'z')
    {
      Strings.SplitKeepsChars(u, ",", k, i);
    }
  }

  /**
   * Request methods are compared as sent: a method with a lower-case letter
   * is refused with 405 by every service route, before the authorizer is
   * asked.
   */
  lemma LowercaseMethodRefused(methods: string, authorizer: Option<Authorizer>, expression: string, serviceId: string,
                               req: Request)
    requires HasLowercase(req.httpMethod)
    ensures Reject(Route(MethodList(methods), authorizer, expression, serviceId), req) == Some(Status(405))
  {
    if req.httpMethod in MethodList(methods) {
      MethodListUppercase(methods, req.httpMethod);
    }
  }

  /**
   * Only the whole text is trimmed, not each piece: for methods written
   * "A, B" the route lists "A" and " B", so a request for B is refused with
   * 405 (unless B is also A).
   */
  lemma PiecesKeepTheirSpaces(a: string, b: string, authorizer: Option<Authorizer>, expression: string,
                              serviceId: string, req: Request)
    requires a != [] && b != [] && ',' !in a && ',' !in b
    requires !HasLowercase(a) && !HasLowercase(b)
    requires !Strings.IsSpace(a[0]) && !Strings.IsSpace(b[|b| - 1])
    requires req.httpMethod == b && b != a
    ensures Reject(Route(MethodList(a + ", " + b), authorizer, expression, serviceId), req) == Some(Status(405))
  {
    var list := MethodList(a + ", " + b);
    TwoMethodList(a, b);
    assert b !in multiset(list) by {
      assert |b| != |" " + b|;
    }
  }

  /** The route for methods "A, B" lists "A" and " B". */
  lemma TwoMethodList(a: string, b: string)
    requires a != [] && b != [] && ',' !in a && ',' !in b
    requires !HasLowercase(a) && !HasLowercase(b)
    requires !Strings.IsSpace(a[0]) && !Strings.IsSpace(b[|b| - 1])
    ensures multiset(MethodList(a + ", " + b)) == multiset{a, " " + b}
  {
    TwoMethodPieces(a, b);
  }

  /** "A, B" is cut into "A" and " B". */
  lemma TwoMethodPieces(a: string, b: string)
    requires a != [] && b != [] && ',' !in a && ',' !in b
    requires !HasLowercase(a) && !HasLowercase(b)
    requires !Strings.IsSpace(a[0]) && !Strings.IsSpace(b[|b| - 1])
    ensures Strings.Split(Strings.ToUpper(Strings.TrimSpace(a + ", " + b)), ",") == [a, " " + b]
  {
    MethodTextUnchanged(a, b);
    SplitTwo(a, b);
  }

  /** Trimming and upper-casing leave "A, B" as it is. */
  lemma MethodTextUnchanged(a: string, b: string)
    requires a != [] && b != []
    requires !HasLowercase(a) && !HasLowercase(b)
    requires !Strings.IsSpace(a[0]) && !Strings.IsSpace(b[|b| - 1])
    ensures Strings.ToUpper(Strings.TrimSpace(a + ", " + b)) == a + ", " + b
  {
    var text := a + ", " + b;
    assert text[0] == a[0] && text[|text| - 1] == b[|b| - 1];
    NothingToTrim(text);
    forall i | 0 <= i < |text|
      ensures !('a' <= text[i] <= 'z')
    {
      if i < |a| {
        assert text[i] == a[i];
      } else if i >= |a| + 2 {
        assert text[i] == b[i - |a| - 2];
      }
    }
    NothingToUpper(text);
  }

  /** "A, B" with no other comma is cut after A. */
  lemma SplitTwo(a: string, b: string)
    requires ',' !in a && ',' !in b
    ensures Strings.Split(a + ", " + b, ",") == [a, " " + b]
  {
    var rest := " " + b;
    assert a + ", " + b == a + [','] + rest;
    assert ',' !in rest;
    Strings.SplitAtChar(a, ',', rest);
    Strings.SplitWithoutChar(rest, ',');
  }

  lemma NothingToTrim(s: string)
    requires s != [] && !Strings.IsSpace(s[0]) && !Strings.IsSpace(s[|s| - 1])
    ensures Strings.TrimSpace(s) == s
  {
    assert Strings.TrimLeft(s) == s;
  }

  lemma NothingToUpper(s: string)
    requires !HasLowercase(s)
    ensures Strings.ToUpper(s) == s
  {
    var u := Strings.ToUpper(s);
    forall i | 0 <= i < |s|
      ensures u[i] == s[i]
    {
      assert !('a' <= s[i] <= 'z');
    }
  }

  /*
   * Built-in routes
   */

  /** With an empty configuration Setup registers only the catch-all 404 route. */
  lemma DefaultSetup(staticIsDir: bool)
    ensures var d := RoutesOf(map[]);
      var regs := SetupRegistrations(d.default404HandlerEnabled, d.staticDir, d.staticPath, staticIsDir,
                                     d.healthPath, d.metricsEnabled, d.metricPath);
      && regs == [("/", NotFoundHandler)]
      && RegisterAll(map[], regs) == Some(map["/" := NotFoundHandler])
  {
    EmptyConfigurationDefaults();
  }

  /**
   * Setup fails (the mux panics on a repeated pattern) when the health path
   * is "/" while the catch-all 404 route is enabled, or when the health path
   * and the metrics path coincide.
   */
  lemma SetupClashes(notFound: bool, staticDir: string, staticPath: string, staticIsDir: bool,
                     healthPath: string, metricsEnabled: bool, metricPath: string)
    requires healthPath != ""
    requires (notFound && healthPath == "/") || (metricsEnabled && metricPath == healthPath)
    ensures RegisterAll(map[], SetupRegistrations(notFound, staticDir, staticPath, staticIsDir,
                                                  healthPath, metricsEnabled, metricPath)).None?
  {
    var regs := SetupRegistrations(notFound, staticDir, staticPath, staticIsDir, healthPath, metricsEnabled, metricPath);
    RegisterAllSucceeds(map[], regs);
    var first := if notFound then [("/", NotFoundHandler)] else [];
    var files := if staticDir != "" && staticIsDir then [(staticPath, StaticHandler)] else [];
    var metrics := if metricsEnabled then [(metricPath, MetricsHandler)] else [];
    var h := |first| + |files|;
    assert regs == first + files + [(healthPath, HealthHandler)] + metrics;
    assert regs[h].0 == healthPath;
    if notFound && healthPath == "/" {
      assert regs[0].0 == "/";
    } else {
      assert regs[h + 1].0 == metricPath;
    }
  }

  /**
   * Setup succeeds whenever the enabled patterns are non-empty and pairwise
   * distinct, and the table then holds exactly those routes.
   */
  lemma SetupSucceeds(notFound: bool, staticDir: string, staticPath: string, staticIsDir: bool,
                      healthPath: string, metricsEnabled: bool, metricPath: string)
    requires Registrable(map[], SetupRegistrations(notFound, staticDir, staticPath, staticIsDir,
                                                   healthPath, metricsEnabled, metricPath))
    ensures var regs := SetupRegistrations(notFound, staticDir, staticPath, staticIsDir,
                                           healthPath, metricsEnabled, metricPath);
      var table := RegisterAll(map[], regs);
      && table.Some?
      && (notFound ==> "/" in table.value && table.value["/"] == NotFoundHandler)
      && (healthPath != "" ==> healthPath in table.value && table.value[healthPath] == HealthHandler)
      && (metricsEnabled ==> metricPath in table.value && table.value[metricPath] == MetricsHandler)
  {
    var regs := SetupRegistrations(notFound, staticDir, staticPath, staticIsDir, healthPath, metricsEnabled, metricPath);
    RegisterAllSucceeds(map[], regs);
    RegisterAllContents(map[], regs);
    var first := if notFound then [("/", NotFoundHandler)] else [];
    var files := if staticDir != "" && staticIsDir then [(staticPath, StaticHandler)] else [];
    var health := if healthPath != "" then [(healthPath, HealthHandler)] else [];
    var metrics := if metricsEnabled then [(metricPath, MetricsHandler)] else [];
    assert regs == first + files + health + metrics;
    if notFound {
      assert regs[0] == ("/", NotFoundHandler);
    }
    if healthPath != "" {
      assert regs[|first| + |files|] == (healthPath, HealthHandler);
    }
    if metricsEnabled {
      assert regs[|regs| - 1] == (metricPath, MetricsHandler);
    }
  }
}
