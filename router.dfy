/** The v1 HTTP router of the default API plugin: the versioned path
    helper, the two chain builders `base` and `protected`, and the route
    table that `serve` registers on the app. */
module RouterV1 {
  import opened Http
  import opened Api
  import opened Dispatch

  /** The version prefix of every specific route. */
  const PREFIX := "/api/v1"

  predicate StartsWithSlash(p: string)
  {
    |p| > 0 && p[0] == '/'
  }

  /** The fragment with a leading slash added when it has none. */
  function Anchored(p: string): string
  {
    if StartsWithSlash(p) then p else "/" + p
  }

  /** The fragment a versioned path was built from, if `url` is one. */
  function Unversioned(url: string): (r: Option<string>)
  {
    if |url| > |PREFIX| && url[..|PREFIX|] == PREFIX && url[|PREFIX|] == '/'
    then Some(url[|PREFIX|..])
    else None
  }

  class HttpRouter {
    const name: string
    const app: App
    const plugin: DefaultApiPlugin
    const injector: Handler

    /** The state the constructor leaves: the plugin's app, and an injector
        whose shared context starts with `hasEnded` false. */
    ghost predicate Valid()
    {
      name == "v1" && app == plugin.app && injector == Inject(InjectContext(plugin, false))
    }

    constructor (plugin: DefaultApiPlugin)
      ensures Valid() && this.plugin == plugin
    {
      name := "v1";
      app := plugin.app;
      this.plugin := plugin;
      injector := Inject(InjectContext(plugin, false));
    }

    /** `HttpRouter.path`: the fragment under the version prefix, with the
        fragment's leading slash added when missing. The result begins with
        "/api/v1/", continues after the prefix with the fragment and its
        leading slash, and is one character longer than prefix and fragment
        together exactly when the fragment lacks that slash. */
    static function Path(p: string): (r: string)
      ensures |r| > |PREFIX| && r[..|PREFIX| + 1] == PREFIX + "/"
      ensures r[|PREFIX|..] == Anchored(p)
      ensures |r| == |PREFIX| + |p| + (if StartsWithSlash(p) then 0 else 1)
    {
      var r := PREFIX + Anchored(p);
      assert r[..|PREFIX| + 1] == PREFIX + Anchored(p)[..1];
      r
    }

    /** `base(...handlers)`: the injector and the request parser first, then
        the caller's handlers in their order. */
    function Base(hs: seq<Handler>): (r: seq<Handler>)
      ensures |r| == |hs| + 2 && r[0] == injector && r[1] == RequestParser && r[2..] == hs
    {
      [injector, RequestParser] + hs
    }

    /** `protected(...handlers)`: `base` with the authentication middleware
        put in front of the caller's handlers, so it comes right after the
        parser. */
    function Protected(hs: seq<Handler>): (r: seq<Handler>)
      ensures |r| == |hs| + 3 && r[..3] == [injector, RequestParser, Auth] && r[3..] == hs
    {
      var r := Base([Auth] + hs);
      assert r[3..] == r[2..][1..];
      r
    }

    /** The entries `Serve` registers, in order. */
    function Routes(): seq<Route>
    {
      [ Route(Get, Path("/ping"), Chain(Base([Ping]))),
        Route(Post, Path("/token"), Chain(Base([TokenAuth]))),
        Route(Get, Path("/chat"), Chain(Protected([GetChats]))),
        Route(Get, Path("/handle"), Chain(Protected([GetHandles]))),
        Route(Get, Path("/message"), Chain(Protected([GetMessages]))),
        Route(Get, Path("/updatedMessages"), Chain(Protected([GetUpdatedMessages]))),
        Route(Get, Path("/plugin"), Chain(Protected([GetPlugins]))),
        Route(Http.Any, "/*", NotFoundPage) ]
    }

    /** `serve`: registers the seven versioned routes and then the catch-all. */
    method Serve()
      modifies app
      ensures app.routes == old(app.routes) + Routes()
    {
      app.Get(Path("/ping"), Chain(Base([Ping])));
      app.Post(Path("/token"), Chain(Base([TokenAuth])));
      app.Get(Path("/chat"), Chain(Protected([GetChats])));
      app.Get(Path("/handle"), Chain(Protected([GetHandles])));
      app.Get(Path("/message"), Chain(Protected([GetMessages])));
      app.Get(Path("/updatedMessages"), Chain(Protected([GetUpdatedMessages])));
      app.Get(Path("/plugin"), Chain(Protected([GetPlugins])));
      app.Any("/*", NotFoundPage);
      RegisteredInOrder(old(app.routes), Routes());
    }
  }

  lemma RegisteredInOrder(before: seq<Route>, t: seq<Route>)
    requires |t| == 8
    ensures before + [t[0]] + [t[1]] + [t[2]] + [t[3]] + [t[4]] + [t[5]] + [t[6]] + [t[7]] == before + t
  {
    assert t == [t[0], t[1], t[2], t[3], t[4], t[5], t[6], t[7]];
  }

  /** What a registered handler does when the transport calls it: a chain
      runs the dispatch loop; the catch-all writes a 404 and nothing else. */
  method Handle(t: Target, behave: Behaviour, res: HttpResponse, req: HttpRequest)
    returns (rejected: bool, ghost steps: seq<Step>)
    modifies res, req
    ensures t.NotFoundPage? ==>
      && steps == [] && !rejected
      && res.log == old(res.log) + [Written(CatchAll, NotFound)] && req.hasEnded == old(req.hasEnded)
    ensures t.Chain? ==>
      && steps == Steps(t.handlers, behave, 0, old(req.hasEnded))
      && res.log == old(res.log) + Log(steps)
      && req.hasEnded == FinalEnded(old(req.hasEnded), steps)
      && (rejected <==> Rejects(steps))
  {
    match t {
      case Chain(hs) =>
        rejected, steps := Run(hs, behave, res, req);
      case NotFoundPage =>
        res.Write([Written(CatchAll, NotFound)]);
        rejected, steps := false, [];
    }
  }

  // ---------------------------------------------------------------------
  // The path helper


  /** A built path ends with the fragment it was built from. */
  lemma PathEndsWithFragment(p: string)
    ensures var r := HttpRouter.Path(p); |p| <= |r| && r[|r| - |p|..] == p
  {
    var r := HttpRouter.Path(p);
    assert r[|r| - |p|..] == r[|PREFIX|..][|Anchored(p)| - |p|..];
  }

  /** Stripping the prefix from a built path gives back the fragment with
      its leading slash. */
  lemma PathRoundTrip(p: string)
    ensures Unversioned(HttpRouter.Path(p)) == Some(Anchored(p))
  {
    var r := HttpRouter.Path(p);
    assert r == PREFIX + Anchored(p);
    assert r[..|PREFIX|] == PREFIX;
    assert r[|PREFIX|..] == Anchored(p);
  }

  /** Every path of the versioned form is the one built from its fragment. */
  lemma UnversionedRoundTrip(url: string)
    ensures Unversioned(url).Some? ==>
      StartsWithSlash(Unversioned(url).value) && HttpRouter.Path(Unversioned(url).value) == url
  {
    if Unversioned(url).Some? {
      var f := url[|PREFIX|..];
      assert StartsWithSlash(f);
      assert url == url[..|PREFIX|] + f;
    }
  }

  /** The leading slash of a fragment is optional. */
  lemma PathExample()
    ensures HttpRouter.Path("foo") == "/api/v1/foo" == HttpRouter.Path("/foo")
    ensures HttpRouter.Path("") == "/api/v1/"
  {
  }

  /** `path("foo")` and `path("/foo")` are the same route: two fragments give
      the same path exactly when they agree once anchored. */
  lemma PathInjective(p: string, q: string)
    ensures HttpRouter.Path(p) == HttpRouter.Path(q) <==> Anchored(p) == Anchored(q)
  {
    PathRoundTrip(p);
    PathRoundTrip(q);
  }

  // ---------------------------------------------------------------------
  // The chains


  /** In a protected chain, authentication is called only when neither the
      injector nor the parser left the loop (either may have thrown, even
      after completing the response), and a caller's handler is called
      exactly when the authentication call did not leave it. */
  lemma AuthGuardsHandlers(router: HttpRouter, hs: seq<Handler>, behave: Behaviour, ended: bool)
    ensures var r := Steps(router.Protected(hs), behave, 0, ended);
      && (|r| > 2 ==> r[2].handler == Auth && !Breaks(r[0]) && !Breaks(r[1]))
      && (|r| > 2 && hs != [] ==> (|r| > 3 <==> !Breaks(r[2])))
  {
    ContinuesUnlessBreaks(router.Protected(hs), behave, 0, ended);
  }

  /** The loop does not treat an exception in authentication as a refusal:
      when it throws a value other than `null` or `undefined`, the 500 error
      is written and the caller's first handler still runs. */
  lemma ThrowingAuthLetsHandlersRun(router: HttpRouter, hs: seq<Handler>, behave: Behaviour, ended: bool)
    requires hs != []
    requires var r := Steps(router.Protected(hs), behave, 0, ended); |r| > 2 && r[2].action.outcome.Throws?
    ensures var r := Steps(router.Protected(hs), behave, 0, ended);
      && |r| > 3 && r[3].handler == hs[0]
      && ByOrigin(Log(r), Dispatcher(2)) == [Error(500, r[2].action.outcome.message)]
  {
    var chain := router.Protected(hs);
    var r := Steps(chain, behave, 0, ended);
    assert chain[3] == chain[3..][0];
    assert |r| > 3 by {
      ContinuesUnlessBreaks(chain, behave, 0, ended);
    }
    assert ByOrigin(Log(r), Dispatcher(2)) == [Error(500, r[2].action.outcome.message)] by {
      WritesByOrigin(chain, behave, ended, 2);
    }
  }

  // ---------------------------------------------------------------------
  // The route table

  /** How a route is guarded: through `base`, through `protected`, or with
      no middleware at all. */
  datatype Guard = Open | Authenticated | Bare

  function GuardOf(router: HttpRouter, t: Target): Guard
  {
    match t
    case NotFoundPage => Bare
    case Chain(hs) =>
      if |hs| >= 3 && hs[..3] == [router.injector, RequestParser, Auth] then Authenticated
      else Open
  }

  /** One route of the v1 surface: its verb, its full path, its guard and
      the endpoint handler at the end of its chain (none for the
      catch-all). */
  datatype Entry = Entry(verb: Method, path: string, guard: Guard, endpoint: Option<Handler>)

  /** The HTTP surface of the v1 API, with the paths under the version
      prefix written out. */
  const SURFACE: seq<Entry> := [
    Entry(Get, "/api/v1/ping", Open, Some(Ping)),
    Entry(Post, "/api/v1/token", Open, Some(TokenAuth)),
    Entry(Get, "/api/v1/chat", Authenticated, Some(GetChats)),
    Entry(Get, "/api/v1/handle", Authenticated, Some(GetHandles)),
    Entry(Get, "/api/v1/message", Authenticated, Some(GetMessages)),
    Entry(Get, "/api/v1/updatedMessages", Authenticated, Some(GetUpdatedMessages)),
    Entry(Get, "/api/v1/plugin", Authenticated, Some(GetPlugins)),
    Entry(Http.Any, "/*", Bare, None)
  ]

  /** The target an entry of the surface calls for: its endpoint behind
      `protected` when authenticated, behind `base` when open, and the 404
      page when it has no endpoint. */
  function Expected(router: HttpRouter, e: Entry): Target
  {
    match e.endpoint
    case None => NotFoundPage
    case Some(h) => Chain(if e.guard == Authenticated then router.Protected([h]) else router.Base([h]))
  }

  /** The routes `serve` registers are, in order, the v1 surface: the
      ping and token routes unauthenticated, the five data routes behind
      authentication, and last the catch-all for any verb with no
      middleware. Each chain ends with the surface's endpoint. */
  lemma RoutesMatchSurface(router: HttpRouter)
    requires router.Valid()
    ensures var t := router.Routes();
      && |t| == |SURFACE|
      && forall k | 0 <= k < |t| ::
           && t[k].verb == SURFACE[k].verb && t[k].pattern == SURFACE[k].path
           && GuardOf(router, t[k].target) == SURFACE[k].guard
           && t[k].target == Expected(router, SURFACE[k])
  {
    var t := router.Routes();
    forall k | 0 <= k < |t|
      ensures
        && t[k].verb == SURFACE[k].verb && t[k].pattern == SURFACE[k].path
        && GuardOf(router, t[k].target) == SURFACE[k].guard
        && t[k].target == Expected(router, SURFACE[k])
    {
      PatternAt(router, k);
      TargetAt(router, k);
      GuardOfExpected(router, SURFACE[k]);
    }
  }

  /** Every chain of the table begins with the router's injector, whose
      shared context has `hasEnded` false, followed by the parser; no
      handler of an unauthenticated route is authentication, so on those
      routes it is never called. */
  lemma ChainsOfRoutes(router: HttpRouter, behave: Behaviour, ended: bool)
    requires router.Valid()
    ensures var t := router.Routes();
      forall k | 0 <= k < |t| - 1 ::
        && t[k].target.Chain?
        && |t[k].target.handlers| >= 3
        && t[k].target.handlers[0] == Inject(InjectContext(router.plugin, false))
        && t[k].target.handlers[1] == RequestParser
        && (GuardOf(router, t[k].target) == Open ==>
              forall j | 0 <= j < |Steps(t[k].target.handlers, behave, 0, ended)| ::
                Steps(t[k].target.handlers, behave, 0, ended)[j].handler != Auth)
  {
    var t := router.Routes();
    forall k | 0 <= k < |t| - 1
      ensures
        && t[k].target.Chain?
        && |t[k].target.handlers| >= 3
        && t[k].target.handlers[0] == Inject(InjectContext(router.plugin, false))
        && t[k].target.handlers[1] == RequestParser
        && (GuardOf(router, t[k].target) == Open ==>
              forall j | 0 <= j < |Steps(t[k].target.handlers, behave, 0, ended)| ::
                Steps(t[k].target.handlers, behave, 0, ended)[j].handler != Auth)
    {
      ChainAt(router, k, behave, ended);
    }
  }

  /** The chain of entry k of the table, as `ChainsOfRoutes` states it. */
  lemma ChainAt(router: HttpRouter, k: nat, behave: Behaviour, ended: bool)
    requires router.Valid() && k < |SURFACE| - 1
    ensures var t := router.Routes();
      && |t| == |SURFACE|
      && t[k].target.Chain?
      && |t[k].target.handlers| >= 3
      && t[k].target.handlers[0] == Inject(InjectContext(router.plugin, false))
      && t[k].target.handlers[1] == RequestParser
      && (GuardOf(router, t[k].target) == Open ==>
            forall j | 0 <= j < |Steps(t[k].target.handlers, behave, 0, ended)| ::
              Steps(t[k].target.handlers, behave, 0, ended)[j].handler != Auth)
  {
    TargetAt(router, k);
    GuardOfExpected(router, SURFACE[k]);
    ChainOfEntry(router, SURFACE[k], behave, ended);
  }

  /** The guard of an entry's target is the entry's guard, for any entry
      whose endpoint is not authentication itself and which has an
      endpoint exactly when it is guarded. */
  lemma GuardOfExpected(router: HttpRouter, e: Entry)
    requires e.endpoint != Some(Auth) && (e.endpoint.None? <==> e.guard == Bare)
    ensures GuardOf(router, Expected(router, e)) == e.guard
  {
    if e.endpoint.Some? && e.guard == Open {
      var hs := router.Base([e.endpoint.value]);
      assert hs[2] == hs[2..][0] == e.endpoint.value;
    }
  }

  /** The chain of an entry with an endpoint starts with the injector and
      the parser; on an open route authentication is none of its handlers,
      so it is never called. */
  lemma ChainOfEntry(router: HttpRouter, e: Entry, behave: Behaviour, ended: bool)
    requires router.Valid() && e.endpoint.Some? && e.endpoint != Some(Auth)
    ensures var t := Expected(router, e);
      && t.Chain?
      && |t.handlers| >= 3
      && t.handlers[0] == Inject(InjectContext(router.plugin, false))
      && t.handlers[1] == RequestParser
      && (e.guard != Authenticated ==>
            forall j | 0 <= j < |Steps(t.handlers, behave, 0, ended)| ::
              Steps(t.handlers, behave, 0, ended)[j].handler != Auth)
  {
    if e.guard != Authenticated {
      var hs := router.Base([e.endpoint.value]);
      assert hs[2] == hs[2..][0];
      assert hs == [hs[0], hs[1], hs[2]];
      assert Auth !in hs;
    }
  }

  /** A fragment with its leading slash is put right after the prefix. */
  lemma VersionedPath(p: string, url: string)
    requires StartsWithSlash(p) && url == PREFIX + p
    ensures HttpRouter.Path(p) == url
  {
  }

  /** The fragments that `Routes()` (and `Serve`) pass to `path`, entry by
      entry in table order; `PatternAt` ties the two together, so a
      fragment changed in one place and not in the other fails to verify. */
  const FRAGMENTS: seq<string> :=
    ["/ping", "/token", "/chat", "/handle", "/message", "/updatedMessages", "/plugin"]

  /** Each fragment becomes the full path entry k of the surface names. */
  lemma WrittenOut(k: nat)
    requires k < |FRAGMENTS|
    ensures HttpRouter.Path(FRAGMENTS[k]) == SURFACE[k].path
  {
    if k == 0 {
      PingPath();
    } else if k == 1 {
      TokenPath();
    } else if k == 2 {
      ChatPath();
    } else if k == 3 {
      HandlePath();
    } else if k == 4 {
      MessagePath();
    } else if k == 5 {
      UpdatedMessagesPath();
    } else {
      PluginPath();
    }
  }

  // One lemma per route, so that each proof compares a single pair of
  // string literals.

  lemma PingPath()
    ensures HttpRouter.Path("/ping") == "/api/v1/ping"
  {
    VersionedPath("/ping", "/api/v1/ping");
  }

  lemma TokenPath()
    ensures HttpRouter.Path("/token") == "/api/v1/token"
  {
    VersionedPath("/token", "/api/v1/token");
  }

  lemma ChatPath()
    ensures HttpRouter.Path("/chat") == "/api/v1/chat"
  {
    VersionedPath("/chat", "/api/v1/chat");
  }

  lemma HandlePath()
    ensures HttpRouter.Path("/handle") == "/api/v1/handle"
  {
    VersionedPath("/handle", "/api/v1/handle");
  }

  lemma MessagePath()
    ensures HttpRouter.Path("/message") == "/api/v1/message"
  {
    VersionedPath("/message", "/api/v1/message");
  }

  lemma UpdatedMessagesPath()
    ensures HttpRouter.Path("/updatedMessages") == "/api/v1/updatedMessages"
  {
    VersionedPath("/updatedMessages", "/api/v1/updatedMessages");
  }

  lemma PluginPath()
    ensures HttpRouter.Path("/plugin") == "/api/v1/plugin"
  {
    VersionedPath("/plugin", "/api/v1/plugin");
  }

  /** The pattern of entry k of the table is the path of entry k of the
      surface. */
  lemma PatternAt(router: HttpRouter, k: nat)
    requires k < |SURFACE|
    ensures var t := router.Routes(); |t| == |SURFACE| && t[k].pattern == SURFACE[k].path
  {
    if k < |FRAGMENTS| {
      assert router.Routes()[k].pattern == HttpRouter.Path(FRAGMENTS[k]);
      WrittenOut(k);
    }
  }

  /** The verb and target of entry k of the table are those entry k of the
      surface calls for. */
  lemma TargetAt(router: HttpRouter, k: nat)
    requires k < |SURFACE|
    ensures var t := router.Routes();
      |t| == |SURFACE| && t[k].verb == SURFACE[k].verb && t[k].target == Expected(router, SURFACE[k])
  {
    var e := SURFACE[k];
    if k < 2 {
      assert e.guard == Open && e.endpoint.Some?;
    } else if k < 7 {
      assert e.guard == Authenticated && e.endpoint.Some?;
    }
  }
}
