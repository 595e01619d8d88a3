/** The plugin-level entities the v1 router composes: the middleware and
    endpoint handlers (by name, with their effect on a request given
    abstractly), the route entries, and the app they are registered on. */
module Api {
  import opened Http

  /** The app of the transport: its route table, in registration order. */
  class App {
    var routes: seq<Route>

    constructor ()
      ensures routes == []
    {
      routes := [];
    }

    /** `app.get(pattern, handler)`. */
    method Get(pattern: string, target: Target)
      modifies this
      ensures routes == old(routes) + [Route(Http.Get, pattern, target)]
    {
      routes := routes + [Route(Http.Get, pattern, target)];
    }

    /** `app.post(pattern, handler)`. */
    method Post(pattern: string, target: Target)
      modifies this
      ensures routes == old(routes) + [Route(Http.Post, pattern, target)]
    {
      routes := routes + [Route(Http.Post, pattern, target)];
    }

    /** `app.any(pattern, handler)`. */
    method Any(pattern: string, target: Target)
      modifies this
      ensures routes == old(routes) + [Route(Http.Any, pattern, target)]
    {
      routes := routes + [Route(Http.Any, pattern, target)];
    }
  }

  /** The default API plugin; the router reads the app from it. */
  class DefaultApiPlugin {
    const app: App

    constructor (app: App)
      ensures this.app == app
    {
      this.app := app;
    }
  }

  /** The shared context handed to `InjectMiddleware.middleware`. */
  datatype InjectContext = InjectContext(plugin: DefaultApiPlugin, hasEnded: bool)

  /** A `WsMiddleware` the router puts in a chain. */
  datatype Handler =
    | Inject(context: InjectContext)   // the router's injector
    | RequestParser                    // `RequestParserMiddleware.middleware`
    | Auth                             // `AuthMiddleware.middleware`
    | Ping
    | TokenAuth
    | GetChats
    | GetHandles
    | GetMessages
    | GetUpdatedMessages
    | GetPlugins

  /** How a call of a handler ends. It returns, or it throws a value. The
      `catch` block reads the thrown value's `message`: that is `undefined`
      (None) for a value without one, and reading it fails when the value
      thrown is `null` or `undefined`. */
  datatype Outcome =
    | Returns
    | Throws(message: Option<string>)
    | ThrowsNullish

  /** What a call does to the request's `hasEnded` flag: leaves it as it
      was, sets it, or clears it. */
  datatype FlagEffect = Keep | SetEnded | ClearEnded

  /** What one call of a handler does: the replies it writes to the
      response, what it does to the request's `hasEnded` flag, and how it
      ends. The effects take place before it returns or throws. */
  datatype Action = Action(writes: seq<Reply>, flag: FlagEffect, outcome: Outcome)

  /** What each handler does on one request, given the value of `hasEnded`
      when it is called. The bodies of the middleware and the endpoints are
      not part of this model, so their effect is this parameter. */
  type Behaviour = (Handler, bool) -> Action

  /** What a route runs: the composed handler built from a chain, or the
      catch-all's direct call of `Response.notFound`. */
  datatype Target = Chain(handlers: seq<Handler>) | NotFoundPage

  datatype Route = Route(verb: Method, pattern: string, target: Target)
}
