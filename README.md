# The v1 HTTP router of the BlueBubbles server, in Dafny

This project models the router that mounts the version-1 HTTP API of the
default API plugin of a BlueBubbles server. It has four parts:

- the path helper `HttpRouter.path`, which puts every endpoint under `/api/v1`;
- the chain builders `base` and `protected`, which put the injector, the
  request parser and (for `protected`) the authentication middleware in
  front of an endpoint;
- `bootstrapRouteHandlers`, the loop that runs a chain on one request;
- `serve`, which registers seven endpoints and then a catch-all 404 route.

The project proves properties of these parts.

Files:

- `http.dfy` (module `Http`): the replies the Response helper writes
  (ok, error with a status and message, not found). It also holds the
  request object, reduced to its `hasEnded` flag, and the response object,
  reduced to the log of what was written to it. Each log entry is tagged with
  who wrote it: handler i of the chain, the loop's `catch` block after
  handler i, or the catch-all route. The tag is only there so that
  properties can name the writer.
- `api.dfy` (module `Api`): the handlers by name, the app with its route
  table, and the plugin. The effect of a handler on a request is abstract. A
  `Behaviour` says, for each handler and each value of `hasEnded` at the
  moment it is called, what the call does: the replies it writes, whether it
  leaves, sets or clears `hasEnded`, and whether it returns, throws a value
  (with a `message`, or without one, which the `catch` block reads as
  `undefined`), or throws `null` or `undefined`.
- `dispatch.dfy` (module `Dispatch`): the loop. `Run` is the imperative
  loop over the request and response objects. `Attempt` is one pass of its
  `try`/`catch` body. `Steps` is the specification function that lists the
  calls the loop makes. The lemmas about `Steps` state order,
  short-circuit, exception handling and exhaustion.
- `router.dfy` (module `RouterV1`): the `HttpRouter` class (constructor,
  `Path`, `Base`, `Protected`, `Serve`), the call of a registered target,
  and lemmas on paths, chains and the route table.

How the loop of `bootstrapRouteHandlers` (index.ts lines 76-93) treats a
chain, as the lemmas state it:

- The flag is read only after a handler returns normally (line 84). A
  handler that returns with `hasEnded` set is the last one called.
- An exception does not end the chain. The catch block (lines 85-88) writes
  a 500 error with the exception's message, and the loop goes on with the
  next handler. The catch block does not read `hasEnded`. `Response.error`
  is not handed the request, so the model takes it to leave the flag
  alone. So when authentication throws a value other than `null` or
  `undefined`, the catch block writes exactly one 500 error with its
  message for it, and the endpoint behind it is still called
  (`ThrowingAuthLetsHandlersRun`). A handler is also called after the
  response was completed, when the handler before it threw
  (`RunsAfterEndedWhenThrown`). This relies on the assumption, stated for
  `Dispatch.Attempt` under "Left out", that `Response.error` completes
  even on a response that is already finished.
- When the thrown value is `null` or `undefined`, reading `ex.message` at
  line 87 throws inside the catch block. That leaves the loop: no 500 is
  written, no later handler is called, and the composed handler's promise
  rejects (`NullishThrowLeavesLoop`, `Run`).
- When the chain runs out, the loop adds nothing after the last handler.
  The only replies the loop writes itself are the 500 errors for handlers
  that threw a value other than `null` or `undefined`
  (`RunsAllUnlessBroken`, `WritesByOrigin`).

## Model

| member | source | states |
|---|---|---|
| Dispatch.Steps | src/main/server/plugins/api/default/router/http/v1/index.ts:76-93 | The loop calls handlers strictly in chain order: call j is of handler j, so handler j+1 is never called before handler j. There is at most one call per handler. |
| Dispatch.Attempt | src/main/server/plugins/api/default/router/http/v1/index.ts:79-88 | One pass of the loop body. Handler i is called with the current flag, writes what it writes and leaves, sets or clears the flag. If it throws a non-nullish value, exactly one `error(res, 500, message)` follows, with `message` possibly `undefined`, and the pass never leaves the loop. If it throws `null` or `undefined`, nothing follows and the pass leaves the loop as escaped. Otherwise the pass leaves exactly when `hasEnded` is then true. |
| Dispatch.Run | src/main/server/plugins/api/default/router/http/v1/index.ts:76-93 | The composed handler on one request/response pair. It makes exactly the calls of `Steps` from the request's initial flag. The response log grows by exactly those calls' writes. The request's flag ends as the last call left it. The handler rejects exactly when the last call threw `null` or `undefined`. |
| Dispatch.FlagThreaded | src/main/server/plugins/api/default/router/http/v1/index.ts:78-84 | Each called handler behaves as prescribed for the flag it sees. The first handler sees the initial flag. Each later handler sees the flag its predecessor left. |
| Dispatch.ContinuesUnlessBreaks | src/main/server/plugins/api/default/router/http/v1/index.ts:78-89 | Both directions: the loop goes past a called handler iff that call did not leave the loop and a next handler exists. A call leaves the loop by returning normally with `hasEnded` true, or by throwing `null`/`undefined`. Any other throw never stops it. |
| Dispatch.RunsAllUnlessBroken | src/main/server/plugins/api/default/router/http/v1/index.ts:76-90 | Both directions: no call leaves the loop iff every handler of the chain is called and the last call does not leave it. A call that leaves the loop is the last call made. |
| Dispatch.WritesByOrigin | src/main/server/plugins/api/default/router/http/v1/index.ts:81-88 | Handler i's own writes appear unchanged iff it was called. The catch block writes exactly one 500 error with the exception's message for handler i iff it was called and threw a non-nullish value, and nothing else. An exhausted chain therefore gets no extra reply from the dispatcher. |
| Dispatch.EndedStaysEnded | src/main/server/plugins/api/default/router/http/v1/index.ts:83-88 | Take a handler that sees `hasEnded` set, where neither it nor any later called handler clears the flag. Then every later handler sees the flag set and the request ends with it set. The dispatcher itself, including its catch block, never changes the flag. |
| Dispatch.RunsAfterEndedWhenThrown | src/main/server/plugins/api/default/router/http/v1/index.ts:85-88 | From any initial flag, a handler that throws a non-nullish value when the response is already complete is still followed by the next handler. That handler sees the flag set unless the throwing handler cleared it. |
| Dispatch.NullishThrowLeavesLoop | src/main/server/plugins/api/default/router/http/v1/index.ts:85-88 | A handler that throws `null` or `undefined` is the last one called, and the dispatcher writes no 500 error for it. |
| RouterV1.HttpRouter.constructor | src/main/server/plugins/api/default/router/http/v1/index.ts:26-34 | The router takes the plugin's app. Its injector carries a shared context of the plugin with `hasEnded: false`. Its name is "v1". |
| RouterV1.HttpRouter.Path | src/main/server/plugins/api/default/router/http/v1/index.ts:70-74 | `path(p)` begins with "/api/v1/". After "/api/v1" comes `p` with its leading slash enforced. It is one character longer than "/api/v1" + `p` exactly when `p` lacks its leading slash. |
| RouterV1.PathEndsWithFragment | src/main/server/plugins/api/default/router/http/v1/index.ts:70-74 | `path(p)` ends with `p`. |
| RouterV1.PathRoundTrip | src/main/server/plugins/api/default/router/http/v1/index.ts:70-74 | Removing "/api/v1" from `path(p)` gives back `p` with the leading slash enforced. |
| RouterV1.UnversionedRoundTrip | src/main/server/plugins/api/default/router/http/v1/index.ts:70-74 | Take any url of the form "/api/v1/…". Rebuilding its fragment through `path` gives the same url. |
| RouterV1.PathInjective | src/main/server/plugins/api/default/router/http/v1/index.ts:70-74 | Two fragments give the same path iff they agree once the leading slash is enforced. So `path("foo") == path("/foo")`, and no other fragments collide. |
| RouterV1.PathExample | src/main/server/plugins/api/default/router/http/v1/index.ts:70-74 | `path("foo")` and `path("/foo")` are both "/api/v1/foo". `path("")` is "/api/v1/". |
| RouterV1.HttpRouter.Base | src/main/server/plugins/api/default/router/http/v1/index.ts:62-64 | `base(hs)` is the injector, then the parser, then `hs` in order. |
| RouterV1.HttpRouter.Protected | src/main/server/plugins/api/default/router/http/v1/index.ts:66-68 | `protected(hs)` is the injector, the parser, authentication, then `hs` in order. |
| RouterV1.AuthGuardsHandlers | src/main/server/plugins/api/default/router/http/v1/index.ts:66-84 | In a protected chain, authentication is called only when neither the injector nor the parser left the loop. Either may have thrown, even after completing the response. A caller's handler is called iff the authentication call did not leave the loop. |
| RouterV1.ThrowingAuthLetsHandlersRun | src/main/server/plugins/api/default/router/http/v1/index.ts:66-88 | When authentication throws a value other than `null` or `undefined`, the catch block writes exactly one 500 error with its message for it, and the first caller handler is still called. |
| RouterV1.HttpRouter.Serve | src/main/server/plugins/api/default/router/http/v1/index.ts:36-60 | `serve` appends exactly the eight entries of the route table to the app's routes, in order. |
| RouterV1.RoutesMatchSurface | src/main/server/plugins/api/default/router/http/v1/index.ts:36-59 | Entry k of the table has the verb, path, guard and endpoint of entry k of the v1 surface, with the paths written out. "/api/v1/ping" (GET, `ping`) and "/api/v1/token" (POST, `tokenAuth`) use `base`. "/api/v1/chat" (`getChats`), "/api/v1/handle" (`getHandles`), "/api/v1/message" (`getMessages`), "/api/v1/updatedMessages" (`getUpdatedMessages`) and "/api/v1/plugin" (`getPlugins`), all GET, use `protected`. Each target is exactly its endpoint behind `base` or `protected`. Last comes the verbatim pattern "/*" for any verb, with the 404 page and no middleware. |
| RouterV1.ChainsOfRoutes | src/main/server/plugins/api/default/router/http/v1/index.ts:30-63 | Every chain in the table starts with the router's injector, whose context has `hasEnded` false, followed by the parser. On the two unauthenticated routes, authentication is never called. |
| RouterV1.Handle | src/main/server/plugins/api/default/router/http/v1/index.ts:59 | A chain target runs the loop, as `Run` states. The catch-all writes one 404 through `notFound`, calls no handler, leaves the flag alone and does not reject. |

## Left out

- The uWebSockets transport (`TemplatedApp`, `HttpResponse`, `HttpRequest`) is reduced to a route list, a `hasEnded` flag and a response log. The library's own route matching is not modelled. Neither is its rule that a response is sent only once: every write is logged, so a second write after a 500 shows up as a second entry.
- The bodies of `InjectMiddleware`, `RequestParserMiddleware`, `AuthMiddleware`, the `Response` helper and the endpoint handlers (`ping`, `tokenAuth`, `getChats`, `getHandles`, `getMessages`, `getUpdatedMessages`, `getPlugins`) are not part of this model. Their effect on a request is the `Behaviour` parameter. In particular, whether the injector copies its `hasEnded: false` onto the request is not fixed. If it does, that is a behaviour in which the injector clears the flag. The context object `{plugin, hasEnded: false}` built at index.ts lines 30-33 is one object shared by all routes and requests. It is modelled as the immutable `InjectContext` value, so its sharing (aliasing) is not modelled. The flag a request arrives with is an input of the loop, and a fresh `HttpRequest` has it unset.
- Behaviour: a handler's effect depends only on which handler it is and on the flag it sees. Any other request state a middleware attaches (the parsed body, the principal, the plugin reference) is not modelled.
- `async`/`await` scheduling is not modelled. The loop is sequential, which matches the code, since one request's stages never interleave.
- RouterV1.Handle: `Response.notFound` is assumed to complete. If it threw, the catch-all route would reject instead of returning. The transport's behaviour is not part of this model.
- Dispatch.Attempt: `Response.error` is assumed to leave `hasEnded` alone, since it is not handed the request; its body is not part of this model. It is also assumed to complete. If it threw, for example on a response the transport has already finished, that exception would also leave the loop and reject the composed handler. The transport's behaviour is not part of this model.
- `console.error` in the catch block and the `onAbort` hook (lines 96-98) only log, so they are not modelled.
- `src/main/server/services/update/index.ts` is Electron dialogs, network calls to GitHub, timers and an external version-comparison library. `src/main/server/services/index.ts` only re-exports. Neither is part of this model.
