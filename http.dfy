/** The part of the HTTP transport the v1 router touches: the replies the
    Response helper writes, the request's `hasEnded` flag, and the response
    object the replies are written to. */
module Http {

  datatype Option<T> = None | Some(value: T)

  /** The registration verbs the router uses on the app: `get`, `post`, `any`. */
  datatype Method = Get | Post | Any

  /** A reply as the Response helper produces it. */
  datatype Reply =
    | Ok(payload: string)                          // `Response.ok`: 200 with a data envelope
    | Error(status: int, message: Option<string>)  // `Response.error(res, status, message)`; None: `undefined`
    | NotFound                                     // `Response.notFound(res)`: 404

  /** Who wrote an entry of the response log. The tag is not part of the wire
      format; it lets the model say which writes the dispatcher makes itself.
      `Stage(i)` is the handler at position i of the chain, `Dispatcher(i)`
      the `catch` block of the loop after handler i threw, `CatchAll` the
      route that answers unmatched paths. */
  datatype Origin = Stage(index: nat) | Dispatcher(index: nat) | CatchAll

  datatype Written = Written(origin: Origin, reply: Reply)

  /** What the log holds that `o` wrote, in order. */
  function ByOrigin(log: seq<Written>, o: Origin): seq<Reply>
  {
    if log == [] then []
    else (if log[0].origin == o then [log[0].reply] else []) + ByOrigin(log[1..], o)
  }

  lemma {:induction false} ByOriginConcat(a: seq<Written>, b: seq<Written>, o: Origin)
    ensures ByOrigin(a + b, o) == ByOrigin(a, o) + ByOrigin(b, o)
  {
    if a == [] {
      assert a + b == b;
    } else {
      var head := if a[0].origin == o then [a[0].reply] else [];
      assert (a + b)[0] == a[0];
      assert (a + b)[1..] == a[1..] + b;
      ByOriginConcat(a[1..], b, o);
      calc {
        ByOrigin(a + b, o);
        head + ByOrigin(a[1..] + b, o);
        head + (ByOrigin(a[1..], o) + ByOrigin(b, o));
        (head + ByOrigin(a[1..], o)) + ByOrigin(b, o);
      }
    }
  }

  /** `rs`, every reply tagged as written by `o`. */
  function Tagged(o: Origin, rs: seq<Reply>): seq<Written>
  {
    if rs == [] then [] else [Written(o, rs[0])] + Tagged(o, rs[1..])
  }

  lemma {:induction false} TaggedByOrigin(o: Origin, rs: seq<Reply>, o': Origin)
    ensures ByOrigin(Tagged(o, rs), o') == if o == o' then rs else []
  {
    if rs != [] {
      TaggedByOrigin(o, rs[1..], o');
      assert Tagged(o, rs)[1..] == Tagged(o, rs[1..]);
    }
  }

  /** The request object: only the `hasEnded` flag that the middleware sets
      to mark the response as complete (and may reset). It starts unset. */
  class HttpRequest {
    var hasEnded: bool

    constructor ()
      ensures !hasEnded
    {
      hasEnded := false;
    }

    method SetEnded(value: bool)
      modifies this
      ensures hasEnded == value
    {
      hasEnded := value;
    }
  }

  /** The response object, as the log of everything written to it. */
  class HttpResponse {
    var log: seq<Written>

    constructor ()
      ensures log == []
    {
      log := [];
    }

    method Write(entries: seq<Written>)
      modifies this
      ensures log == old(log) + entries
    {
      log := log + entries;
    }
  }
}
