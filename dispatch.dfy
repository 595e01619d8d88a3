/** The composed handler that `bootstrapRouteHandlers` returns: a loop that
    calls the handlers of a chain in order, leaves as soon as a handler has
    returned and the request is marked as ended, and answers an exception
    with a 500 error before going on with the next handler. A thrown `null`
    or `undefined` makes the `catch` block itself throw, which leaves the
    loop and rejects the composed handler. */
module Dispatch {
  import opened Http
  import opened Api

  /** One call the loop makes: the position in the chain, the handler, the
      value of `hasEnded` it was called with, and what it did. */
  datatype Step = Step(index: nat, handler: Handler, seen: bool, action: Action)

  /** The request's flag once the handler of `s` has done its work. */
  function EndedAfter(s: Step): bool
  {
    match s.action.flag
    case Keep => s.seen
    case SetEnded => true
    case ClearEnded => false
  }

  /** The `catch` block after `s` throws itself: reading `message` of a
      thrown `null` or `undefined` fails. */
  predicate Escapes(s: Step)
  {
    s.action.outcome.ThrowsNullish?
  }

  /** The loop is left after `s`: by the `break`, because the handler
      returned normally and the flag is then set, or because the `catch`
      block threw. A handler whose exception the `catch` block answers never
      makes the loop leave. */
  predicate Breaks(s: Step)
  {
    (s.action.outcome.Returns? && EndedAfter(s)) || Escapes(s)
  }

  /** What the `catch` block writes after the handler of `s`. */
  function Caught(s: Step): seq<Reply>
  {
    match s.action.outcome
    case Returns => []
    case Throws(message) => [Error(500, message)]
    case ThrowsNullish => []
  }

  /** `Caught` as a test on the outcome rather than a match; proofs that
      reason about one step of the log use this form. */
  lemma CaughtOf(s: Step)
    ensures Caught(s) == if s.action.outcome.Throws? then [Error(500, s.action.outcome.message)] else []
  {
  }

  /** The response entries produced while the loop handles `s`: the
      handler's own writes, then the 500 error if it threw. */
  function Emitted(s: Step): seq<Written>
  {
    Tagged(Stage(s.index), s.action.writes) + Tagged(Dispatcher(s.index), Caught(s))
  }

  /** Everything written while the loop makes the calls `ss`. */
  function Log(ss: seq<Step>): seq<Written>
  {
    if ss == [] then [] else Emitted(ss[0]) + Log(ss[1..])
  }

  /** The request's flag after the calls `ss`, which began with `ended`. */
  function FinalEnded(ended: bool, ss: seq<Step>): bool
  {
    if ss == [] then ended else EndedAfter(ss[|ss| - 1])
  }

  /** The composed handler's promise rejects after the calls `ss`: the
      last of them threw `null` or `undefined`. */
  predicate Rejects(ss: seq<Step>)
  {
    ss != [] && Escapes(ss[|ss| - 1])
  }

  /** The calls the loop makes from position k on, when the flag is `ended`
      on reaching position k. */
  function Steps(hs: seq<Handler>, behave: Behaviour, k: nat, ended: bool): (r: seq<Step>)
    requires k <= |hs|
    ensures |r| <= |hs| - k
    ensures forall j | 0 <= j < |r| :: r[j].index == k + j && r[j].handler == hs[k + j]
    decreases |hs| - k
  {
    if k == |hs| then []
    else
      var s := Step(k, hs[k], ended, behave(hs[k], ended));
      if Breaks(s) then [s] else [s] + Steps(hs, behave, k + 1, EndedAfter(s))
  }

  lemma {:induction false} LogAppend(ss: seq<Step>, s: Step)
    ensures Log(ss + [s]) == Log(ss) + Emitted(s)
  {
    if ss != [] {
      assert (ss + [s])[1..] == ss[1..] + [s];
      LogAppend(ss[1..], s);
    }
  }

  /** One more call `s`: the response log, the final flag and the
      rejection of the calls made so far, extended by `s`. */
  lemma Advance(start: seq<Written>, steps: seq<Step>, s: Step, ended: bool, log: seq<Written>)
    requires log == (start + Log(steps)) + Emitted(s)
    ensures log == start + Log(steps + [s])
    ensures FinalEnded(ended, steps + [s]) == EndedAfter(s)
    ensures Rejects(steps + [s]) == Escapes(s)
  {
    LogAppend(steps, s);
    assert (steps + [s])[|steps|] == s;
  }

  /** The call `s` at position i extends the calls made so far; the calls
      still to come are those from position i + 1 on, unless `s` leaves the
      loop. */
  lemma StepsUnfold(hs: seq<Handler>, behave: Behaviour, i: nat, full: seq<Step>, steps: seq<Step>, s: Step)
    requires i < |hs|
    requires s == Step(i, hs[i], s.seen, behave(hs[i], s.seen))
    requires steps + Steps(hs, behave, i, s.seen) == full
    ensures Breaks(s) ==> steps + [s] == full
    ensures !Breaks(s) ==> (steps + [s]) + Steps(hs, behave, i + 1, EndedAfter(s)) == full
  {
    var rest := Steps(hs, behave, i + 1, EndedAfter(s));
    if !Breaks(s) {
      assert Steps(hs, behave, i, s.seen) == [s] + rest;
      assert (steps + [s]) + rest == steps + ([s] + rest);
    }
  }

  lemma EmittedParts(s: Step)
    ensures !s.action.outcome.Throws? ==> Emitted(s) == Tagged(Stage(s.index), s.action.writes)
    ensures s.action.outcome.Throws? ==>
      Emitted(s) == Tagged(Stage(s.index), s.action.writes) + [Written(Dispatcher(s.index), Error(500, s.action.outcome.message))]
  {
    if s.action.outcome.Throws? {
      var w := Error(500, s.action.outcome.message);
      assert [w][1..] == [];
      assert Tagged(Dispatcher(s.index), [w]) == [Written(Dispatcher(s.index), w)];
    }
  }

  /** One pass of the loop body: the `try` block calls handler i and reads
      the flag, the `catch` block answers an exception with a 500 error.
      `stop` is whether the loop is left after this pass, `escaped` whether
      it is left because the `catch` block threw. */
  method Attempt(h: Handler, i: nat, behave: Behaviour, res: HttpResponse, req: HttpRequest)
    returns (stop: bool, escaped: bool, ghost s: Step)
    modifies res, req
    ensures s == Step(i, h, old(req.hasEnded), behave(h, old(req.hasEnded)))
    ensures res.log == old(res.log) + Emitted(s)
    ensures req.hasEnded == EndedAfter(s)
    ensures stop == Breaks(s)
    ensures escaped == Escapes(s)
  {
    var action := behave(h, req.hasEnded);
    s := Step(i, h, req.hasEnded, action);
    EmittedParts(s);
    // the call of the handler: its writes and its flag, then return or throw
    res.Write(Tagged(Stage(i), action.writes));
    match action.flag {
      case Keep =>
      case SetEnded => req.SetEnded(true);
      case ClearEnded => req.SetEnded(false);
    }
    match action.outcome {
      case Returns =>
        // returned normally: leave when the request is marked as complete
        stop, escaped := req.hasEnded, false;
      case Throws(message) =>
        // the catch block: a 500 error with the exception's message, then
        // go on with the next handler
        res.Write([Written(Dispatcher(i), Error(500, message))]);
        stop, escaped := false, false;
      case ThrowsNullish =>
        // the catch block fails on `ex.message` before writing anything
        stop, escaped := true, true;
    }
  }

  /** The composed handler run on one request/response pair. The ghost
      result records the calls it made; `rejected` is whether the returned
      promise rejects, which happens exactly when the last call threw
      `null` or `undefined`. */
  method Run(hs: seq<Handler>, behave: Behaviour, res: HttpResponse, req: HttpRequest)
    returns (rejected: bool, ghost steps: seq<Step>)
    modifies res, req
    ensures steps == Steps(hs, behave, 0, old(req.hasEnded))
    ensures res.log == old(res.log) + Log(steps)
    ensures req.hasEnded == FinalEnded(old(req.hasEnded), steps)
    ensures rejected <==> Rejects(steps)
  {
    ghost var full := Steps(hs, behave, 0, req.hasEnded);
    steps := [];
    rejected := false;
    var i := 0;
    while i < |hs|
      invariant i <= |hs|
      invariant steps + Steps(hs, behave, i, req.hasEnded) == full
      invariant res.log == old(res.log) + Log(steps)
      invariant req.hasEnded == FinalEnded(old(req.hasEnded), steps)
      invariant !rejected && !Rejects(steps)
    {
      var stop, escaped, s := Attempt(hs[i], i, behave, res, req);
      StepsUnfold(hs, behave, i, full, steps, s);
      Advance(old(res.log), steps, s, old(req.hasEnded), res.log);
      steps := steps + [s];
      if stop {
        rejected := escaped;
        break;
      }
      i := i + 1;
    }
  }

  /** What `o` writes while the loop handles `s`. */
  function Part(s: Step, o: Origin): seq<Reply>
  {
    if o == Stage(s.index) then s.action.writes
    else if o == Dispatcher(s.index) then Caught(s)
    else []
  }

  lemma EmittedByOrigin(s: Step, o: Origin)
    ensures ByOrigin(Emitted(s), o) == Part(s, o)
  {
    ByOriginConcat(Tagged(Stage(s.index), s.action.writes), Tagged(Dispatcher(s.index), Caught(s)), o);
    TaggedByOrigin(Stage(s.index), s.action.writes, o);
    TaggedByOrigin(Dispatcher(s.index), Caught(s), o);
  }

  /** What handler i writes while the loop makes the calls `ss` at
      positions k on: the writes of its own call, if it is among them. */
  lemma {:induction false} LogStage(ss: seq<Step>, k: nat, i: nat)
    requires forall j | 0 <= j < |ss| :: ss[j].index == k + j
    ensures ByOrigin(Log(ss), Stage(i)) == if k <= i < k + |ss| then ss[i - k].action.writes else []
  {
    if ss == [] {
      assert Log(ss) == [];
    } else {
      var tail := ss[1..];
      assert ByOrigin(Log(tail), Stage(i)) == if k + 1 <= i < k + |ss| then tail[i - k - 1].action.writes else [] by {
        LogStage(tail, k + 1, i);
      }
      assert ByOrigin(Log(ss), Stage(i)) == Part(ss[0], Stage(i)) + ByOrigin(Log(tail), Stage(i)) by {
        assert Log(ss) == Emitted(ss[0]) + Log(tail);
        ByOriginConcat(Emitted(ss[0]), Log(tail), Stage(i));
        EmittedByOrigin(ss[0], Stage(i));
      }
      if i != k {
        assert Part(ss[0], Stage(i)) == [];
      }
    }
  }

  /** What the `catch` block writes for handler i while the loop makes the
      calls `ss` at positions k on. */
  lemma {:induction false} LogDispatcher(ss: seq<Step>, k: nat, i: nat)
    requires forall j | 0 <= j < |ss| :: ss[j].index == k + j
    ensures ByOrigin(Log(ss), Dispatcher(i)) == if k <= i < k + |ss| then Caught(ss[i - k]) else []
  {
    if ss == [] {
      assert Log(ss) == [];
    } else {
      var tail := ss[1..];
      assert ByOrigin(Log(tail), Dispatcher(i)) == if k + 1 <= i < k + |ss| then Caught(tail[i - k - 1]) else [] by {
        LogDispatcher(tail, k + 1, i);
      }
      assert ByOrigin(Log(ss), Dispatcher(i)) == Part(ss[0], Dispatcher(i)) + ByOrigin(Log(tail), Dispatcher(i)) by {
        assert Log(ss) == Emitted(ss[0]) + Log(tail);
        ByOriginConcat(Emitted(ss[0]), Log(tail), Dispatcher(i));
        EmittedByOrigin(ss[0], Dispatcher(i));
      }
      if i != k {
        assert Part(ss[0], Dispatcher(i)) == [];
      }
    }
  }

  /** The loop never writes as the catch-all route. */
  lemma {:induction false} LogCatchAll(ss: seq<Step>)
    ensures ByOrigin(Log(ss), CatchAll) == []
  {
    if ss == [] {
      assert Log(ss) == [];
    } else {
      assert ByOrigin(Log(ss[1..]), CatchAll) == [] by {
        LogCatchAll(ss[1..]);
      }
      assert ByOrigin(Log(ss), CatchAll) == Part(ss[0], CatchAll) + ByOrigin(Log(ss[1..]), CatchAll) by {
        assert Log(ss) == Emitted(ss[0]) + Log(ss[1..]);
        ByOriginConcat(Emitted(ss[0]), Log(ss[1..]), CatchAll);
        EmittedByOrigin(ss[0], CatchAll);
      }
    }
  }

  /** Each called handler did what the behaviour prescribes for the flag it
      saw; the first saw the flag the loop began with, and every later one
      saw the flag as its predecessor left it. */
  lemma {:induction false} FlagThreaded(hs: seq<Handler>, behave: Behaviour, k: nat, ended: bool)
    requires k <= |hs|
    ensures var r := Steps(hs, behave, k, ended);
      && (r != [] ==> r[0].seen == ended)
      && (forall j | 0 <= j < |r| :: r[j].action == behave(r[j].handler, r[j].seen))
      && (forall j | 0 <= j < |r| - 1 :: r[j + 1].seen == EndedAfter(r[j]))
    decreases |hs| - k
  {
    if k < |hs| {
      var s := Step(k, hs[k], ended, behave(hs[k], ended));
      if !Breaks(s) {
        FlagThreaded(hs, behave, k + 1, EndedAfter(s));
      }
    }
  }

  /** The loop goes on past a called handler exactly when that call did not
      leave the loop and there is a next handler: a returned handler with
      the flag set is the last one called (short-circuit), so is one that
      threw `null` or `undefined`, and a handler whose exception the `catch`
      block answers is always followed by the next one, whatever the flag.
      A non-empty chain always has its first handler called. */
  lemma {:induction false} ContinuesUnlessBreaks(hs: seq<Handler>, behave: Behaviour, k: nat, ended: bool)
    requires k <= |hs|
    ensures var r := Steps(hs, behave, k, ended);
      && (k < |hs| ==> r != [])
      && (forall j | 0 <= j < |r| :: (j + 1 < |r| <==> !Breaks(r[j]) && k + j + 1 < |hs|))
    decreases |hs| - k
  {
    if k < |hs| {
      var s := Step(k, hs[k], ended, behave(hs[k], ended));
      if !Breaks(s) {
        ContinuesUnlessBreaks(hs, behave, k + 1, EndedAfter(s));
      }
    }
  }

  /** No call leaves the loop exactly when every handler of the chain is
      called and the last call does not leave it; a call that leaves the
      loop is the last one made. */
  lemma RunsAllUnlessBroken(hs: seq<Handler>, behave: Behaviour, ended: bool)
    ensures var r := Steps(hs, behave, 0, ended);
      && ((forall j | 0 <= j < |r| :: !Breaks(r[j])) <==> |r| == |hs| && (hs == [] || !Breaks(r[|r| - 1])))
      && (forall j | 0 <= j < |r| && Breaks(r[j]) :: j == |r| - 1)
  {
    ContinuesUnlessBreaks(hs, behave, 0, ended);
  }

  /** The writes of one request, sorted by writer: handler i's own replies
      appear exactly as it wrote them if it was called and not at all
      otherwise; the dispatcher writes for handler i exactly one 500 error
      with the exception's message when handler i was called and threw, and
      nothing else, in particular nothing when the chain runs out. */
  lemma WritesByOrigin(hs: seq<Handler>, behave: Behaviour, ended: bool, i: nat)
    ensures var r := Steps(hs, behave, 0, ended);
      && ByOrigin(Log(r), Stage(i)) == (if i < |r| then r[i].action.writes else [])
      && ByOrigin(Log(r), Dispatcher(i)) ==
           (if i < |r| && r[i].action.outcome.Throws? then [Error(500, r[i].action.outcome.message)] else [])
      && ByOrigin(Log(r), CatchAll) == []
  {
    LogWrites(Steps(hs, behave, 0, ended), i);
  }

  /** `WritesByOrigin` for any calls at positions 0, 1, ... */
  lemma LogWrites(r: seq<Step>, i: nat)
    requires forall j | 0 <= j < |r| :: r[j].index == j
    ensures ByOrigin(Log(r), Stage(i)) == (if i < |r| then r[i].action.writes else [])
    ensures ByOrigin(Log(r), Dispatcher(i)) ==
      (if i < |r| && r[i].action.outcome.Throws? then [Error(500, r[i].action.outcome.message)] else [])
    ensures ByOrigin(Log(r), CatchAll) == []
  {
    LogStage(r, 0, i);
    LogDispatcher(r, 0, i);
    LogCatchAll(r);
    if i < |r| {
      CaughtOf(r[i]);
    }
  }


  /** Once a handler has seen the flag set, every later handler sees it set
      too, and so does the request after the loop, unless one of them clears
      it: the dispatcher itself never does, also not in its `catch` block. */
  lemma {:induction false} EndedStaysEnded(hs: seq<Handler>, behave: Behaviour, ended: bool, i: nat)
    ensures var r := Steps(hs, behave, 0, ended);
      i < |r| && r[i].seen && (forall j | i <= j < |r| :: r[j].action.flag != ClearEnded) ==>
        (forall j | i <= j < |r| :: r[j].seen) && FinalEnded(ended, r)
    decreases |hs| - i
  {
    var r := Steps(hs, behave, 0, ended);
    FlagThreaded(hs, behave, 0, ended);
    if i + 1 < |r| {
      EndedStaysEnded(hs, behave, ended, i + 1);
      if r[i].seen && r[i].action.flag != ClearEnded {
        assert r[i + 1].seen;
      }
    }
  }

  /** A thrown `null` or `undefined` ends the loop: no later handler is
      called, and the dispatcher writes no 500 error for it. */
  lemma NullishThrowLeavesLoop(hs: seq<Handler>, behave: Behaviour, ended: bool, j: nat)
    requires var r := Steps(hs, behave, 0, ended); j < |r| && r[j].action.outcome.ThrowsNullish?
    ensures var r := Steps(hs, behave, 0, ended);
      j == |r| - 1 && ByOrigin(Log(r), Dispatcher(j)) == []
  {
    ContinuesUnlessBreaks(hs, behave, 0, ended);
    WritesByOrigin(hs, behave, ended, j);
  }

  /** A handler that throws after the response is already complete does not
      end the loop: the next handler is still called, with the flag set
      unless the throwing handler cleared it. */
  lemma RunsAfterEndedWhenThrown(hs: seq<Handler>, behave: Behaviour, ended: bool, j: nat)
    requires j + 1 < |hs|
    requires var r := Steps(hs, behave, 0, ended); j < |r| && r[j].seen && r[j].action.outcome.Throws?
    ensures var r := Steps(hs, behave, 0, ended);
      && j + 1 < |r| && r[j + 1].handler == hs[j + 1]
      && (r[j + 1].seen <==> r[j].action.flag != ClearEnded)
  {
    ContinuesUnlessBreaks(hs, behave, 0, ended);
    FlagThreaded(hs, behave, 0, ended);
  }
}
