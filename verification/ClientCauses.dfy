/** How the result of a request follows from what it met: the token store, the key pool, the breaker and, once it
    has sent, its last reply. */
module ClientCauses {
  import opened Options
  import opened ClientProtocol
  import KeyPool
  import CircuitBreaker

  /** The latest thing that decided about a request. */
  datatype Cause =
    | Nothing
    | TokenMissing | TokenStoreFailed | NoKeyAvailable | BreakerRefused
    | ReplyUnread | ReplyDecoded | ReplyUndecodable | ReplyRefusal | ReplyLost

  predicate AnyKeyAvailable(w: World) {
    exists k :: k in w.order && k in w.pool
      && (w.pool[k].status.Available? || (w.pool[k].status.Cooldown? && w.now >= w.pool[k].cooldownUntil))
  }

  predicate BreakerRefuses(w: World) { w.breaker.state.Open? && w.now < w.breaker.openUntil }

  /** What a step of the request adds, given the world it was taken in. */
  function CauseAfter(w: World, c: string, before: Cause, step: Step): Cause {
    if c !in w.calls then before else
      match step
      case GetToken(d, token) =>
        if d != c || !w.calls[c].pc.Holding? then before
        else if token.Missing? then TokenMissing else if token.Raised? then TokenStoreFailed else before
      case GetKey(d) =>
        if d == c && w.calls[c].pc.Holding? && !AnyKeyAvailable(w) then NoKeyAvailable else before
      case Admit(d) =>
        if d == c && w.calls[c].pc.Keyed? && BreakerRefuses(w) then BreakerRefused else before
      case Send(d, reply) =>
        if d != c || !w.calls[c].pc.Sending? then before
        else if reply.Ok? then ReplyUnread else if reply.Error? then ReplyRefusal else ReplyLost
      case Parse(d, ok) =>
        if d != c || !w.calls[c].pc.Metered? then before else if ok then ReplyDecoded else ReplyUndecodable
      case _ => before
  }

  ghost function CauseOf(w: World, steps: seq<Step>, c: string): Cause
    decreases |steps|
  {
    if steps == [] then Nothing
    else CauseAfter(Run(w, steps[..|steps| - 1]), c, CauseOf(w, steps[..|steps| - 1], c), steps[|steps| - 1])
  }

  /** A request fails with a YouTubeAPIError exactly for these causes. */
  predicate IsApiCause(cause: Cause) { cause.TokenMissing? || cause.NoKeyAvailable? || cause.ReplyRefusal? }

  predicate IsOtherCause(cause: Cause) {
    cause.TokenStoreFailed? || cause.BreakerRefused? || cause.ReplyUndecodable? || cause.ReplyLost?
  }

  predicate Explains(cause: Cause, f: Failure) { if f.ApiFailure? then IsApiCause(cause) else IsOtherCause(cause) }

  predicate OfReply(cause: Cause) { cause.ReplyUndecodable? || cause.ReplyRefusal? || cause.ReplyLost? }

  /** The place of a request agrees with what it last met. */
  predicate Fits(call: Call, cause: Cause) {
    match call.pc
    case Holding => cause.Nothing?
    case Keyed(_) => cause.Nothing?
    case Sending(_) => if call.sends == 0 then cause.Nothing? else OfReply(cause)
    case Answered(_) => cause.ReplyUnread?
    case Credited(_) => cause.ReplyUnread?
    case Metered(_) => cause.ReplyUnread?
    case Refused(_, _) => cause.ReplyRefusal?
    case Attempted(_, f) => OfReply(cause) && Explains(cause, f)
    case Returned => cause.ReplyDecoded?
    case GaveUp(f) => OfReply(cause) && Explains(cause, f)
    case Settling => cause.ReplyDecoded?
    case Failing(f) => Explains(cause, f) && (call.sends > 0 ==> OfReply(cause))
    case Done(result) =>
      if result.None? then cause.ReplyDecoded?
      else Explains(cause, result.value) && (call.sends > 0 ==> OfReply(cause))
  }

  lemma PickedIffAvailable(w: World)
    ensures Picked(w).Some? <==> AnyKeyAvailable(w)
  {
    var ready := KeyPool.Refreshed(w.pool, w.now);
    assert forall k :: KeyPool.Usable(ready, k) <==>
      k in w.pool && (w.pool[k].status.Available? || (w.pool[k].status.Cooldown? && w.now >= w.pool[k].cooldownUntil));
  }

  lemma CallFits(w: World, c: string, call: Call, cause: Cause, step: Step)
    requires !step.Tick? && !step.Begin? && step.c == c && c in w.calls && w.calls[c] == call && Fits(call, cause)
    requires CountsOk(call)
    ensures Fits(CallAfter(step, call, Picked(w), CircuitBreaker.Admits(w.breaker, w.now)),
                 CauseAfter(w, c, cause, step))
  {
    PickedIffAvailable(w);
  }

  lemma StepFits(w: World, step: Step, c: string, cause: Cause)
    requires WorldOk(w) && (if c in w.calls then Fits(w.calls[c], cause) else cause.Nothing?)
    ensures var after, more := Next(w, step), CauseAfter(w, c, cause, step);
            if c in after.calls then Fits(after.calls[c], more) else more.Nothing?
  {
    if !step.Tick? && !step.Begin? && step.c == c && c in w.calls {
      assert CountsOk(w.calls[c]);
      CallFits(w, c, w.calls[c], cause, step);
    }
  }

  lemma {:induction false} EveryRunFits(limit: int, order: seq<string>, pool: KeyPool.Pool, cfg: CircuitBreaker.Config,
                                        steps: seq<Step>, c: string)
    ensures var start := Fresh(limit, order, pool, cfg);
            var w, cause := Run(start, steps), CauseOf(start, steps, c);
            if c in w.calls then Fits(w.calls[c], cause) else cause.Nothing?
    decreases |steps|
  {
    if steps != [] {
      var start, before := Fresh(limit, order, pool, cfg), steps[..|steps| - 1];
      EveryRunFits(limit, order, pool, cfg, before, c);
      EveryRunIsOk(limit, order, pool, cfg, before);
      StepFits(Run(start, before), steps[|steps| - 1], c, CauseOf(start, before, c));
    }
  }

  /** A finished request succeeded exactly if its last reply decoded; it ended in a YouTubeAPIError exactly if its last
      reply was a refusal or, before any send, the token was missing or no key was available; and in another error
      exactly if its last reply was lost or did not decode or, before any send, the token store failed or the breaker
      refused. Once it has sent, only the last reply decides. */
  predicate ResultFollows(result: Option<Failure>, sends: nat, cause: Cause) {
    && (result == None <==> cause.ReplyDecoded?)
    && (result == Some(ApiFailure) <==> cause.ReplyRefusal? || cause.TokenMissing? || cause.NoKeyAvailable?)
    && (result == Some(OtherFailure)
        <==> cause.ReplyLost? || cause.ReplyUndecodable? || cause.TokenStoreFailed? || cause.BreakerRefused?)
    && (sends > 0 ==> cause.ReplyDecoded? || cause.ReplyRefusal? || cause.ReplyLost? || cause.ReplyUndecodable?)
  }

  lemma FittingResultFollows(call: Call, cause: Cause)
    requires Fits(call, cause) && call.pc.Done?
    ensures ResultFollows(call.pc.result, call.sends, cause)
  {
  }

  /** Main result: on every run of any number of requests, the result of a finished one follows from what it met. */
  lemma ResultFollowsCause(limit: int, order: seq<string>, pool: KeyPool.Pool, cfg: CircuitBreaker.Config,
                           steps: seq<Step>, c: string)
    requires var w := Run(Fresh(limit, order, pool, cfg), steps); c in w.calls && w.calls[c].pc.Done?
    ensures var start := Fresh(limit, order, pool, cfg);
            var call := Run(start, steps).calls[c];
            ResultFollows(call.pc.result, call.sends, CauseOf(start, steps, c))
  {
    EveryRunFits(limit, order, pool, cfg, steps, c);
    var start := Fresh(limit, order, pool, cfg);
    FittingResultFollows(Run(start, steps).calls[c], CauseOf(start, steps, c));
  }

  // ----- what the breaker hears -----

  /** The event a step means for the breaker: a check for an admission, and for a request that is through with its
      sends a success if its last reply decoded and a failure otherwise. */
  ghost function HeardIn(w: World, step: Step, cause: Cause): seq<CircuitBreaker.Event> {
    if step.Admit? && step.c in w.calls && w.calls[step.c].pc.Keyed? then
      [CircuitBreaker.Event(CircuitBreaker.Check, w.now)]
    else if step.Tell? && step.c in w.calls && (w.calls[step.c].pc.Returned? || w.calls[step.c].pc.GaveUp?) then
      [CircuitBreaker.Event(if cause.ReplyDecoded? then CircuitBreaker.Success else CircuitBreaker.Failure, w.now)]
    else []
  }

  ghost function Heard(w: World, steps: seq<Step>): seq<CircuitBreaker.Event>
    decreases |steps|
  {
    if steps == [] then [] else
      var before, last := steps[..|steps| - 1], steps[|steps| - 1];
      Heard(w, before)
      + HeardIn(Run(w, before), last, if last.Tick? then Nothing else CauseOf(w, before, last.c))
  }

  lemma HeardByBreaker(cfg: CircuitBreaker.Config, events: seq<CircuitBreaker.Event>, e: CircuitBreaker.Event)
    ensures CircuitBreaker.Run(cfg, events + [e]) == CircuitBreaker.Next(cfg, CircuitBreaker.Run(cfg, events), e)
  {
    assert (events + [e])[..|events|] == events;
  }

  lemma StepHeard(w: World, step: Step, cause: Cause, events: seq<CircuitBreaker.Event>)
    requires !step.Tick? && step.c in w.calls ==> Fits(w.calls[step.c], cause)
    requires w.breaker == CircuitBreaker.Run(w.cfg, events)
    ensures Next(w, step).breaker == CircuitBreaker.Run(w.cfg, events + HeardIn(w, step, cause))
    ensures Next(w, step).cfg == w.cfg
  {
    var heard := HeardIn(w, step, cause);
    if heard == [] {
      assert events + heard == events;
    } else {
      HeardByBreaker(w.cfg, events, heard[0]);
      assert heard == [heard[0]];
    }
  }

  /** Main result: on every run the breaker of the client is the breaker that has heard exactly these events. */
  lemma {:induction false} BreakerHearsResults(
      limit: int, order: seq<string>, pool: KeyPool.Pool, cfg: CircuitBreaker.Config, steps: seq<Step>)
    ensures var start := Fresh(limit, order, pool, cfg);
            && Run(start, steps).breaker == CircuitBreaker.Run(cfg, Heard(start, steps))
            && Run(start, steps).cfg == cfg
    decreases |steps|
  {
    if steps != [] {
      var start, before, last := Fresh(limit, order, pool, cfg), steps[..|steps| - 1], steps[|steps| - 1];
      BreakerHearsResults(limit, order, pool, cfg, before);
      if last.Tick? {
        StepHeard(Run(start, before), last, Nothing, Heard(start, before));
      } else {
        EveryRunFits(limit, order, pool, cfg, before, last.c);
        StepHeard(Run(start, before), last, CauseOf(start, before, last.c), Heard(start, before));
      }
    }
  }
}
