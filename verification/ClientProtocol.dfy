/** Many concurrent API requests as interleaved atomic steps over one quota manager, one key pool and
    one circuit breaker. */
module ClientProtocol {
  import opened Options
  import opened Sums
  import opened Q = Quota
  import KeyPool
  import CircuitBreaker

  const MAX_RETRIES := 2

  /** Whether the exception a request ends in is a YouTubeAPIError; a key pool without an available
      key and a missing OAuth token raise one, a rejecting circuit breaker and a transport or decoding
      error do not. */
  datatype Failure = ApiFailure | OtherFailure

  datatype Pc =
    | Holding
    | Keyed(key: Option<string>)
    | Sending(key: Option<string>)
    | Answered(key: Option<string>)
    | Credited(key: Option<string>)
    | Metered(key: Option<string>)
    | Refused(key: Option<string>, error: KeyPool.ApiError)
    | Attempted(key: Option<string>, failure: Failure)
    | Returned
    | GaveUp(failure: Failure)
    | Settling
    | Failing(failure: Failure)
    | Done(result: Option<Failure>)

  /** One request: what it costs, where it is, and how often it sent, metered usage, told the breaker
      its outcome, and settled its reservation. The call's id is its reservation's. */
  datatype Call = Call(cost: nat, pc: Pc, sends: nat, meters: nat, outcomes: nat, settled: nat)

  datatype World = World(
    quota: Quota, order: seq<string>, pool: KeyPool.Pool,
    cfg: CircuitBreaker.Config, breaker: CircuitBreaker.Breaker,
    day: nat, now: real, calls: map<string, Call>)

  datatype Token = Granted | Missing | Raised

  datatype Reply = Ok | Error(e: KeyPool.ApiError) | Transport

  datatype Step =
    | Tick(day: nat, now: real)
    | Begin(c: string, cost: nat)
    | GetToken(c: string, token: Token)
    | GetKey(c: string)
    | Admit(c: string)
    | Send(c: string, reply: Reply)
    | Credit(c: string)
    | Meter(c: string)
    | Parse(c: string, ok: bool)
    | Report(c: string)
    | Retry(c: string)
    | Tell(c: string)
    | Settle(c: string)

  function Fresh(limit: int, order: seq<string>, pool: KeyPool.Pool, cfg: CircuitBreaker.Config): World {
    World(Quota(limit, map[], map[]), order, pool, cfg, CircuitBreaker.FRESH, 0, 0.0, map[])
  }

  predicate InFlight(call: Call) { !call.pc.Done? }

  /** Errors of a credential the key cannot help are not held against the key. */
  predicate OauthError(e: KeyPool.ApiError) { (e.code == 401 && e.oauthRequired) || e.projectMismatch }

  ghost function Next(w: World, step: Step): World {
    match step
    case Tick(day, now) => if day < w.day || now < w.now then w else w.(day := day, now := now)
    case Begin(c, cost) =>
      if c in w.calls || c in w.quota.reservations || !Fits(w.quota, w.day, cost) then w else
        w.(calls := w.calls[c := Call(cost, Holding, 0, 0, 0, 0)], quota := AfterReserve(w.quota, w.day, c, cost))
    case _ => if step.c in w.calls then Advance(w, step, w.calls[step.c]) else w
  }

  /** A step of one request: what becomes of the request, the pool, the breaker and the quota. A step that
      is not the request's turn changes none of them. */
  ghost function Advance(w: World, step: Step, call: Call): World
    requires !step.Tick? && !step.Begin?
  {
    w.(calls := w.calls[step.c := CallAfter(step, call, Picked(w), CircuitBreaker.Admits(w.breaker, w.now))],
       pool := PoolAfter(w.order, w.pool, w.now, step, call),
       breaker := BreakerAfter(w.cfg, w.breaker, w.now, step, call),
       quota := QuotaAfter(w.quota, w.day, step, call))
  }

  /** The key a selection would give. */
  function Picked(w: World): Option<string> { KeyPool.LeastUsed(w.order, KeyPool.Refreshed(w.pool, w.now)) }

  function CallAfter(step: Step, call: Call, picked: Option<string>, admitted: bool): Call {
    match (step, call.pc)
    case (GetToken(_, token), Holding) =>
      call.(pc := match token
              case Granted => Keyed(None)
              case Missing => Failing(ApiFailure)
              case Raised => Failing(OtherFailure))
    case (GetKey(_), Holding) => call.(pc := if picked.Some? then Keyed(picked) else Failing(ApiFailure))
    case (Admit(_), Keyed(k)) => call.(pc := if admitted then Sending(k) else Failing(OtherFailure))
    case (Send(_, reply), Sending(k)) =>
      call.(sends := call.sends + 1,
            pc := match reply
              case Ok => Answered(k)
              case Error(e) => Refused(k, e)
              case Transport => Attempted(k, OtherFailure))
    case (Credit(_), Answered(k)) => call.(pc := Credited(k))
    case (Meter(_), Credited(k)) => call.(pc := Metered(k), meters := call.meters + 1)
    case (Parse(_, ok), Metered(k)) => call.(pc := if ok then Returned else Attempted(k, OtherFailure))
    case (Report(_), Refused(k, _)) => call.(pc := Attempted(k, ApiFailure))
    case (Retry(_), Attempted(k, f)) => call.(pc := if call.sends > MAX_RETRIES then GaveUp(f) else Sending(k))
    case (Tell(_), Returned) => call.(pc := Settling, outcomes := call.outcomes + 1)
    case (Tell(_), GaveUp(f)) => call.(pc := Failing(f), outcomes := call.outcomes + 1)
    case (Settle(_), Settling) => call.(pc := Done(None), settled := call.settled + 1)
    case (Settle(_), Failing(f)) => call.(pc := Done(Some(f)), settled := call.settled + 1)
    case _ => call
  }

  function PoolAfter(order: seq<string>, pool: KeyPool.Pool, now: real, step: Step, call: Call): KeyPool.Pool {
    match (step, call.pc)
    case (GetKey(_), Holding) => KeyPool.AfterSelect(order, pool, now)
    case (Credit(_), Answered(k)) => if k.Some? then KeyPool.AfterSuccess(pool, k.value) else pool
    case (Meter(_), Credited(k)) => if k.Some? then KeyPool.AfterUsage(pool, k.value, call.cost) else pool
    case (Report(_), Refused(k, e)) =>
      if k.Some? && !OauthError(e) then KeyPool.AfterError(pool, k.value, e, now) else pool
    case _ => pool
  }

  function BreakerAfter(cfg: CircuitBreaker.Config, b: CircuitBreaker.Breaker, now: real, step: Step, call: Call)
    : CircuitBreaker.Breaker
  {
    match (step, call.pc)
    case (Admit(_), Keyed(_)) => CircuitBreaker.AfterCheck(b, now)
    case (Tell(_), Returned) => CircuitBreaker.AfterSuccess(cfg, b)
    case (Tell(_), GaveUp(_)) => CircuitBreaker.AfterFailure(cfg, b, now)
    case _ => b
  }

  ghost function QuotaAfter(q: Quota, day: nat, step: Step, call: Call): Quota
    requires !step.Tick? && !step.Begin?
  {
    if !step.Settle? || !CanSettle(call) then q
    else if SettlesByCharge(call) then AfterConsume(q, day, step.c) else AfterRelease(q, step.c)
  }

  predicate CanSettle(call: Call) { call.pc.Settling? || call.pc.Failing? }

  predicate SettlesByCharge(call: Call) { call.pc != Failing(OtherFailure) }

  ghost function Run(w: World, steps: seq<Step>): World
    decreases |steps|
  {
    if steps == [] then w else Next(Run(w, steps[..|steps| - 1]), steps[|steps| - 1])
  }

  // ----- the invariant -----

  /** A finished request was charged iff it succeeded or ended in a YouTubeAPIError. */
  predicate Charged(call: Call) { call.pc.Done? && call.pc.result != Some(OtherFailure) }

  ghost function ChargedCosts(calls: map<string, Call>): map<string, int> {
    map c | c in calls && Charged(calls[c]) :: calls[c].cost
  }

  predicate CountsOk(call: Call) {
    && call.meters <= call.sends <= MAX_RETRIES + 1
    && (call.pc.Sending? ==> call.sends <= MAX_RETRIES)
    && (call.pc.Answered? || call.pc.Credited? ==> call.meters < call.sends)
    && call.settled == (if InFlight(call) then 0 else 1)
    && (match call.pc
        case Holding => call.sends == call.outcomes == 0
        case Keyed(_) => call.sends == call.outcomes == 0
        case Settling => call.outcomes == 1 && call.sends >= 1
        case Failing(_) => call.outcomes == (if call.sends == 0 then 0 else 1)
        case Done(r) => call.outcomes == (if call.sends == 0 then 0 else 1) && (r.None? ==> call.sends >= 1)
        case _ => call.outcomes == 0 && (call.pc.Sending? || call.sends >= 1))
  }

  /** The reservations held are exactly those of the requests in flight, at their cost. */
  ghost predicate ReservationsMatch(held: map<string, Reservation>, calls: map<string, Call>) {
    && (forall c :: c in held <==> c in calls && InFlight(calls[c]))
    && (forall c :: c in held ==> held[c] == Reservation(calls[c].cost, false, false))
  }

  ghost predicate AllCountsOk(calls: map<string, Call>) { forall c :: c in calls ==> CountsOk(calls[c]) }

  ghost predicate BooksOk(q: Quota, day: nat, calls: map<string, Call>) {
    && ReservationsMatch(q.reservations, calls)
    && AllCountsOk(calls)
    && Total(q.charged) == Total(ChargedCosts(calls))
    && WithinBudget(q, day)
  }

  ghost predicate WorldOk(w: World) { BooksOk(w.quota, w.day, w.calls) }

  /** The costs charged after one call was added or moved on. */
  lemma ChargedCostsUpdate(calls: map<string, Call>, c: string, call: Call)
    requires c in calls ==> InFlight(calls[c]) || calls[c] == call
    ensures Total(ChargedCosts(calls[c := call]))
            == Total(ChargedCosts(calls))
               + (if Charged(call) && (c !in calls || InFlight(calls[c])) then call.cost else 0)
  {
    var costs := ChargedCosts(calls);
    if Charged(call) {
      TotalUpdate(costs, c, call.cost);
      assert ChargedCosts(calls[c := call]) == costs[c := call.cost];
    } else {
      assert ChargedCosts(calls[c := call]) == costs;
    }
  }

  lemma BeginIsOneStep(w: World, c: string, cost: nat)
    ensures var after := Next(w, Begin(c, cost));
            if c in w.calls || c in w.quota.reservations || !Fits(w.quota, w.day, cost) then after == w
            else after == w.(calls := w.calls[c := Call(cost, Holding, 0, 0, 0, 0)],
                             quota := Q.Next(w.quota, ReserveStep(w.day, c, cost)))
  {
  }

  lemma BeginKeeps(w: World, c: string, cost: nat)
    requires WorldOk(w)
    ensures WorldOk(Next(w, Begin(c, cost)))
  {
    BeginIsOneStep(w, c, cost);
    if c !in w.calls && Fits(w.quota, w.day, cost) {
      StepKeepsBudget(w.quota, w.day, ReserveStep(w.day, c, cost));
      ChargedCostsUpdate(w.calls, c, Call(cost, Holding, 0, 0, 0, 0));
    }
  }

  function QuotaStep(w: World, c: string, call: Call): Q.Step {
    if SettlesByCharge(call) then ConsumeStep(w.day, c) else ReleaseStep(w.day, c)
  }

  /** A settlement is one quota step and finishes one request. */
  lemma SettleIsOneStep(w: World, c: string)
    requires c in w.calls && CanSettle(w.calls[c]) && CountsOk(w.calls[c])
    ensures var after, call := Next(w, Settle(c)), w.calls[c];
            && c in after.calls
            && after == w.(calls := w.calls[c := after.calls[c]], quota := Q.Next(w.quota, QuotaStep(w, c, call)))
            && after.calls[c].cost == call.cost && CountsOk(after.calls[c])
            && !InFlight(after.calls[c]) && Charged(after.calls[c]) == SettlesByCharge(call)
  {
  }

  /** Charging a held reservation adds its cost to the charged total; releasing it adds nothing. */
  lemma QuotaStepCharges(w: World, c: string)
    requires ReservationsMatch(w.quota.reservations, w.calls) && c in w.calls && CanSettle(w.calls[c])
    ensures var after := Q.Next(w.quota, QuotaStep(w, c, w.calls[c]));
            && after.reservations == w.quota.reservations - {c}
            && Total(after.charged)
               == Total(w.quota.charged) + (if SettlesByCharge(w.calls[c]) then w.calls[c].cost else 0)
  {
    TotalUpdate(w.quota.charged, w.day, Used(w.quota.charged, w.day) + w.calls[c].cost);
  }

  lemma SettleKeeps(w: World, c: string)
    requires WorldOk(w) && c in w.calls && CanSettle(w.calls[c])
    ensures WorldOk(Next(w, Settle(c)))
  {
    assert CountsOk(w.calls[c]);
    SettleIsOneStep(w, c);
    QuotaStepCharges(w, c);
    ChargedCostsUpdate(w.calls, c, Next(w, Settle(c)).calls[c]);
    StepKeepsBudget(w.quota, w.day, QuotaStep(w, c, w.calls[c]));
  }

  predicate IsSettlement(step: Step, call: Call) { step.Settle? && CanSettle(call) }

  /** All other steps leave the quota alone and keep a request in flight. */
  lemma CallKeepsCounts(step: Step, call: Call, picked: Option<string>, admitted: bool)
    requires !IsSettlement(step, call) && CountsOk(call)
    ensures var after := CallAfter(step, call, picked, admitted);
            && CountsOk(after) && InFlight(after) == InFlight(call) && after.cost == call.cost
            && (!InFlight(call) ==> after == call)
  {
  }

  lemma AdvanceIsOneStep(w: World, step: Step, call: Call)
    requires !step.Tick? && !step.Begin? && step.c in w.calls && w.calls[step.c] == call
    requires !IsSettlement(step, call)
    ensures var after := Next(w, step);
            && after.calls
               == w.calls[step.c := CallAfter(step, call, Picked(w), CircuitBreaker.Admits(w.breaker, w.now))]
            && after.quota == w.quota && after.day == w.day
  {
  }

  lemma MoveKeeps(q: Quota, day: nat, calls: map<string, Call>, c: string, after: Call)
    requires BooksOk(q, day, calls) && c in calls && CountsOk(after)
    requires InFlight(after) == InFlight(calls[c]) && after.cost == calls[c].cost
    requires !InFlight(calls[c]) ==> after == calls[c]
    ensures BooksOk(q, day, calls[c := after])
  {
    MoveKeepsReservations(q.reservations, calls, c, after);
    MoveKeepsCounts(calls, c, after);
    ChargedCostsUpdate(calls, c, after);
  }

  lemma MoveKeepsReservations(held: map<string, Reservation>, calls: map<string, Call>, c: string, after: Call)
    requires ReservationsMatch(held, calls) && c in calls
    requires InFlight(after) == InFlight(calls[c]) && after.cost == calls[c].cost
    ensures ReservationsMatch(held, calls[c := after])
  {
  }

  lemma MoveKeepsCounts(calls: map<string, Call>, c: string, after: Call)
    requires AllCountsOk(calls) && CountsOk(after)
    ensures AllCountsOk(calls[c := after])
  {
  }

  lemma AdvanceKeeps(w: World, step: Step)
    requires WorldOk(w) && !step.Tick? && !step.Begin? && step.c in w.calls && !IsSettlement(step, w.calls[step.c])
    ensures WorldOk(Next(w, step))
  {
    var call, admitted := w.calls[step.c], CircuitBreaker.Admits(w.breaker, w.now);
    AdvanceIsOneStep(w, step, call);
    CallKeepsCounts(step, call, Picked(w), admitted);
    MoveKeeps(w.quota, w.day, w.calls, step.c, CallAfter(step, call, Picked(w), admitted));
  }

  lemma TickKeeps(w: World, day: nat, now: real)
    requires WorldOk(w)
    ensures WorldOk(Next(w, Tick(day, now)))
  {
    if day >= w.day {
      RolloverKeepsBudget(w.quota, w.day, day);
    }
  }

  lemma StepKeeps(w: World, step: Step)
    requires WorldOk(w)
    ensures WorldOk(Next(w, step))
  {
    if step.Tick? {
      TickKeeps(w, step.day, step.now);
    } else if step.Begin? {
      BeginKeeps(w, step.c, step.cost);
    } else if step.c in w.calls {
      if IsSettlement(step, w.calls[step.c]) {
        SettleKeeps(w, step.c);
      } else {
        AdvanceKeeps(w, step);
      }
    }
  }

  /** Main result: in every reachable state of any number of concurrent requests, exactly the requests
      in flight hold a reservation (so with none in flight nothing is reserved), every finished one
      settled once, none sent more than three times or told the breaker more than one outcome, the
      units charged over all days are the costs of the requests that succeeded or ended in a
      YouTubeAPIError, and no day exceeds the budget. */
  lemma {:induction false} EveryRunIsOk(
      limit: int, order: seq<string>, pool: KeyPool.Pool, cfg: CircuitBreaker.Config, steps: seq<Step>)
    ensures WorldOk(Run(Fresh(limit, order, pool, cfg), steps))
    decreases |steps|
  {
    var start := Fresh(limit, order, pool, cfg);
    if steps == [] {
      FreshManagerIsWithinBudget(limit, map[], 0);
      assert ChargedCosts(start.calls) == map[];
    } else {
      var before := steps[..|steps| - 1];
      EveryRunIsOk(limit, order, pool, cfg, before);
      StepKeeps(Run(start, before), steps[|steps| - 1]);
    }
  }

  // ----- progress -----

  /** An upper bound on the steps a request still takes on its own. */
  function StepsLeft(call: Call): nat {
    var round := if call.sends > MAX_RETRIES then 0 else 6 * (MAX_RETRIES + 1 - call.sends);
    match call.pc
    case Holding => round + 6
    case Keyed(_) => round + 5
    case Sending(_) => round + 4
    case Answered(_) => round + 9
    case Credited(_) => round + 8
    case Metered(_) => round + 7
    case Refused(_, _) => round + 7
    case Attempted(_, _) => round + 5
    case Returned => 2
    case GaveUp(_) => 2
    case Settling => 1
    case Failing(_) => 1
    case Done(_) => 0
  }

  /** The step the request takes next, with some answer from outside. */
  function OwnStep(c: string, call: Call): Step {
    match call.pc
    case Holding => GetKey(c)
    case Keyed(_) => Admit(c)
    case Sending(_) => Send(c, Transport)
    case Answered(_) => Credit(c)
    case Credited(_) => Meter(c)
    case Metered(_) => Parse(c, true)
    case Refused(_, _) => Report(c)
    case Attempted(_, _) => Retry(c)
    case Returned => Tell(c)
    case GaveUp(_) => Tell(c)
    case _ => Settle(c)
  }

  lemma CallDescends(step: Step, call: Call, picked: Option<string>, admitted: bool)
    requires CountsOk(call)
    ensures var after := CallAfter(step, call, picked, admitted); after == call || StepsLeft(after) < StepsLeft(call)
  {
  }

  lemma OwnStepActs(c: string, call: Call, picked: Option<string>, admitted: bool)
    requires InFlight(call)
    ensures var step := OwnStep(c, call);
            !step.Tick? && !step.Begin? && step.c == c && CallAfter(step, call, picked, admitted) != call
  {
  }

  /** Every request finishes: whatever answer a step brings, it takes its request nearer to the end or
      does nothing, and a request in flight always has a step that does something. */
  lemma RequestsFinish(w: World, c: string)
    requires WorldOk(w) && c in w.calls
    ensures forall step: Step :: !step.Tick? && !step.Begin? && step.c == c ==>
              var after := Next(w, step).calls;
              c in after && (after[c] == w.calls[c] || StepsLeft(after[c]) < StepsLeft(w.calls[c]))
    ensures InFlight(w.calls[c]) ==>
              var after := Next(w, OwnStep(c, w.calls[c])).calls; c in after && after[c] != w.calls[c]
  {
    var call, admitted := w.calls[c], CircuitBreaker.Admits(w.breaker, w.now);
    assert CountsOk(call);
    forall step: Step | !step.Tick? && !step.Begin? && step.c == c
      ensures Next(w, step).calls == w.calls[c := CallAfter(step, call, Picked(w), admitted)]
      ensures var after := Next(w, step).calls; after[c] == call || StepsLeft(after[c]) < StepsLeft(call)
    {
      CallDescends(step, call, Picked(w), admitted);
    }
    if InFlight(call) {
      OwnStepActs(c, call, Picked(w), admitted);
    }
  }

  // ----- where the accounting departs from its own description -----

  /** What a settlement charges depends only on the kind of error, not on whether anything was sent:
      a request whose sends all ended in transport errors is released free of charge. */
  lemma SettleChargesUnlessOther(w: World, c: string)
    requires WorldOk(w) && c in w.calls && CanSettle(w.calls[c])
    ensures Total(Next(w, Settle(c)).quota.charged)
            == Total(w.quota.charged) + (if w.calls[c].pc == Failing(OtherFailure) then 0 else w.calls[c].cost)
  {
    assert CountsOk(w.calls[c]);
    SettleIsOneStep(w, c);
    QuotaStepCharges(w, c);
  }

  lemma NoKeyStep(w: World, c: string)
    requires c in w.calls && w.calls[c].pc.Holding?
    requires KeyPool.LeastUsed(w.order, KeyPool.Refreshed(w.pool, w.now)).None?
    ensures var mid := Next(w, GetKey(c));
            c in mid.calls && mid.calls[c] == w.calls[c].(pc := Failing(ApiFailure)) && mid.quota == w.quota
  {
  }

  /** A request that finds no available key is charged its full cost although nothing was sent. */
  lemma ChargedWithoutSending(w: World, c: string)
    requires WorldOk(w) && c in w.calls && w.calls[c].pc.Holding?
    requires KeyPool.LeastUsed(w.order, KeyPool.Refreshed(w.pool, w.now)).None?
    ensures var mid := Next(w, GetKey(c));
            && c in mid.calls && mid.calls[c].sends == 0 && mid.calls[c].pc == Failing(ApiFailure)
            && Total(Next(mid, Settle(c)).quota.charged) == Total(w.quota.charged) + w.calls[c].cost
  {
    assert CountsOk(w.calls[c]);
    NoKeyStep(w, c);
    AdvanceKeeps(w, GetKey(c));
    SettleChargesUnlessOther(Next(w, GetKey(c)), c);
  }
}
