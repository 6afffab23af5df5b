/** One API request from reservation to settlement, against the live quota manager, key pool and
    circuit breaker. */
module Client {
  import opened Options
  import opened Quota
  import opened KeyPool
  import CB = CircuitBreaker
  import Retry
  import opened ClientProtocol

  /** What one HTTP send comes back with; a 200 may carry a body that does not decode. */
  datatype Response = Good(decodes: bool) | Bad(e: ApiError) | NoResponse

  datatype Result = Success | QuotaExceeded | Failed(failure: Failure)

  /** The longest pause between two sends. */
  const MAX_DELAY := 10.0

  /** How an attempt that ends in this response is reported to the retry loop. */
  function AttemptResult(r: Response): Option<Failure> {
    match r
    case Good(decodes) => if decodes then None else Some(OtherFailure)
    case Bad(_) => Some(ApiFailure)
    case NoResponse => Some(OtherFailure)
  }

  /** What an attempt leaves on its key. */
  function AfterAttempt(pool: Pool, key: Option<string>, cost: int, r: Response, now: real): Pool {
    if key.None? then pool else
      match r
      case Good(_) => AfterUsage(AfterSuccess(pool, key.value), key.value, cost)
      case Bad(e) => if OauthError(e) then pool else AfterError(pool, key.value, e, now)
      case NoResponse => pool
  }

  /** The pool after the first `n` attempts; the i-th answer, from 1 on, is handled at `clock(i)`. */
  function AfterAttempts(
      pool: Pool, key: Option<string>, cost: int, script: nat -> Response, clock: nat -> real, n: nat): Pool
  {
    if n == 0 then pool
    else AfterAttempt(AfterAttempts(pool, key, cost, script, clock, n - 1), key, cost, script(n - 1), clock(n))
  }

  /** How often and with what end a request sent: the i-th send gets `script(i)`, one that fails is repeated
      while retries are left, and the last one decides. */
  predicate Ends(failure: Option<Failure>, sends: nat, script: nat -> Response) {
    && sends <= MAX_RETRIES + 1
    && (sends >= 1 ==> failure == AttemptResult(script(sends - 1)) && (failure.None? || sends == MAX_RETRIES + 1))
    && (forall i :: 0 <= i < sends - 1 ==> AttemptResult(script(i)).Some?)
  }

  /** The failure of a request that has sent, by its last reply alone: none for a reply that decodes, an API failure
      for an error response, and another failure for no reply or one that does not decode. */
  predicate AnsweredBy(failure: Option<Failure>, last: Response) {
    && (failure == None <==> last == Good(true))
    && (failure == Some(ApiFailure) <==> last.Bad?)
    && (failure == Some(OtherFailure) <==> last.NoResponse? || last == Good(false))
  }

  /** How often it sent: until the first reply that decodes, and three times if none does. */
  predicate SentUntilDecoded(sends: nat, script: nat -> Response) {
    && 1 <= sends <= 3
    && (forall i :: 0 <= i < sends - 1 ==> script(i) != Good(true))
    && (script(sends - 1) == Good(true) || sends == 3)
  }

  predicate KeyReady(order: seq<string>, keys: Pool, now: real) {
    exists k :: k in order && k in keys
      && (keys[k].status.Available? || (keys[k].status.Cooldown? && now >= keys[k].cooldownUntil))
  }

  /** Whether there was a credential to send with: a token for a write, a ready key for a read. */
  predicate Authorized(oauthWrite: bool, token: Token, order: seq<string>, keys: Pool, now: real) {
    if oauthWrite then token.Granted? else KeyReady(order, keys, now)
  }

  /** Why nothing was sent: no credential, which is an API failure unless the token store raised, or an open breaker,
      which is another failure. */
  predicate UnsentBecause(failure: Option<Failure>, oauthWrite: bool, token: Token, authorized: bool) {
    failure == if authorized || (oauthWrite && token.Raised?) then Some(OtherFailure) else Some(ApiFailure)
  }

  /** How the failure of a request and its number of sends follow from what it found. */
  predicate Explained(failure: Option<Failure>, sends: nat, script: nat -> Response, oauthWrite: bool, token: Token,
                      order: seq<string>, keys: Pool, b: CB.Breaker, now: real)
  {
    var authorized := Authorized(oauthWrite, token, order, keys, now);
    if !authorized || (b.state.Open? && now < b.openUntil)
    then sends == 0 && UnsentBecause(failure, oauthWrite, token, authorized)
    else SentUntilDecoded(sends, script) && AnsweredBy(failure, script(sends - 1))
  }

  lemma SelectionFindsReady(order: seq<string>, keys: Pool, now: real)
    ensures LeastUsed(order, Refreshed(keys, now)).Some? <==> KeyReady(order, keys, now)
  {
    var ready := Refreshed(keys, now);
    assert forall k :: Usable(ready, k) <==>
      k in keys && (keys[k].status.Available? || (keys[k].status.Cooldown? && now >= keys[k].cooldownUntil));
  }

  lemma EndsAreExplained(failure: Option<Failure>, sends: nat, script: nat -> Response)
    requires Ends(failure, sends, script) && sends >= 1
    ensures SentUntilDecoded(sends, script) && AnsweredBy(failure, script(sends - 1))
  {
  }

  /** What an admitted request tells the breaker. */
  function Told(cfg: CB.Config, checked: CB.Breaker, failure: Option<Failure>, now: real): CB.Breaker {
    if failure.None? then CB.AfterSuccess(cfg, checked) else CB.AfterFailure(cfg, checked, now)
  }

  predicate Paused(delays: seq<real>, sends: nat, base: real) {
    && |delays| == (if sends == 0 then 0 else sends - 1)
    && forall i :: 0 <= i < |delays| ==> delays[i] == Retry.Delay(base, MAX_DELAY, i + 1)
  }

  /** How the token of a write ends the authorization; a raising token store is no API error. */
  function TokenFailure(token: Token): Option<Failure> {
    match token
    case Granted => None
    case Missing => Some(ApiFailure)
    case Raised => Some(OtherFailure)
  }

  /** What an attempt does to the record of its key: a reply in time counts a success and the cost, an error that is
      the key's fault is punished, and nothing else changes anything. */
  lemma AttemptOnKey(pool: Pool, k: string, cost: int, r: Response, now: real)
    requires k in pool
    ensures var after := AfterAttempt(pool, Some(k), cost, r, now);
            && (r.Good? ==> after == pool[k := pool[k].(errors := 0, successes := pool[k].successes + 1,
                                                        usage := pool[k].usage + cost)])
            && (r.Bad? && (r.e.projectMismatch || (r.e.code == 401 && r.e.oauthRequired)) ==> after == pool)
            && (r.Bad? && !(r.e.projectMismatch || (r.e.code == 401 && r.e.oauthRequired)) ==>
                  after == pool[k := Punish(pool[k], r.e, now)])
            && (r.NoResponse? ==> after == pool)
    ensures AfterAttempt(pool, None, cost, r, now) == pool
  {
  }

  /** The steps of one attempt among many requests leave on the pool what the attempt of a single one leaves. */
  lemma AttemptIsProtocol(
      order: seq<string>, pool: Pool, now: real, call: Call, c: string, key: Option<string>, e: ApiError, decodes: bool)
    ensures PoolAfter(order, PoolAfter(order, pool, now, Credit(c), call.(pc := Answered(key))), now, Meter(c),
                      call.(pc := Credited(key)))
            == AfterAttempt(pool, key, call.cost, Good(decodes), now)
    ensures PoolAfter(order, pool, now, Report(c), call.(pc := Refused(key, e)))
            == AfterAttempt(pool, key, call.cost, Bad(e), now)
  {
  }

  class YouTubeClient {
    const quota: QuotaManager
    const pool: ApiKeyPool
    const breaker: CB.CircuitBreaker

    constructor (quota: QuotaManager, pool: ApiKeyPool, breaker: CB.CircuitBreaker)
      ensures this.quota == quota && this.pool == pool && this.breaker == breaker
    {
      this.quota, this.pool, this.breaker := quota, pool, breaker;
    }

    ghost predicate Valid()
      reads pool
    {
      pool.Valid()
    }

    /** One attempt: interprets the response and keeps the key's record. */
    method DoHttp(key: Option<string>, cost: int, response: Response, now: real) returns (failure: Option<Failure>)
      modifies pool
      ensures failure == AttemptResult(response)
      ensures failure == None <==> response == Good(true)
      ensures failure == Some(ApiFailure) <==> response.Bad?
      ensures pool.keys == AfterAttempt(old(pool.keys), key, cost, response, now)
      ensures pool.keys.Keys == old(pool.keys.Keys)
    {
      match response {
        case Good(decodes) =>
          if key.Some? {
            pool.RecordSuccess(key.value);
            pool.RecordUsage(key.value, cost);
          }
          failure := if decodes then None else Some(OtherFailure);
        case Bad(e) =>
          if key.Some? && !OauthError(e) {
            pool.RecordError(key.value, e, now);
          }
          failure := Some(ApiFailure);
        case NoResponse =>
          failure := Some(OtherFailure);
      }
    }

    /** Obtains the credential: a token for a write, a key otherwise. */
    method Authorize(oauthWrite: bool, token: Token, now: real) returns (key: Option<string>, failure: Option<Failure>)
      requires Valid()
      modifies pool
      ensures Valid()
      ensures oauthWrite ==> key == None && pool.keys == old(pool.keys) && failure == TokenFailure(token)
      ensures !oauthWrite ==> pool.keys == AfterSelect(pool.order, old(pool.keys), now)
      ensures !oauthWrite ==> key == LeastUsed(pool.order, Refreshed(old(pool.keys), now))
      ensures !oauthWrite ==> failure == if key.None? then Some(ApiFailure) else None
    {
      key, failure := None, None;
      if oauthWrite {
        failure := TokenFailure(token);
      } else {
        key := pool.GetAvailableKey(now);
        if key.None? {
          failure := Some(ApiFailure);
        }
      }
    }

    /** The retry loop: sends until an attempt succeeds or the retries are used up, pausing in between. */
    method SendWithRetries(key: Option<string>, cost: int, script: nat -> Response, clock: nat -> real, base: real)
      returns (failure: Option<Failure>, sends: nat, delays: seq<real>)
      requires Valid()
      modifies pool
      ensures Valid() && sends >= 1 && Ends(failure, sends, script) && Paused(delays, sends, base)
      ensures pool.keys == AfterAttempts(old(pool.keys), key, cost, script, clock, sends)
    {
      failure := DoHttp(key, cost, script(0), clock(1));
      sends, delays := 1, [];
      while failure.Some? && sends <= MAX_RETRIES
        invariant Valid() && 1 <= sends <= MAX_RETRIES + 1
        invariant failure == AttemptResult(script(sends - 1))
        invariant forall i :: 0 <= i < sends - 1 ==> AttemptResult(script(i)).Some?
        invariant Paused(delays, sends, base)
        invariant pool.keys == AfterAttempts(old(pool.keys), key, cost, script, clock, sends)
        decreases MAX_RETRIES + 1 - sends
      {
        delays := delays + [Retry.Delay(base, MAX_DELAY, sends)];
        failure := DoHttp(key, cost, script(sends), clock(sends + 1));
        sends := sends + 1;
      }
    }

    /** The retry loop under the breaker, which is asked at `clock(0)`. */
    method Execute(key: Option<string>, cost: int, script: nat -> Response, clock: nat -> real, base: real)
      returns (failure: Option<Failure>, sends: nat, delays: seq<real>)
      requires Valid()
      modifies pool, breaker
      ensures Valid() && Ends(failure, sends, script) && Paused(delays, sends, base)
      ensures sends == 0 <==> !CB.Admits(old(breaker.Value()), clock(0))
      ensures sends == 0 ==> failure == Some(OtherFailure)
      ensures pool.keys == AfterAttempts(old(pool.keys), key, cost, script, clock, sends)
      ensures var checked := CB.AfterCheck(old(breaker.Value()), clock(0));
              breaker.Value() == if sends == 0 then checked else Told(breaker.cfg, checked, failure, clock(sends))
      ensures var checked := CB.AfterCheck(old(breaker.Value()), clock(0));
              && (sends >= 1 && failure.None? ==> breaker.Value() == CB.AfterSuccess(breaker.cfg, checked))
              && (sends >= 1 && failure.Some? ==>
                    breaker.Value() == CB.AfterFailure(breaker.cfg, checked, clock(sends)))
    {
      var admitted := breaker.CanExecute(clock(0));
      if !admitted {
        return Some(OtherFailure), 0, [];
      }
      failure, sends, delays := SendWithRetries(key, cost, script, clock, base);
      if failure.None? {
        breaker.RecordSuccess();
      } else {
        breaker.RecordFailure(clock(sends));
      }
    }

    /** The part of a request that runs under its reservation. Without a credential nothing is sent and the
        breaker is not asked. */
    method Perform(cost: nat, oauthWrite: bool, token: Token, script: nat -> Response, clock: nat -> real, base: real)
      returns (failure: Option<Failure>, sends: nat, delays: seq<real>)
      requires Valid()
      modifies pool, breaker
      ensures Valid() && Ends(failure, sends, script) && Paused(delays, sends, base)
      ensures Performed(old(pool.keys), old(breaker.Value()), cost, oauthWrite, token, script, clock, failure, sends)
      ensures Explained(failure, sends, script, oauthWrite, token, pool.order, old(pool.keys), old(breaker.Value()),
                        clock(0))
    {
      SelectionFindsReady(pool.order, pool.keys, clock(0));
      var key;
      sends, delays := 0, [];
      key, failure := Authorize(oauthWrite, token, clock(0));
      if failure.None? {
        failure, sends, delays := Execute(key, cost, script, clock, base);
        if sends >= 1 {
          EndsAreExplained(failure, sends, script);
        }
      }
    }

    /** What a request leaves of the pool and the breaker it found. */
    ghost predicate Performed(keys: Pool, before: CB.Breaker, cost: nat, oauthWrite: bool, token: Token,
                              script: nat -> Response, clock: nat -> real, failure: Option<Failure>, sends: nat)
      reads pool, breaker
    {
      var key := if oauthWrite then None else LeastUsed(pool.order, Refreshed(keys, clock(0)));
      var selected := if oauthWrite then keys else AfterSelect(pool.order, keys, clock(0));
      var denied := if oauthWrite then TokenFailure(token) else if key.None? then Some(ApiFailure) else None;
      var checked := CB.AfterCheck(before, clock(0));
      && pool.keys == AfterAttempts(selected, key, cost, script, clock, sends)
      && (sends == 0 <==> denied.Some? || !CB.Admits(before, clock(0)))
      && (sends == 0 ==> failure == if denied.Some? then denied else Some(OtherFailure))
      && breaker.Value() == (if denied.Some? then before else if sends == 0 then checked
                             else Told(breaker.cfg, checked, failure, clock(sends)))
    }

    method Settle(day: nat, id: string, failure: Option<Failure>)
      requires id in quota.reservations && quota.reservations[id].Active()
      modifies quota
      ensures quota.reservations == old(quota.reservations) - {id}
      ensures quota.charged == if failure == Some(OtherFailure) then old(quota.charged)
              else old(quota.charged)[day := Used(old(quota.charged), day) + old(quota.reservations)[id].units]
    {
      if failure.None? {
        var _ := quota.Consume(day, id);
      } else if failure.value.ApiFailure? {
        quota.RecordFailure(day, id, true);
      } else {
        quota.ReleaseIfFailedBeforeRequest(id);
      }
    }

    /** A request whose reservation was granted: run and settle. */
    method RunReserved(settleDay: nat, id: string, cost: nat, oauthWrite: bool, token: Token,
                       script: nat -> Response, clock: nat -> real, base: real)
      returns (failure: Option<Failure>, sends: nat, delays: seq<real>)
      requires Valid() && id in quota.reservations && quota.reservations[id] == Reservation(cost, false, false)
      modifies quota, pool, breaker
      ensures Valid() && quota.reservations == old(quota.reservations) - {id}
      ensures quota.charged == if failure == Some(OtherFailure) then old(quota.charged)
              else old(quota.charged)[settleDay := Used(old(quota.charged), settleDay) + cost]
      ensures Ends(failure, sends, script) && Paused(delays, sends, base)
      ensures Performed(old(pool.keys), old(breaker.Value()), cost, oauthWrite, token, script, clock, failure, sends)
      ensures Explained(failure, sends, script, oauthWrite, token, pool.order, old(pool.keys), old(breaker.Value()),
                        clock(0))
    {
      failure, sends, delays := Perform(cost, oauthWrite, token, script, clock, base);
      Settle(settleDay, id, failure);
    }

    method Hold(day: nat, id: string, cost: nat) returns (granted: bool)
      requires id !in quota.reservations
      modifies quota
      ensures granted <==> Fits(old(quota.Value()), day, cost)
      ensures quota.charged == old(quota.charged)
      ensures quota.reservations
              == if granted then old(quota.reservations)[id := Reservation(cost, false, false)]
                 else old(quota.reservations)
    {
      granted := quota.Reserve(day, id, cost);
    }

    /** Reserve, run, settle. Whatever the outcome the reservation is gone afterwards: charged on
        success and on an API error, to the day of the settlement, and released on any other error; and once it
        has sent, which of these it is depends on the last reply alone. A refused reservation has no effect at all. */
    method Request(day: nat, settleDay: nat, id: string, cost: nat, oauthWrite: bool, token: Token,
                   script: nat -> Response, clock: nat -> real, base: real)
      returns (result: Result, sends: nat, delays: seq<real>)
      requires Valid() && id !in quota.reservations
      modifies quota, pool, breaker
      ensures Valid() && quota.reservations == old(quota.reservations)
      ensures result == QuotaExceeded <==> !Fits(old(quota.Value()), day, cost)
      ensures result == QuotaExceeded ==>
                sends == 0 && pool.keys == old(pool.keys) && breaker.Value() == old(breaker.Value())
      ensures quota.charged == if result == QuotaExceeded || result == Failed(OtherFailure) then old(quota.charged)
              else old(quota.charged)[settleDay := Used(old(quota.charged), settleDay) + cost]
      ensures result != QuotaExceeded ==>
                var failure := if result.Failed? then Some(result.failure) else None;
                && Ends(failure, sends, script) && Paused(delays, sends, base)
                && Performed(old(pool.keys), old(breaker.Value()), cost, oauthWrite, token, script, clock,
                             failure, sends)
                && Explained(failure, sends, script, oauthWrite, token, pool.order, old(pool.keys),
                             old(breaker.Value()), clock(0))
    {
      var granted := Hold(day, id, cost);
      if !granted {
        return QuotaExceeded, 0, [];
      }
      var failure;
      failure, sends, delays := RunReserved(settleDay, id, cost, oauthWrite, token, script, clock, base);
      assert quota.reservations == old(quota.reservations);
      result := if failure.None? then Success else Failed(failure.value);
    }
  }
}
