/** The three-state circuit breaker, and what its state says about the outcomes it was told. */
module CircuitBreaker {

  datatype CircuitState = Closed | Open | HalfOpen

  datatype Config = Config(threshold: int, timeout: real, maxAttempts: int)

  datatype Breaker = Breaker(state: CircuitState, failures: int, successes: int, openUntil: real)

  const FRESH := Breaker(Closed, 0, 0, 0.0)

  predicate Admits(b: Breaker, now: real) { b.state.Open? ==> now >= b.openUntil }

  function AfterCheck(b: Breaker, now: real): Breaker {
    if b.state.Open? && now >= b.openUntil then b.(state := HalfOpen, successes := 0) else b
  }

  function AfterSuccess(cfg: Config, b: Breaker): Breaker {
    match b.state
    case HalfOpen =>
      if b.successes + 1 >= cfg.maxAttempts then b.(state := Closed, failures := 0, successes := 0)
      else b.(successes := b.successes + 1)
    case Closed => b.(failures := 0)
    case Open => b
  }

  function AfterFailure(cfg: Config, b: Breaker, now: real): Breaker {
    var counted := b.(failures := b.failures + 1);
    if b.state.HalfOpen? || counted.failures >= cfg.threshold
    then counted.(state := Open, openUntil := now + cfg.timeout)
    else counted
  }

  class CircuitBreaker {
    const cfg: Config
    var state: CircuitState
    var failureCount: int
    var successCount: int
    var openUntil: real

    function Value(): Breaker
      reads this
    {
      Breaker(state, failureCount, successCount, openUntil)
    }

    constructor (cfg: Config)
      ensures this.cfg == cfg && Value() == FRESH
    {
      this.cfg := cfg;
      state, failureCount, successCount, openUntil := Closed, 0, 0, 0.0;
    }

    method CanExecute(now: real) returns (admitted: bool)
      modifies this
      ensures admitted == Admits(old(Value()), now)
      ensures Value() == AfterCheck(old(Value()), now)
    {
      if state == Open {
        if now >= openUntil {
          state := HalfOpen;
          successCount := 0;
          return true;
        }
        return false;
      }
      return true;
    }

    method RecordSuccess()
      modifies this
      ensures Value() == AfterSuccess(cfg, old(Value()))
    {
      if state == HalfOpen {
        successCount := successCount + 1;
        if successCount >= cfg.maxAttempts {
          state := Closed;
          failureCount := 0;
          successCount := 0;
        }
      } else if state == Closed {
        failureCount := 0;
      }
    }

    method RecordFailure(now: real)
      modifies this
      ensures Value() == AfterFailure(cfg, old(Value()), now)
    {
      failureCount := failureCount + 1;
      if state == HalfOpen || failureCount >= cfg.threshold {
        state := Open;
        openUntil := now + cfg.timeout;
      }
    }

    method Reset()
      modifies this
      ensures Value() == FRESH
    {
      state, failureCount, successCount, openUntil := Closed, 0, 0, 0.0;
    }
  }

  // ----- runs of checks and outcomes, in any interleaving -----

  datatype Kind = Check | Success | Failure | Reset

  datatype Event = Event(kind: Kind, at: real)

  function Next(cfg: Config, b: Breaker, e: Event): Breaker {
    match e.kind
    case Check => AfterCheck(b, e.at)
    case Success => AfterSuccess(cfg, b)
    case Failure => AfterFailure(cfg, b, e.at)
    case Reset => FRESH
  }

  function Run(cfg: Config, events: seq<Event>): Breaker {
    if events == [] then FRESH
    else Next(cfg, Run(cfg, events[..|events| - 1]), events[|events| - 1])
  }

  predicate Chronological(events: seq<Event>) {
    forall i, j :: 0 <= i < j < |events| ==> events[i].at <= events[j].at
  }

  /** Failures reported since the last success or reset. */
  function FailuresInARow(events: seq<Event>): nat {
    if events == [] then 0 else
      var before := FailuresInARow(events[..|events| - 1]);
      match events[|events| - 1].kind
      case Check => before
      case Failure => before + 1
      case _ => 0
  }

  /** Successes among the events from position `k` on. */
  function SuccessesFrom(events: seq<Event>, k: nat): nat {
    if |events| <= k then 0
    else SuccessesFrom(events[..|events| - 1], k) + if events[|events| - 1].kind.Success? then 1 else 0
  }

  /** Main result: the breaker is closed exactly while its counter is below the threshold, and while
      closed the counter is the number of failures in a row. */
  lemma {:induction false} ClosedMeansBelowThreshold(cfg: Config, events: seq<Event>)
    requires cfg.threshold >= 1
    ensures var b := Run(cfg, events);
            && (b.state.Closed? <==> b.failures < cfg.threshold)
            && (b.state.Closed? ==> b.failures == FailuresInARow(events))
  {
    if events != [] {
      ClosedMeansBelowThreshold(cfg, events[..|events| - 1]);
    }
  }

  /** A threshold of zero or less never satisfies this: a fresh breaker is closed at the threshold. */
  lemma ThresholdMustBePositive(cfg: Config)
    ensures (forall events :: Run(cfg, events).state.Closed? <==> Run(cfg, events).failures < cfg.threshold)
            <==> cfg.threshold >= 1
  {
    if cfg.threshold >= 1 {
      forall events ensures Run(cfg, events).state.Closed? <==> Run(cfg, events).failures < cfg.threshold {
        ClosedMeansBelowThreshold(cfg, events);
      }
    } else {
      assert Run(cfg, []) == FRESH;
    }
  }

  /** A closed breaker trips exactly on the failure that completes a row of `threshold`. */
  lemma TripsAtThreshold(cfg: Config, events: seq<Event>, e: Event)
    requires cfg.threshold >= 1 && Run(cfg, events).state.Closed?
    ensures Run(cfg, events + [e]).state.Open? <==> FailuresInARow(events + [e]) == cfg.threshold
  {
    assert (events + [e])[..|events|] == events;
    ClosedMeansBelowThreshold(cfg, events);
  }

  /** An open breaker's deadline lies at most one timeout ahead of the last event. */
  lemma {:induction false} DeadlineIsNear(cfg: Config, events: seq<Event>, now: real)
    requires Chronological(events) && forall i :: 0 <= i < |events| ==> events[i].at <= now
    ensures Run(cfg, events).state.Open? ==> Run(cfg, events).openUntil <= now + cfg.timeout
  {
    if events != [] {
      DeadlineIsNear(cfg, events[..|events| - 1], now);
    }
  }

  /** An event before the deadline leaves an open breaker open and can only move its deadline later. */
  lemma LateEventKeepsOpen(cfg: Config, b: Breaker, e: Event, until: real)
    requires b.state.Open? && e.at < until <= b.openUntil <= e.at + cfg.timeout && !e.kind.Reset?
    ensures Next(cfg, b, e).state.Open? && Next(cfg, b, e).openUntil >= until
  {
  }

  lemma PrefixIsChronological(events: seq<Event>, n: nat)
    requires Chronological(events) && n <= |events|
    ensures Chronological(events[..n])
    ensures forall i, j :: 0 <= i < n <= j < |events| ==> events[..n][i].at <= events[j].at
  {
  }

  /** Main result: once open, the breaker admits nothing until its deadline, whatever outcomes of
      calls already under way come in meanwhile; they can only move the deadline later. */
  lemma {:induction false} NothingAdmittedBeforeDeadline(cfg: Config, events: seq<Event>, more: seq<Event>)
    requires Chronological(events + more) && Run(cfg, events).state.Open?
    requires forall i :: 0 <= i < |more| ==> more[i].at < Run(cfg, events).openUntil && !more[i].kind.Reset?
    ensures var b := Run(cfg, events + more); b.state.Open? && b.openUntil >= Run(cfg, events).openUntil
    ensures forall now :: now < Run(cfg, events).openUntil ==> !Admits(Run(cfg, events + more), now)
    decreases |more|
  {
    if more == [] {
      assert events + more == events;
    } else {
      var all, n := events + more, |more| - 1;
      var before := events + more[..n];
      PrefixIsChronological(all, |events| + n);
      assert all[..|events| + n] == before && all[|events| + n] == more[n];
      NothingAdmittedBeforeDeadline(cfg, events, more[..n]);
      DeadlineIsNear(cfg, before, more[n].at);
      LateEventKeepsOpen(cfg, Run(cfg, before), more[n], Run(cfg, events).openUntil);
    }
  }

  /** `k` is the check that let the current probing phase begin. */
  ghost predicate ProbingSince(cfg: Config, events: seq<Event>, k: nat) {
    && k < |events|
    && Run(cfg, events[..k]).state.Open? && Run(cfg, events[..k + 1]).state.HalfOpen?
    && events[k].at >= Run(cfg, events[..k]).openUntil
    && forall i :: k < i < |events| ==> events[i].kind.Check? || events[i].kind.Success?
  }

  /** A half-open breaker has counted the successes since its probing phase began. */
  lemma {:induction false} HalfOpenCountsSuccesses(cfg: Config, events: seq<Event>) returns (k: nat)
    requires Run(cfg, events).state.HalfOpen?
    ensures ProbingSince(cfg, events, k) && Run(cfg, events).successes == SuccessesFrom(events, k + 1)
    ensures Run(cfg, events).successes == 0 || Run(cfg, events).successes < cfg.maxAttempts
    decreases |events|
  {
    var n := |events| - 1;
    var before := events[..n];
    if Run(cfg, before).state.HalfOpen? {
      k := HalfOpenCountsSuccesses(cfg, before);
      assert before[..k] == events[..k] && before[..k + 1] == events[..k + 1];
    } else {
      k := n;
      assert events[..n + 1] == events;
    }
  }

  /** Main result: an event closes a breaker that is not closed exactly when it is a reset, or the
      success that completes the required number since probing began, with no failure in between. */
  lemma ClosesAfterEnoughSuccesses(cfg: Config, events: seq<Event>, e: Event)
    requires !Run(cfg, events).state.Closed? && !e.kind.Reset?
    ensures Run(cfg, events + [e]).state.Closed? <==>
            e.kind.Success? && exists k: nat ::
              ProbingSince(cfg, events, k)
              && SuccessesFrom(events + [e], k + 1) == if cfg.maxAttempts < 1 then 1 else cfg.maxAttempts
  {
    var all := events + [e];
    assert all[..|events|] == events;
    if Run(cfg, events).state.HalfOpen? {
      var k := HalfOpenCountsSuccesses(cfg, events);
      forall j: nat | ProbingSince(cfg, events, j) ensures j == k {
        ProbingStartIsUnique(cfg, events, j, k);
      }
    } else {
      forall k: nat ensures !ProbingSince(cfg, events, k) {
        if ProbingSince(cfg, events, k) {
          ProbingNeverReopens(cfg, events, k);
        }
      }
    }
  }

  lemma {:induction false} ProbingNeverReopens(cfg: Config, events: seq<Event>, k: nat)
    requires ProbingSince(cfg, events, k)
    ensures !Run(cfg, events).state.Open?
  {
    if k + 1 < |events| {
      var before := events[..|events| - 1];
      assert before[..k] == events[..k] && before[..k + 1] == events[..k + 1];
      ProbingNeverReopens(cfg, before, k);
    } else {
      assert events[..k + 1] == events;
    }
  }

  lemma ProbingStartIsUnique(cfg: Config, events: seq<Event>, j: nat, k: nat)
    requires ProbingSince(cfg, events, j) && ProbingSince(cfg, events, k)
    ensures j == k
  {
    var lo, hi := if j < k then j else k, if j < k then k else j;
    if lo < hi {
      var upTo := events[..hi];
      assert upTo[..lo] == events[..lo] && upTo[..lo + 1] == events[..lo + 1];
      ProbingNeverReopens(cfg, upTo, lo);
    }
  }
}
