/** How long an open breaker blocks, and how it recovers. */
module CircuitRecovery {
  import opened CircuitBreaker

  lemma RunExtends(cfg: Config, events: seq<Event>, e: Event)
    ensures Run(cfg, events + [e]) == Next(cfg, Run(cfg, events), e)
  {
    assert (events + [e])[..|events|] == events;
  }

  /** The time of the latest failure reported. */
  function LastFailure(events: seq<Event>): real {
    if events == [] then 0.0
    else if events[|events| - 1].kind.Failure? then events[|events| - 1].at
    else LastFailure(events[..|events| - 1])
  }

  /** On every run, an open breaker's deadline is one timeout after the latest failure reported. */
  lemma {:induction false} DeadlineFollowsLastFailure(cfg: Config, events: seq<Event>)
    ensures var b := Run(cfg, events);
            && (!b.state.Closed? ==> b.failures >= cfg.threshold)
            && (b.state.Open? ==> b.openUntil == LastFailure(events) + cfg.timeout)
  {
    if events != [] {
      DeadlineFollowsLastFailure(cfg, events[..|events| - 1]);
    }
  }

  /** Main result: on every run, a call is refused if and only if the breaker is open and less than a timeout has
      passed since the latest failure reported. */
  lemma RefusedIffRecentFailure(cfg: Config, events: seq<Event>, now: real)
    ensures !Admits(Run(cfg, events), now)
            <==> Run(cfg, events).state.Open? && now < LastFailure(events) + cfg.timeout
  {
    DeadlineFollowsLastFailure(cfg, events);
  }

  /** Main result: on every run, a check that comes a timeout or more after the latest failure is admitted by an open
      breaker and leaves it half-open with no success counted; an earlier one is refused and changes nothing; and a
      breaker that is not open admits every check and is not changed by it. */
  lemma CheckProbes(cfg: Config, events: seq<Event>, now: real)
    ensures var b := Run(cfg, events);
            var after := Run(cfg, events + [Event(Check, now)]);
            if b.state.Open? && now >= LastFailure(events) + cfg.timeout then
              Admits(b, now) && after.state.HalfOpen? && after.successes == 0 && after.failures == b.failures
            else if b.state.Open? then !Admits(b, now) && after == b
            else Admits(b, now) && after == b
  {
    RunExtends(cfg, events, Event(Check, now));
    DeadlineFollowsLastFailure(cfg, events);
  }

  function SuccessesAt(times: seq<real>): seq<Event> {
    seq(|times|, i requires 0 <= i < |times| => Event(Success, times[i]))
  }

  /** Fewer successes than required leave a half-open breaker half-open and are counted. */
  lemma {:induction false} SuccessesCount(cfg: Config, events: seq<Event>, times: seq<real>)
    requires Run(cfg, events).state.HalfOpen? && Run(cfg, events).successes == 0
    requires |times| < cfg.maxAttempts || times == []
    ensures var b := Run(cfg, events + SuccessesAt(times)); b.state.HalfOpen? && b.successes == |times|
  {
    if times == [] {
      assert events + SuccessesAt(times) == events;
    } else {
      var n := |times| - 1;
      SuccessesCount(cfg, events, times[..n]);
      RunExtends(cfg, events + SuccessesAt(times[..n]), Event(Success, times[n]));
      assert events + SuccessesAt(times) == events + SuccessesAt(times[..n]) + [Event(Success, times[n])];
    }
  }

  /** Main result: an open breaker recovers. A check a timeout after the latest failure, and then as many successes as
      required (one at least), leave it closed with no failure counted. */
  lemma Recovers(cfg: Config, events: seq<Event>, now: real, times: seq<real>)
    requires Run(cfg, events).state.Open? && now >= LastFailure(events) + cfg.timeout
    requires |times| == if cfg.maxAttempts < 1 then 1 else cfg.maxAttempts
    ensures var b := Run(cfg, events + [Event(Check, now)] + SuccessesAt(times));
            b.state.Closed? && b.failures == 0 && b.successes == 0
  {
    var probing, n := events + [Event(Check, now)], |times| - 1;
    CheckProbes(cfg, events, now);
    SuccessesCount(cfg, probing, times[..n]);
    RunExtends(cfg, probing + SuccessesAt(times[..n]), Event(Success, times[n]));
    assert probing + SuccessesAt(times) == probing + SuccessesAt(times[..n]) + [Event(Success, times[n])];
  }

  /** A failure while probing opens the breaker again for a whole timeout, whatever the threshold. */
  lemma ProbeFailureReopens(cfg: Config, events: seq<Event>, at: real)
    requires Run(cfg, events).state.HalfOpen?
    ensures var b := Run(cfg, events + [Event(Failure, at)]); b.state.Open? && b.openUntil == at + cfg.timeout
  {
    RunExtends(cfg, events, Event(Failure, at));
  }
}
