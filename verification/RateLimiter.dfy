/** The fixed-window rate limiter on the lazily expiring store. */
module RateLimiter {
  import opened Options
  import opened Cache

  /** The counter of one identifier in one window; the source spells it as a string. */
  datatype WindowKey = WindowKey(identifier: string, window: int)

  function Window(now: real, length: int): int
    requires length > 0
  {
    (now / length as real).Floor
  }

  function KeyAt(identifier: string, now: real, length: int): WindowKey
    requires length > 0
  {
    WindowKey(identifier, Window(now, length))
  }

  function Start(window: int, length: int): real { window as real * length as real }

  lemma WindowBounds(now: real, length: int)
    requires length > 0
    ensures Start(Window(now, length), length) <= now < Start(Window(now, length) + 1, length)
  {
    var q, w := now / length as real, Window(now, length);
    DivideMultiply(now, length as real);
    MultiplyBounds(w as real, q, length as real);
    MultiplyBounds(q, (w + 1) as real, length as real);
  }

  lemma DivideMultiply(a: real, n: real)
    requires n != 0.0
    ensures (a / n) * n == a
  {
  }

  lemma MultiplyBounds(a: real, b: real, n: real)
    requires a <= b && n > 0.0
    ensures a * n <= b * n && (a < b ==> a * n < b * n)
  {
  }

  lemma WindowsAreAdjacent(window: int, length: int)
    ensures Start(window + 1, length) == Start(window, length) + length as real
  {
  }

  /** One access to the store: a request counting itself, the expire that follows a first request, a
      look at what remains. The two accesses of a request are separate steps. */
  datatype Step =
    | Hit(identifier: string, limit: int, at: real)
    | Touch(key: WindowKey, at: real)
    | Look(identifier: string, at: real)

  function OpOf(step: Step, length: int): Op<WindowKey>
    requires length > 0
  {
    match step
    case Hit(identifier, _, at) => IncrBy(KeyAt(identifier, at, length), 1)
    case Touch(key, _) => Op.Expire(key, length + 5)
    case Look(identifier, at) => Op.Get(KeyAt(identifier, at, length))
  }

  function After(steps: seq<Step>, length: int): Store<WindowKey>
    requires length > 0
  {
    if steps == [] then Store(map[], map[])
    else
      var last := steps[|steps| - 1];
      Apply(After(steps[..|steps| - 1], length), OpOf(last, length), last.at).0
  }

  predicate HitsKey(step: Step, key: WindowKey, length: int)
    requires length > 0
  {
    step.Hit? && KeyAt(step.identifier, step.at, length) == key
  }

  /** The clock never goes back, and a counter is given a deadline only after a request under its key. */
  ghost predicate Valid(steps: seq<Step>, length: int)
    requires length > 0
  {
    && (forall i, j :: 0 <= i < j < |steps| ==> steps[i].at <= steps[j].at)
    && (forall i :: 0 <= i < |steps| && steps[i].Touch? ==>
          exists j :: 0 <= j < i && HitsKey(steps[j], steps[i].key, length))
  }

  lemma TouchFollowsStart(steps: seq<Step>, length: int)
    requires length > 0 && Valid(steps, length) && steps != [] && steps[|steps| - 1].Touch?
    ensures var last := steps[|steps| - 1]; Start(last.key.window, length) <= last.at
  {
  }

  /** Requests counted under a key, allowed or not. */
  function Hits(steps: seq<Step>, key: WindowKey, length: int): nat
    requires length > 0
  {
    if steps == [] then 0
    else
      var last := steps[|steps| - 1];
      Hits(steps[..|steps| - 1], key, length) + (if HitsKey(last, key, length) then 1 else 0)
  }

  ghost predicate Exact(s: Store<WindowKey>, key: WindowKey, hits: nat, length: int) {
    && (key in s.deadlines ==> key in s.values && s.deadlines[key] > Start(key.window + 1, length))
    && (key in s.values <==> hits > 0)
    && (key in s.values ==> s.values[key] == Number(hits))
  }

  lemma StepKeepsExact(s: Store<WindowKey>, key: WindowKey, hits: nat, step: Step, length: int)
    requires length > 0 && Exact(s, key, hits, length) && step.at < Start(key.window + 1, length)
    requires step.Touch? ==> Start(step.key.window, length) <= step.at
    ensures var counted := if HitsKey(step, key, length) then 1 else 0;
            Exact(Apply(s, OpOf(step, length), step.at).0, key, hits + counted, length)
  {
  }

  /** A counter is never lost inside its own window: until the window ends it holds the number of requests
      made in the window. */
  lemma {:induction false} CounterIsExact(steps: seq<Step>, key: WindowKey, length: int)
    requires length > 0 && Valid(steps, length)
    requires steps != [] ==> steps[|steps| - 1].at < Start(key.window + 1, length)
    ensures Exact(After(steps, length), key, Hits(steps, key, length), length)
  {
    if steps != [] {
      var before, last := steps[..|steps| - 1], steps[|steps| - 1];
      PrefixIsValid(steps, |steps| - 1, length);
      CounterIsExact(before, key, length);
      if last.Touch? {
        TouchFollowsStart(steps, length);
      }
      StepKeepsExact(After(before, length), key, Hits(before, key, length), last, length);
    }
  }

  /** The number the store answers to the next request. */
  function CountOf(steps: seq<Step>, hit: Step, length: int): int
    requires length > 0 && hit.Hit?
  {
    var reply := Apply(After(steps, length), OpOf(hit, length), hit.at).1;
    if reply.Count? then reply.n else 0
  }

  predicate Allowed(steps: seq<Step>, hit: Step, length: int)
    requires length > 0 && hit.Hit?
  {
    CountOf(steps, hit, length) <= hit.limit
  }

  lemma PrefixIsValid(steps: seq<Step>, n: nat, length: int)
    requires length > 0 && Valid(steps, length) && n <= |steps|
    ensures Valid(steps[..n], length)
  {
  }

  lemma NextFollows(steps: seq<Step>, next: Step, length: int)
    requires length > 0 && Valid(steps + [next], length)
    ensures Valid(steps, length)
    ensures steps != [] ==> steps[|steps| - 1].at <= next.at
  {
    var all := steps + [next];
    assert all[..|steps|] == steps;
    PrefixIsValid(all, |steps|, length);
    if steps != [] {
      assert all[|steps| - 1].at <= all[|steps|].at;
    }
  }

  /** Main result: on every run, a request passes exactly when fewer than its limit were made before it in
      the same window under the same identifier. */
  lemma AllowedIffEarly(steps: seq<Step>, hit: Step, length: int)
    requires length > 0 && hit.Hit? && Valid(steps + [hit], length)
    ensures Allowed(steps, hit, length) <==> Hits(steps, KeyAt(hit.identifier, hit.at, length), length) < hit.limit
  {
    var key := KeyAt(hit.identifier, hit.at, length);
    WindowBounds(hit.at, length);
    NextFollows(steps, hit, length);
    CounterIsExact(steps, key, length);
  }

  function Remaining(used: int, limit: int): int { if limit - used > 0 then limit - used else 0 }

  /** What a look makes of the stored value: text that is no number is an error, an absent counter is zero. */
  function Used(found: Option<Value>): Option<int> {
    if found.None? then Some(0) else if found.value.Number? then Some(found.value.n) else None
  }

  /** What is reported as remaining is the number of further requests this window would still let pass. */
  lemma RemainingIsExact(steps: seq<Step>, look: Step, limit: int, length: int)
    requires length > 0 && look.Look? && Valid(steps + [look], length)
    ensures var reply := Apply(After(steps, length), OpOf(look, length), look.at).1;
            var made := Hits(steps, KeyAt(look.identifier, look.at, length), length);
            && reply.Found? && Used(reply.value).Some?
            && Remaining(Used(reply.value).value, limit) == if made < limit then limit - made else 0
  {
    WindowBounds(look.at, length);
    NextFollows(steps, look, length);
    CounterIsExact(steps, KeyAt(look.identifier, look.at, length), length);
  }

  // ----- how many pass -----

  predicate OneLimit(steps: seq<Step>, identifier: string, limit: int) {
    forall i :: 0 <= i < |steps| && steps[i].Hit? && steps[i].identifier == identifier ==> steps[i].limit == limit
  }

  function Floor0(n: int): nat { if n < 0 then 0 else n }

  /** Requests of one window that passed. */
  function PassedIn(steps: seq<Step>, key: WindowKey, length: int): nat
    requires length > 0
  {
    if steps == [] then 0
    else
      var before, last := steps[..|steps| - 1], steps[|steps| - 1];
      PassedIn(before, key, length)
      + (if HitsKey(last, key, length) && Allowed(before, last, length) then 1 else 0)
  }

  /** Requests of one identifier that passed in the interval of one window length starting anywhere. */
  function PassedFrom(steps: seq<Step>, identifier: string, from: real, length: int): nat
    requires length > 0
  {
    if steps == [] then 0
    else
      var before, last := steps[..|steps| - 1], steps[|steps| - 1];
      PassedFrom(before, identifier, from, length)
      + (if last.Hit? && last.identifier == identifier && from <= last.at < from + length as real
            && Allowed(before, last, length) then 1 else 0)
  }

  /** Main result: of the requests of a window exactly the first `limit` pass. */
  lemma {:induction false} ExactlyTheFirstPass(steps: seq<Step>, key: WindowKey, limit: int, length: int)
    requires length > 0 && Valid(steps, length) && OneLimit(steps, key.identifier, limit)
    ensures PassedIn(steps, key, length)
            == if Hits(steps, key, length) < Floor0(limit) then Hits(steps, key, length) else Floor0(limit)
  {
    if steps != [] {
      var before, last := steps[..|steps| - 1], steps[|steps| - 1];
      PrefixIsValid(steps, |steps| - 1, length);
      ExactlyTheFirstPass(before, key, limit, length);
      if HitsKey(last, key, length) {
        assert steps == before + [last];
        AllowedIffEarly(before, last, length);
      }
    }
  }

  lemma LaterWindowStartsLater(window: int, later: int, length: int)
    requires length > 0 && window <= later
    ensures Start(window, length) <= Start(later, length)
  {
  }

  lemma IntervalMeetsTwoWindows(at: real, from: real, length: int)
    requires length > 0 && from <= at < from + length as real
    ensures Window(from, length) <= Window(at, length) <= Window(from, length) + 1
  {
    var w, v := Window(from, length), Window(at, length);
    WindowBounds(from, length);
    WindowBounds(at, length);
    WindowsAreAdjacent(w + 1, length);
    if v + 1 <= w {
      LaterWindowStartsLater(v + 1, w, length);
    }
    if w + 2 <= v {
      LaterWindowStartsLater(w + 2, v, length);
    }
  }

  lemma {:induction false} IntervalIsCovered(steps: seq<Step>, identifier: string, from: real, length: int)
    requires length > 0
    ensures PassedFrom(steps, identifier, from, length)
            <= PassedIn(steps, WindowKey(identifier, Window(from, length)), length)
               + PassedIn(steps, WindowKey(identifier, Window(from, length) + 1), length)
  {
    if steps != [] {
      var last := steps[|steps| - 1];
      IntervalIsCovered(steps[..|steps| - 1], identifier, from, length);
      if from <= last.at < from + length as real {
        IntervalMeetsTwoWindows(last.at, from, length);
      }
    }
  }

  /** Main result: no interval of one window length, wherever it starts, lets more than twice the limit pass. */
  lemma AtMostTwiceTheLimit(steps: seq<Step>, identifier: string, limit: int, from: real, length: int)
    requires length > 0 && Valid(steps, length) && OneLimit(steps, identifier, limit)
    ensures PassedFrom(steps, identifier, from, length) <= 2 * Floor0(limit)
  {
    IntervalIsCovered(steps, identifier, from, length);
    ExactlyTheFirstPass(steps, WindowKey(identifier, Window(from, length)), limit, length);
    ExactlyTheFirstPass(steps, WindowKey(identifier, Window(from, length) + 1), limit, length);
  }

  /** `count` requests at one moment. */
  function Burst(identifier: string, limit: int, count: nat, at: real): seq<Step> {
    seq(count, _ => Hit(identifier, limit, at))
  }

  /** As many requests as the limit half a second before a window ends, and as many when the next begins. */
  function TwoBursts(identifier: string, limit: nat, length: int): seq<Step> {
    Burst(identifier, limit, limit, length as real - 0.5) + Burst(identifier, limit, limit, length as real)
  }

  lemma {:induction false} HitsAppend(first: seq<Step>, second: seq<Step>, key: WindowKey, length: int)
    requires length > 0
    ensures Hits(first + second, key, length) == Hits(first, key, length) + Hits(second, key, length)
    decreases |second|
  {
    if second == [] {
      assert first + second == first;
    } else {
      var n := |second| - 1;
      HitsAppend(first, second[..n], key, length);
      assert (first + second)[..|first| + n] == first + second[..n];
    }
  }

  lemma {:induction false} HitsOfBurst(
      identifier: string, limit: int, count: nat, at: real, key: WindowKey, length: int)
    requires length > 0
    ensures Hits(Burst(identifier, limit, count, at), key, length)
            == if KeyAt(identifier, at, length) == key then count else 0
  {
    if count > 0 {
      HitsOfBurst(identifier, limit, count - 1, at, key, length);
      assert Burst(identifier, limit, count, at)[..count - 1] == Burst(identifier, limit, count - 1, at);
    }
  }

  /** When every step is a request of the interval, those that passed are those that passed in its two windows. */
  lemma {:induction false} IntervalIsExact(steps: seq<Step>, identifier: string, from: real, length: int)
    requires length > 0
    requires forall i :: 0 <= i < |steps| ==>
               steps[i].Hit? && steps[i].identifier == identifier && from <= steps[i].at < from + length as real
    ensures PassedFrom(steps, identifier, from, length)
            == PassedIn(steps, WindowKey(identifier, Window(from, length)), length)
               + PassedIn(steps, WindowKey(identifier, Window(from, length) + 1), length)
  {
    if steps != [] {
      var last := steps[|steps| - 1];
      IntervalIsExact(steps[..|steps| - 1], identifier, from, length);
      IntervalMeetsTwoWindows(last.at, from, length);
    }
  }

  lemma TwoBurstsMeetTwoWindows(length: int)
    requires length > 0
    ensures Window(length as real - 0.5, length) == 0 && Window(length as real, length) == 1
  {
    var before, at := Window(length as real - 0.5, length), Window(length as real, length);
    WindowBounds(length as real - 0.5, length);
    WindowBounds(length as real, length);
    IntervalMeetsTwoWindows(length as real, length as real - 0.5, length);
    if before >= 1 {
      LaterWindowStartsLater(1, before, length);
    }
    if before + 1 <= 0 {
      LaterWindowStartsLater(before + 1, 0, length);
    }
    if at + 1 <= 1 {
      LaterWindowStartsLater(at + 1, 1, length);
    }
  }

  lemma TwoBurstsAreValid(identifier: string, limit: nat, length: int)
    requires length > 0
    ensures Valid(TwoBursts(identifier, limit, length), length)
    ensures OneLimit(TwoBursts(identifier, limit, length), identifier, limit)
  {
  }

  /** Main result: the bound is reached for every identifier, limit and length. */
  lemma TwiceTheLimitIsReached(identifier: string, limit: nat, length: int)
    requires length > 0
    ensures var steps := TwoBursts(identifier, limit, length);
            && Valid(steps, length) && OneLimit(steps, identifier, limit)
            && PassedFrom(steps, identifier, length as real - 0.5, length) == 2 * limit
  {
    var steps, from := TwoBursts(identifier, limit, length), length as real - 0.5;
    var first, second := WindowKey(identifier, 0), WindowKey(identifier, 1);
    TwoBurstsMeetTwoWindows(length);
    TwoBurstsAreValid(identifier, limit, length);
    forall key | key == first || key == second ensures Hits(steps, key, length) == limit {
      HitsAppend(Burst(identifier, limit, limit, from), Burst(identifier, limit, limit, length as real), key, length);
      HitsOfBurst(identifier, limit, limit, from, key, length);
      HitsOfBurst(identifier, limit, limit, length as real, key, length);
    }
    ExactlyTheFirstPass(steps, first, limit, length);
    ExactlyTheFirstPass(steps, second, limit, length);
    IntervalIsExact(steps, identifier, from, length);
  }

  // ----- the limiter -----

  /** A request: count it, and give a fresh counter its deadline; the clock is read once for each access.
      A counter that holds other text is an error. */
  method IsAllowed(redis: InMemoryRedis<WindowKey>, identifier: string, limit: int, length: int, now: real, later: real)
    returns (allowed: Option<bool>)
    requires length > 0
    modifies redis
    ensures var s := old(redis.State());
            var (counted, reply) := Apply(s, OpOf(Hit(identifier, limit, now), length), now);
            && (reply.NotANumber? ==> allowed == None)
            && (reply.Count? ==> allowed == Some(reply.n <= limit))
            && redis.State() == if reply == Count(1)
                                then Apply(counted, OpOf(Touch(KeyAt(identifier, now, length), later), length), later).0
                                else counted
    ensures KeyAt(identifier, now, length) !in old(redis.values) ==>
              var key := KeyAt(identifier, now, length);
              && allowed == Some(1 <= limit) && key in redis.deadlines
              && redis.deadlines[key] == later + (length + 5) as real
  {
    var key := KeyAt(identifier, now, length);
    var reply := redis.IncrBy(key, 1, now);
    if reply == NotANumber {
      return None;
    }
    if reply.n == 1 {
      var _ := redis.Expire(key, length + 5, later);
    }
    return Some(reply.n <= limit);
  }

  method GetRemaining(redis: InMemoryRedis<WindowKey>, identifier: string, limit: int, length: int, now: real)
    returns (remaining: Option<int>)
    requires length > 0
    modifies redis
    ensures var (after, reply) := Apply(old(redis.State()), OpOf(Look(identifier, now), length), now);
            && redis.State() == after && reply.Found?
            && remaining == (if Used(reply.value).Some? then Some(Remaining(Used(reply.value).value, limit)) else None)
  {
    var found := redis.Get(KeyAt(identifier, now, length), now);
    var used := Used(found);
    if used.None? {
      return None;
    }
    return Some(Remaining(used.value, limit));
  }
}
