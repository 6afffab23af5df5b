/** The token lock: set-if-absent with a time to live, released by a read and then a delete. */
module Locks {
  import opened Options
  import opened Cache

  // ----- one instance -----

  function SetIfAbsent(name: string, token: string, ttl: int): Op<string> {
    Op.Set(name, Text(token), Some(ttl), true)
  }

  /** The key is there and not past its deadline. */
  predicate Taken(s: Store<string>, name: string, now: real) { name in s.values && !Stale(s, name, now) }

  class DistributedLock {
    const name: string
    const token: string
    const ttl: int
    var acquired: bool

    constructor (name: string, token: string, ttl: int)
      ensures this.name == name && this.token == token && this.ttl == ttl && !acquired
    {
      this.name, this.token, this.ttl, acquired := name, token, ttl, false;
    }

    /** Polls until the key is free; `polls` are the clock readings before the time-out. Nothing is polled
        when the lock must fail closed. */
    method Acquire(redis: InMemoryRedis<string>, failClosed: bool, polls: seq<real>) returns (ok: bool)
      modifies this`acquired, redis
      ensures acquired == (old(acquired) || ok)
      ensures failClosed ==> !ok && redis.State() == old(redis.State())
      ensures !failClosed && !ok ==> forall k :: 0 <= k < |polls| ==> Taken(old(redis.State()), name, polls[k])
      ensures !ok ==> redis.State() == old(redis.State())
      ensures ok ==>
                (exists k :: 0 <= k < |polls| && !Taken(old(redis.State()), name, polls[k])
                  && (forall i :: 0 <= i < k ==> Taken(old(redis.State()), name, polls[i]))
                  && redis.State() == Apply(old(redis.State()), SetIfAbsent(name, token, ttl), polls[k]).0)
    {
      if failClosed {
        return false;
      }
      var k := 0;
      while k < |polls|
        invariant 0 <= k <= |polls|
        invariant redis.State() == old(redis.State()) && acquired == old(acquired)
        invariant forall i :: 0 <= i < k ==> Taken(old(redis.State()), name, polls[i])
      {
        var free := redis.Set(name, Text(token), Some(ttl), true, polls[k]);
        if free {
          acquired := true;
          return true;
        }
        k := k + 1;
      }
      return false;
    }

    /** With nobody else acting in between, a release removes the key exactly when it holds this token. */
    method Release(redis: InMemoryRedis<string>, now: real) returns (ok: bool)
      modifies this`acquired, redis
      ensures ok <==> old(acquired) && Taken(old(redis.State()), name, now) && old(redis.values)[name] == Text(token)
      ensures acquired == (old(acquired) && !ok)
      ensures redis.State() == if ok then Drop(old(redis.State()), name)
                               else if old(acquired) then Cleanup(old(redis.State()), name, now)
                               else old(redis.State())
    {
      if !acquired {
        return false;
      }
      var current := redis.Get(name, now);
      if current == Some(Text(token)) {
        var count := redis.Delete(name);
        assert (redis.State(), Count(count)) == Apply(old(redis.State()), Op.Delete(name), now);
        acquired := false;
        return true;
      }
      return false;
    }
  }

  // ----- any number of instances, step by step -----

  datatype Lease = Lease(since: real, ttl: int)

  /** The shared store, the instances that acquired and have not finished a release, and those among them
      that read their own token and are about to delete the key. */
  datatype World = World(store: Store<string>, leases: map<string, Lease>, removing: set<string>)

  const START := World(Store(map[], map[]), map[], {})

  datatype Step =
    | Try(token: string, ttl: int, at: real)
    | Read(token: string, at: real)
    | Remove(token: string, at: real)
    | Other(op: Op<string>, at: real)

  /** Only an instance that believes it holds the lock releases it, one release at a time; other users of
      the store keep to their own keys. */
  predicate Enabled(name: string, w: World, step: Step) {
    match step
    case Try(_, _, _) => true
    case Read(token, _) => token in w.leases && token !in w.removing
    case Remove(token, _) => token in w.removing
    case Other(op, _) => op.key != name
  }

  function Next(name: string, w: World, step: Step): World {
    match step
    case Try(token, ttl, at) =>
      var (s, reply) := Apply(w.store, SetIfAbsent(name, token, ttl), at);
      if reply == Flag(true) then w.(store := s, leases := w.leases[token := Lease(at, ttl)]) else w.(store := s)
    case Read(token, at) =>
      var (s, reply) := Apply(w.store, Get(name), at);
      w.(store := s, removing := if reply == Found(Some(Text(token))) then w.removing + {token} else w.removing)
    case Remove(token, at) =>
      World(Apply(w.store, Delete(name), at).0, w.leases - {token}, w.removing - {token})
    case Other(op, at) => w.(store := Apply(w.store, op, at).0)
  }

  function Run(name: string, steps: seq<Step>): World {
    if steps == [] then START else Next(name, Run(name, steps[..|steps| - 1]), steps[|steps| - 1])
  }

  predicate Reached(steps: seq<Step>, now: real) { steps == [] || steps[|steps| - 1].at <= now }

  predicate ValidRun(name: string, steps: seq<Step>) {
    steps == [] ||
    var before, last := steps[..|steps| - 1], steps[|steps| - 1];
    ValidRun(name, before) && Reached(before, last.at) && Enabled(name, Run(name, before), last)
  }

  /** An instance whose lock has not yet run out; a time to live of zero never does. */
  predicate InLease(w: World, token: string, now: real) {
    token in w.leases && (w.leases[token].ttl == 0 || now <= w.leases[token].since + w.leases[token].ttl as real)
  }

  /** Every delete of a release comes before the lock of the instance runs out. */
  predicate RemovesInTime(name: string, steps: seq<Step>) {
    steps == [] ||
    var before, last := steps[..|steps| - 1], steps[|steps| - 1];
    RemovesInTime(name, before) && (last.Remove? ==> InLease(Run(name, before), last.token, last.at))
  }

  /** Whatever the run, the key names an instance that has not finished releasing, with the deadline that
      instance was given. */
  ghost predicate Owned(name: string, w: World) {
    && (name in w.store.deadlines ==> name in w.store.values)
    && w.removing <= w.leases.Keys
    && (name in w.store.values ==>
          && w.store.values[name].Text?
          && w.store.values[name].s in w.leases
          && var lease := w.leases[w.store.values[name].s];
             if lease.ttl == 0 then name !in w.store.deadlines
             else name in w.store.deadlines && w.store.deadlines[name] == lease.since + lease.ttl as real)
  }

  predicate Holds(name: string, w: World, token: string) {
    name in w.store.values && w.store.values[name] == Text(token)
  }

  ghost predicate LeasesHold(name: string, w: World, now: real) {
    forall token :: InLease(w, token, now) ==> Holds(name, w, token)
  }

  lemma StepKeepsOwned(name: string, w: World, step: Step)
    requires Owned(name, w) && Enabled(name, w, step)
    ensures Owned(name, Next(name, w, step))
  {
  }

  /** A delete at this moment finds no lock of another instance that is still in time. */
  ghost predicate FindsNoOther(w: World, step: Step) {
    step.Remove? ==> forall other :: InLease(w, other, step.at) ==> other == step.token
  }

  /** Every delete of a release finds no other lock in time. */
  ghost predicate RemovesSafely(name: string, steps: seq<Step>) {
    steps == [] ||
    (RemovesSafely(name, steps[..|steps| - 1]) && FindsNoOther(Run(name, steps[..|steps| - 1]), steps[|steps| - 1]))
  }

  /** After every step, every instance whose lock is in time has its key. */
  ghost predicate AlwaysHold(name: string, steps: seq<Step>) {
    steps == [] ||
    (AlwaysHold(name, steps[..|steps| - 1]) && LeasesHold(name, Run(name, steps), steps[|steps| - 1].at))
  }

  lemma StepKeepsLeases(name: string, w: World, step: Step)
    requires Owned(name, w) && LeasesHold(name, w, step.at) && Enabled(name, w, step) && FindsNoOther(w, step)
    ensures LeasesHold(name, Next(name, w, step), step.at)
  {
    var after := Next(name, w, step);
    forall token | InLease(after, token, step.at) ensures Holds(name, after, token) {
      if !(step.Try? && step.token == token) {
        assert InLease(w, token, step.at);
      }
    }
  }

  lemma LeasesHoldLater(name: string, w: World, now: real, later: real)
    requires LeasesHold(name, w, now) && now <= later
    ensures LeasesHold(name, w, later)
  {
    forall token | InLease(w, token, later) ensures Holds(name, w, token) {
      assert InLease(w, token, now);
    }
  }

  lemma {:induction false} RunIsOwned(name: string, steps: seq<Step>)
    requires ValidRun(name, steps)
    ensures Owned(name, Run(name, steps))
  {
    if steps != [] {
      var before, last := steps[..|steps| - 1], steps[|steps| - 1];
      RunIsOwned(name, before);
      StepKeepsOwned(name, Run(name, before), last);
    }
  }

  lemma {:induction false} LeasesHoldThroughout(name: string, steps: seq<Step>, now: real)
    requires ValidRun(name, steps) && RemovesSafely(name, steps) && Reached(steps, now)
    ensures LeasesHold(name, Run(name, steps), now) && AlwaysHold(name, steps)
    decreases |steps|
  {
    if steps != [] {
      var before, last := steps[..|steps| - 1], steps[|steps| - 1];
      RunIsOwned(name, before);
      LeasesHoldThroughout(name, before, last.at);
      StepKeepsLeases(name, Run(name, before), last);
      LeasesHoldLater(name, Run(name, steps), last.at, now);
    }
  }

  lemma {:induction false} AlwaysHoldRemovesSafely(name: string, steps: seq<Step>)
    requires ValidRun(name, steps) && AlwaysHold(name, steps)
    ensures RemovesSafely(name, steps)
  {
    if steps != [] {
      var before, last := steps[..|steps| - 1], steps[|steps| - 1];
      AlwaysHoldRemovesSafely(name, before);
      if last.Remove? {
        RunIsOwned(name, before);
        RemoveIsSafeIffNoOtherLease(name, Run(name, before), last.token, last.at);
      }
    }
  }

  /** Main result: on every run, each instance has its key for as long as its lock is in time if and only if no
      delete ever finds another lock in time. */
  lemma KeysLastIffRemovesSafely(name: string, steps: seq<Step>)
    requires ValidRun(name, steps)
    ensures AlwaysHold(name, steps) <==> RemovesSafely(name, steps)
  {
    if RemovesSafely(name, steps) {
      LeasesHoldThroughout(name, steps, if steps == [] then 0.0 else steps[|steps| - 1].at);
    } else if AlwaysHold(name, steps) {
      AlwaysHoldRemovesSafely(name, steps);
    }
  }

  /** A delete within the time of its own lock is safe. */
  lemma {:induction false} InTimeIsSafe(name: string, steps: seq<Step>)
    requires ValidRun(name, steps) && RemovesInTime(name, steps)
    ensures RemovesSafely(name, steps)
  {
    if steps != [] {
      var before, last := steps[..|steps| - 1], steps[|steps| - 1];
      InTimeIsSafe(name, before);
      LeasesHoldThroughout(name, before, last.at);
      if last.Remove? {
        assert Holds(name, Run(name, before), last.token);
      }
    }
  }

  /** Main result: as long as no delete finds another lock in time, and so in particular if every delete comes in
      time, no two instances ever hold locks that have not run out. An instance that overruns its time without
      deleting does no harm. */
  lemma AtMostOneInLease(name: string, steps: seq<Step>, now: real, first: string, second: string)
    requires ValidRun(name, steps) && RemovesSafely(name, steps) && Reached(steps, now)
    requires InLease(Run(name, steps), first, now) && InLease(Run(name, steps), second, now)
    ensures first == second
  {
    LeasesHoldThroughout(name, steps, now);
    var w := Run(name, steps);
    assert Holds(name, w, first) && Holds(name, w, second);
  }

  /** Main result, the other half: wherever a run comes to a delete that finds another lock in time, one attempt
      by any third instance right after it lets that instance in beside the holder. */
  lemma UnsafeRemoveLetsSecondIn(
      name: string, steps: seq<Step>, remove: Step, other: string, third: string, ttl: nat)
    requires ValidRun(name, steps + [remove]) && remove.Remove? && third != other
    requires InLease(Run(name, steps), other, remove.at) && other != remove.token
    ensures var more := steps + [remove] + [Try(third, ttl, remove.at)];
            && ValidRun(name, more)
            && InLease(Run(name, more), other, remove.at) && InLease(Run(name, more), third, remove.at)
  {
    var try := Try(third, ttl, remove.at);
    RunExtends(name, steps, remove);
    RunIsOwned(name, steps);
    RunExtends(name, steps + [remove], try);
    var w := Next(name, Run(name, steps), remove);
    assert name !in w.store.values && InLease(w, other, remove.at);
  }

  /** Main result: the lock can be taken exactly when no lock that has not run out is held. So a crashed
      holder blocks the others only until its time is over. */
  lemma FreeIffNoLease(name: string, steps: seq<Step>, try: Step)
    requires ValidRun(name, steps) && RemovesSafely(name, steps) && Reached(steps, try.at) && try.Try?
    ensures var w := Run(name, steps);
            Apply(w.store, SetIfAbsent(name, try.token, try.ttl), try.at).1 == Flag(true)
            <==> forall token :: !InLease(w, token, try.at)
  {
    RunIsOwned(name, steps);
    LeasesHoldThroughout(name, steps, try.at);
    var w := Run(name, steps);
    if Taken(w.store, name, try.at) {
      assert InLease(w, w.store.values[name].s, try.at);
    }
  }

  // ----- every holder in time -----

  /** At every step all instances that have not finished releasing are still in time. */
  ghost predicate HoldersInTime(name: string, steps: seq<Step>) {
    steps == [] ||
    var before, last := steps[..|steps| - 1], steps[|steps| - 1];
    && HoldersInTime(name, before)
    && forall token :: token in Run(name, before).leases ==> InLease(Run(name, before), token, last.at)
  }

  lemma {:induction false} HoldersInTimeRemoveInTime(name: string, steps: seq<Step>)
    requires ValidRun(name, steps) && HoldersInTime(name, steps)
    ensures RemovesInTime(name, steps)
  {
    if steps != [] {
      var before := steps[..|steps| - 1];
      HoldersInTimeRemoveInTime(name, before);
      RunIsOwned(name, before);
    }
  }

  /** Main result: when each holder finishes its release within its time to live, never more than one
      instance believes it holds the lock. */
  lemma AtMostOneHolder(name: string, steps: seq<Step>, now: real)
    requires ValidRun(name, steps) && HoldersInTime(name, steps) && Reached(steps, now)
    requires forall token :: token in Run(name, steps).leases ==> InLease(Run(name, steps), token, now)
    ensures forall a, b :: a in Run(name, steps).leases && b in Run(name, steps).leases ==> a == b
  {
    HoldersInTimeRemoveInTime(name, steps);
    InTimeIsSafe(name, steps);
    forall a, b | a in Run(name, steps).leases && b in Run(name, steps).leases ensures a == b {
      AtMostOneInLease(name, steps, now, a, b);
    }
  }

  // ----- what a release may remove -----

  /** A release that reads another token, or none, goes no further: no key that has not run out is lost. */
  lemma ForeignReadRemovesNothing(name: string, w: World, token: string, now: real)
    requires Enabled(name, w, Read(token, now)) && Owned(name, w)
    ensures var after := Next(name, w, Read(token, now));
            && (Enabled(name, after, Remove(token, now)) <==> Taken(w.store, name, now) && Holds(name, w, token))
            && forall k :: Taken(w.store, k, now) ==>
                 Taken(after.store, k, now) && after.store.values[k] == w.store.values[k]
  {
  }

  /** Main result: a delete leaves every other holder its key exactly when no other lock is in time. */
  lemma RemoveIsSafeIffNoOtherLease(name: string, w: World, token: string, now: real)
    requires Owned(name, w) && Enabled(name, w, Remove(token, now))
    ensures LeasesHold(name, Next(name, w, Remove(token, now)), now)
            <==> forall other :: InLease(w, other, now) ==> other == token
  {
    var after := Next(name, w, Remove(token, now));
    forall other | other != token ensures InLease(w, other, now) <==> InLease(after, other, now) {
    }
    assert forall other :: !Holds(name, after, other);
  }

  lemma RunExtends(name: string, steps: seq<Step>, next: Step)
    ensures Run(name, steps + [next]) == Next(name, Run(name, steps), next)
    ensures ValidRun(name, steps + [next])
            <==> ValidRun(name, steps) && Reached(steps, next.at) && Enabled(name, Run(name, steps), next)
    ensures RemovesInTime(name, steps + [next])
            <==> RemovesInTime(name, steps) && (next.Remove? ==> InLease(Run(name, steps), next.token, next.at))
  {
  }

  /** Up to the late delete: instance a reads its token in time, runs out, and b gets the lock. */
  lemma LateRemoveSetup(name: string)
    ensures var steps := [Try("a", 30, 0.0), Read("a", 29.0), Try("b", 30, 31.0)];
            && ValidRun(name, steps) && Reached(steps, 31.0)
            && Run(name, steps) == World(Store(map[name := Text("b")], map[name := 61.0]),
                                         map["a" := Lease(0.0, 30), "b" := Lease(31.0, 30)], {"a"})
  {
    var first, second, third := Try("a", 30, 0.0), Read("a", 29.0), Try("b", 30, 31.0);
    RunExtends(name, [], first);
    assert [] + [first] == [first];
    RunExtends(name, [first], second);
    assert [first] + [second] == [first, second];
    RunExtends(name, [first, second], third);
    assert [first, second] + [third] == [first, second, third];
  }

  /** The gap between the read and the delete matters: when the lock runs out in it, the delete takes away
      the next holder's key, and a third instance gets in. */
  lemma LateRemoveBreaksExclusion(name: string)
    ensures var steps := [Try("a", 30, 0.0), Read("a", 29.0), Try("b", 30, 31.0),
                          Remove("a", 32.0), Try("c", 30, 33.0)];
            && ValidRun(name, steps) && !RemovesInTime(name, steps)
            && InLease(Run(name, steps), "b", 33.0) && InLease(Run(name, steps), "c", 33.0)
  {
    var three := [Try("a", 30, 0.0), Read("a", 29.0), Try("b", 30, 31.0)];
    var late, last := Remove("a", 32.0), Try("c", 30, 33.0);
    LateRemoveSetup(name);
    RunExtends(name, three, late);
    assert Run(name, three + [late]) == World(Store(map[], map[]), map["b" := Lease(31.0, 30)], {});
    RunExtends(name, three + [late], last);
    assert three + [late] + [last]
        == [Try("a", 30, 0.0), Read("a", 29.0), Try("b", 30, 31.0), Remove("a", 32.0), Try("c", 30, 33.0)];
  }
}
