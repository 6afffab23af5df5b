/** The lazily expiring store against a map that drops every key at its deadline. */
module CacheRefinement {
  import opened Options
  import opened Cache

  datatype Entry = Entry(value: Value, deadline: Option<real>)

  type Eager<!K> = map<K, Entry>

  predicate Alive(e: Entry, now: real) { e.deadline.None? || now <= e.deadline.value }

  function Living<K>(m: Eager<K>, now: real): Eager<K> { map k | k in m && Alive(m[k], now) :: m[k] }

  function Put<K>(m: Eager<K>, key: K, value: Value, deadline: Option<real>): Eager<K> {
    m[key := Entry(value, deadline)]
  }

  /** An operation on a map that holds living keys only. */
  function ApplyEager<K>(m: Eager<K>, op: Op<K>, now: real): (Eager<K>, Reply) {
    match op
    case Get(k) => (m, Found(if k in m then Some(m[k].value) else None))
    case Set(k, v, expiry, nx) =>
      if nx && k in m then (m, Flag(false))
      else
        var deadline := if expiry.Some? && expiry.value != 0 then Some(now + expiry.value as real) else None;
        (Put(m, k, v, deadline), Flag(true))
    case IncrBy(k, n) =>
      if k !in m then (Put(m, k, Number(n), None), Count(n))
      else if m[k].value.Text? then (m, NotANumber)
      else (Put(m, k, Number(m[k].value.n + n), m[k].deadline), Count(m[k].value.n + n))
    case Delete(k) => (m - {k}, Count(if k in m then 1 else 0))
    case Expire(k, seconds) =>
      if k in m then (Put(m, k, m[k].value, Some(now + seconds as real)), Flag(true)) else (m, Flag(false))
    case Ttl(k) =>
      (m, Count(if k !in m then -2 else if m[k].deadline.Some? then (m[k].deadline.value - now).Floor else -1))
  }

  /** What the lazy store holds, read as entries. */
  function View<K>(s: Store<K>): Eager<K> {
    map k | k in s.values :: Entry(s.values[k], if k in s.deadlines then Some(s.deadlines[k]) else None)
  }

  ghost predicate Tidy<K>(s: Store<K>) { s.deadlines.Keys <= s.values.Keys }

  lemma ApplyIsTidy<K>(s: Store<K>, op: Op<K>, now: real)
    requires Tidy(s)
    ensures Tidy(Apply(s, op, now).0)
  {
  }

  lemma LivingLater<K>(m: Eager<K>, now: real, later: real)
    requires now <= later
    ensures Living(Living(m, now), later) == Living(m, later)
  {
  }

  /** Dropping a stale key does not change what is alive. */
  lemma CleanupKeepsLiving<K>(s: Store<K>, key: K, now: real)
    requires Tidy(s)
    ensures Living(View(Cleanup(s, key, now)), now) == Living(View(s), now)
    ensures key in Cleanup(s, key, now).values <==> key in Living(View(s), now)
    ensures key in Cleanup(s, key, now).values ==>
              View(Cleanup(s, key, now))[key] == Living(View(s), now)[key] == View(s)[key]
  {
  }

  /** Writing one key commutes with dropping the dead ones. */
  lemma PutInLiving<K>(m: Eager<K>, key: K, value: Value, deadline: Option<real>, now: real)
    ensures Living(Put(Living(m, now), key, value, deadline), now) == Living(Put(m, key, value, deadline), now)
  {
  }

  lemma RemoveFromLiving<K>(m: Eager<K>, key: K, now: real)
    ensures Living(Living(m, now) - {key}, now) == Living(m - {key}, now)
  {
  }

  /** An operation that reads or writes through the cleaned-up store does what the eager map does. */
  lemma CleanStepRefines<K>(s: Store<K>, op: Op<K>, now: real)
    requires Tidy(s) && (op.Get? || op.Set? || op.IncrBy? || op.Ttl?)
    ensures var (after, reply) := Apply(s, op, now);
            var (eager, expected) := ApplyEager(Living(View(s), now), op, now);
            Living(View(after), now) == Living(eager, now) && reply == expected
  {
    var c, m := Cleanup(s, op.key, now), Living(View(s), now);
    CleanupKeepsLiving(s, op.key, now);
    var (after, _) := Apply(s, op, now);
    var (eager, _) := ApplyEager(m, op, now);
    if after == c {
      assert eager == m;
      LivingLater(View(s), now, now);
    } else {
      var e := View(after)[op.key];
      assert View(after) == Put(View(c), op.key, e.value, e.deadline);
      assert eager == Put(m, op.key, e.value, e.deadline);
      PutInLiving(View(c), op.key, e.value, e.deadline, now);
    }
  }

  /** Delete and expire look at the key as it stands. */
  lemma RawStepRefines<K>(s: Store<K>, op: Op<K>, now: real)
    requires Tidy(s) && (op.Delete? || op.Expire?)
    ensures var (after, reply) := Apply(s, op, now);
            var (eager, expected) := ApplyEager(Living(View(s), now), op, now);
            && (Living(View(after), now) == Living(eager, now)
                <==> !(op.Expire? && Stale(s, op.key, now) && op.seconds >= 0))
            && (reply == expected <==> !Stale(s, op.key, now))
  {
    var (after, _) := Apply(s, op, now);
    LivingLater(View(s), now, now);
    if op.Delete? {
      assert View(after) == View(s) - {op.key};
      RemoveFromLiving(View(s), op.key, now);
    } else if op.key in s.values {
      var value, deadline := s.values[op.key], Some(now + op.seconds as real);
      assert View(after) == Put(View(s), op.key, value, deadline);
      PutInLiving(View(s), op.key, value, deadline, now);
      assert Stale(s, op.key, now) <==> op.key !in Living(View(s), now);
      if Stale(s, op.key, now) {
        assert op.key in Living(View(after), now) <==> op.seconds >= 0;
        if op.seconds < 0 {
          assert Living(View(after), now) == Living(View(s), now);
        }
      }
    }
  }

  /** Main result, one operation: the lazy store afterwards holds alive what the eager map holds unless the
      operation extends the life of a stale key; and the reply is the same unless the operation is an expire
      or a delete of a stale key. */
  lemma StepRefines<K>(s: Store<K>, op: Op<K>, now: real)
    requires Tidy(s)
    ensures var (after, reply) := Apply(s, op, now);
            var (eager, expected) := ApplyEager(Living(View(s), now), op, now);
            && (Living(View(after), now) == Living(eager, now)
                <==> !(op.Expire? && Stale(s, op.key, now) && op.seconds >= 0))
            && (reply == expected <==> !((op.Expire? || op.Delete?) && Stale(s, op.key, now)))
  {
    if op.Delete? || op.Expire? {
      RawStepRefines(s, op, now);
    } else {
      CleanStepRefines(s, op, now);
    }
  }

  /** An expire of a stale key brings its old value back; the eager map has nothing to bring back. */
  lemma ExpireRevives<K>(s: Store<K>, key: K, seconds: int, now: real)
    requires Tidy(s) && Stale(s, key, now) && seconds >= 0
    ensures var after := Apply(s, Expire(key, seconds), now).0;
            && key !in Living(View(s), now)
            && key in Living(View(after), now) && Living(View(after), now)[key].value == s.values[key]
  {
  }

  // ----- runs -----

  datatype Timed<K> = Timed(op: Op<K>, at: real)

  function RunLazy<K>(ops: seq<Timed<K>>): Store<K> {
    if ops == [] then Store(map[], map[])
    else Apply(RunLazy(ops[..|ops| - 1]), ops[|ops| - 1].op, ops[|ops| - 1].at).0
  }

  function RunEager<K>(ops: seq<Timed<K>>): Eager<K> {
    if ops == [] then map[] else
      var last := ops[|ops| - 1];
      ApplyEager(Living(RunEager(ops[..|ops| - 1]), last.at), last.op, last.at).0
  }

  predicate Chronological<K>(ops: seq<Timed<K>>) {
    forall i :: 0 < i < |ops| ==> ops[i - 1].at <= ops[i].at
  }

  /** No expire in the run brings a stale key back. */
  ghost predicate NoRevival<K>(ops: seq<Timed<K>>) {
    ops == [] ||
    var before, last := ops[..|ops| - 1], ops[|ops| - 1];
    NoRevival(before) && !(last.op.Expire? && Stale(RunLazy(before), last.op.key, last.at) && last.op.seconds >= 0)
  }

  lemma {:induction false} RunRefines<K>(ops: seq<Timed<K>>, now: real)
    requires Chronological(ops) && NoRevival(ops) && (ops == [] || ops[|ops| - 1].at <= now)
    ensures Tidy(RunLazy(ops)) && Living(View(RunLazy(ops)), now) == Living(RunEager(ops), now)
    decreases |ops|
  {
    if ops != [] {
      var before, last := ops[..|ops| - 1], ops[|ops| - 1];
      RunRefines(before, last.at);
      ApplyIsTidy(RunLazy(before), last.op, last.at);
      StepRefines(RunLazy(before), last.op, last.at);
      LivingLater(View(RunLazy(ops)), last.at, now);
      LivingLater(RunEager(ops), last.at, now);
    }
  }

  /** After every operation the lazy store holds alive what the eager map holds. */
  ghost predicate AlwaysAgree<K>(ops: seq<Timed<K>>) {
    ops == [] ||
    var last := ops[|ops| - 1];
    && AlwaysAgree(ops[..|ops| - 1])
    && Living(View(RunLazy(ops)), last.at) == Living(RunEager(ops), last.at)
  }

  /** What the last operation of a run brings back is alive in the lazy store and not in the eager map. */
  lemma RevivalDisagrees<K>(ops: seq<Timed<K>>)
    requires Chronological(ops) && ops != [] && NoRevival(ops[..|ops| - 1]) && !NoRevival(ops)
    ensures var last := ops[|ops| - 1];
            && last.op.key in Living(View(RunLazy(ops)), last.at)
            && last.op.key !in Living(RunEager(ops), last.at)
  {
    var before, last := ops[..|ops| - 1], ops[|ops| - 1];
    RunRefines(before, last.at);
    ExpireRevives(RunLazy(before), last.op.key, last.op.seconds, last.at);
  }

  /** Main result: over any chronological run the living contents agree after every operation if and only if no
      expire brings a stale key back. */
  lemma {:induction false} AgreeIffNoRevival<K>(ops: seq<Timed<K>>)
    requires Chronological(ops)
    ensures AlwaysAgree(ops) <==> NoRevival(ops)
    decreases |ops|
  {
    if ops != [] {
      AgreeIffNoRevival(ops[..|ops| - 1]);
      if NoRevival(ops) {
        RunRefines(ops, ops[|ops| - 1].at);
      } else if NoRevival(ops[..|ops| - 1]) {
        RevivalDisagrees(ops);
      }
    }
  }

  /** Main result: over any run in which no expire brings a stale key back, every operation is answered as by
      the eager map, except exactly a delete or an expire of a stale key. */
  lemma RunAnswersAsEager<K>(ops: seq<Timed<K>>, next: Timed<K>)
    requires Chronological(ops) && NoRevival(ops) && (ops == [] || ops[|ops| - 1].at <= next.at)
    ensures Apply(RunLazy(ops), next.op, next.at).1 == ApplyEager(Living(RunEager(ops), next.at), next.op, next.at).1
            <==> !((next.op.Expire? || next.op.Delete?) && Stale(RunLazy(ops), next.op.key, next.at))
  {
    RunRefines(ops, next.at);
    StepRefines(RunLazy(ops), next.op, next.at);
  }
}
