/** Runs that reach the bound on how far keys get apart: all requests pick the same key, and none of their replies
    decodes. */
module ClientWorstCase {
  import opened Options
  import opened Sums
  import opened Sequences
  import opened ClientProtocol
  import opened ClientBalance
  import KeyPool
  import CircuitBreaker
  import B = KeyPoolBalance

  /** A reply that does not decode: the send is metered all the same, and tried again. */
  function BadRound(c: string): seq<Step> { [Send(c, Ok), Credit(c), Meter(c), Parse(c, false), Retry(c)] }

  function Opening(c: string, cost: nat): seq<Step> { [Begin(c, cost), GetKey(c), Admit(c)] }

  function Rounds(c: string): seq<Step> { BadRound(c) + BadRound(c) + BadRound(c) }

  lemma {:induction false} RunSplit(w: World, first: seq<Step>, second: seq<Step>)
    ensures Run(w, first + second) == Run(Run(w, first), second)
    decreases |second|
  {
    if second == [] {
      assert first + second == first;
    } else {
      var n := |second| - 1;
      RunSplit(w, first, second[..n]);
      assert (first + second)[..|first| + n] == first + second[..n];
    }
  }

  lemma RunOne(w: World, step: Step)
    ensures Run(w, [step]) == Next(w, step)
  {
    assert [step][..0] == [];
    assert Run(w, []) == w;
  }

  lemma RunMore(w: World, steps: seq<Step>, next: Step)
    ensures Run(w, steps + [next]) == Next(Run(w, steps), next)
  {
    RunSplit(w, steps, [next]);
    RunOne(Run(w, steps), next);
  }

  function Usages(pool: KeyPool.Pool): map<string, int> { map k | k in pool :: pool[k].usage }

  /** The state of one request, and the usages of the pool. */
  datatype Local = Local(call: Call, usage: map<string, int>)

  ghost predicate IsAt(w: World, c: string, l: Local) {
    c in w.calls && w.calls[c] == l.call && Usages(w.pool) == l.usage
  }

  predicate OfRound(step: Step, c: string) {
    (step.Send? || step.Credit? || step.Meter? || step.Parse? || step.Retry?) && step.c == c
  }

  function LocalStep(l: Local, step: Step): Local {
    Local(CallAfter(step, l.call, None, false),
          if step.Meter? && l.call.pc.Credited? && l.call.pc.key.Some? && l.call.pc.key.value in l.usage
          then l.usage[l.call.pc.key.value := l.usage[l.call.pc.key.value] + l.call.cost] else l.usage)
  }

  function LocalRun(l: Local, steps: seq<Step>): Local { Fold(LocalStep, l, steps) }

  lemma StepIsLocal(w: World, step: Step, c: string, l: Local)
    requires IsAt(w, c, l) && OfRound(step, c)
    ensures IsAt(Next(w, step), c, LocalStep(l, step))
  {
  }

  lemma {:induction false} RunIsLocal(w: World, steps: seq<Step>, c: string, l: Local)
    requires IsAt(w, c, l) && forall i :: 0 <= i < |steps| ==> OfRound(steps[i], c)
    ensures IsAt(Run(w, steps), c, LocalRun(l, steps))
    decreases |steps|
  {
    if steps != [] {
      var n := |steps| - 1;
      RunIsLocal(w, steps[..n], c, l);
      StepIsLocal(Run(w, steps[..n]), steps[n], c, LocalRun(l, steps[..n]));
    }
  }

  function SendingAgain(cost: nat, key: string, rounds: nat): Call {
    Call(cost, if rounds > MAX_RETRIES then GaveUp(OtherFailure) else Sending(Some(key)), rounds, rounds, 0, 0)
  }

  /** A round with an undecodable reply records the cost on the key and leaves the request sending again. */
  lemma RoundIsMetered(c: string, cost: nat, key: string, rounds: nat, usage: map<string, int>)
    requires rounds <= MAX_RETRIES && key in usage
    ensures LocalRun(Local(SendingAgain(cost, key, rounds), usage), BadRound(c))
            == Local(SendingAgain(cost, key, rounds + 1), usage[key := usage[key] + cost])
  {
    FoldFive(LocalStep, Local(SendingAgain(cost, key, rounds), usage),
             Send(c, Ok), Credit(c), Meter(c), Parse(c, false), Retry(c));
  }

  lemma ThreeRounds(c: string, cost: nat, key: string, usage: map<string, int>)
    requires key in usage
    ensures LocalRun(Local(SendingAgain(cost, key, 0), usage), Rounds(c))
            == Local(SendingAgain(cost, key, 3), usage[key := usage[key] + 3 * cost])
  {
    var start := Local(SendingAgain(cost, key, 0), usage);
    var u1 := usage[key := usage[key] + cost];
    var u2 := u1[key := u1[key] + cost];
    RoundIsMetered(c, cost, key, 0, usage);
    RoundIsMetered(c, cost, key, 1, u1);
    RoundIsMetered(c, cost, key, 2, u2);
    var u3 := u2[key := u2[key] + cost];
    FoldThrice(LocalStep, start, Local(SendingAgain(cost, key, 1), u1), Local(SendingAgain(cost, key, 2), u2),
               Local(SendingAgain(cost, key, 3), u3), BadRound(c));
    assert u3 == usage[key := usage[key] + 3 * cost];
  }

  /** The rounds of one request, when it is sending for the first time. */
  lemma RoundsFollow(w: World, c: string, cost: nat, key: string, usage: map<string, int>)
    requires key in usage && IsAt(w, c, Local(SendingAgain(cost, key, 0), usage))
    ensures IsAt(Run(w, Rounds(c)), c, Local(SendingAgain(cost, key, 3), usage[key := usage[key] + 3 * cost]))
  {
    RunIsLocal(w, Rounds(c), c, Local(SendingAgain(cost, key, 0), usage));
    ThreeRounds(c, cost, key, usage);
  }

  // ----- all requests begin -----

  lemma {:induction false} LeastUsedSame(order: seq<string>, p: KeyPool.Pool, q: KeyPool.Pool)
    requires p.Keys == q.Keys && forall k :: k in p ==> p[k].status == q[k].status && p[k].usage == q[k].usage
    ensures KeyPool.LeastUsed(order, p) == KeyPool.LeastUsed(order, q)
  {
    if order != [] {
      LeastUsedSame(order[..|order| - 1], p, q);
    }
  }

  /** Selecting a key does not change which one would be selected next. */
  lemma PickedAgain(order: seq<string>, pool: KeyPool.Pool, now: real)
    ensures var after := KeyPool.AfterSelect(order, pool, now);
            && KeyPool.LeastUsed(order, KeyPool.Refreshed(after, now))
               == KeyPool.LeastUsed(order, KeyPool.Refreshed(pool, now))
            && Usages(after) == Usages(pool)
  {
    LeastUsedSame(order, KeyPool.Refreshed(KeyPool.AfterSelect(order, pool, now), now), KeyPool.Refreshed(pool, now));
  }

  predicate AllSending(calls: map<string, Call>, ids: set<string>, cost: nat, key: string) {
    calls.Keys == ids && forall c :: c in ids ==> calls[c] == SendingAgain(cost, key, 0)
  }

  /** Nothing is charged, and each of the `n` requests holds its cost. */
  ghost predicate AllHeld(q: Q.Quota, ids: set<string>, n: nat, cost: nat) {
    && q.charged == map[] && q.reservations.Keys == ids && Q.Reserved(q) == n * cost
    && forall c :: c in ids ==> q.reservations[c].Active()
  }

  /** The breaker is fresh and `key` is next. */
  predicate KeyIsNext(w: World, key: string) { w.breaker == CircuitBreaker.FRESH && Picked(w) == Some(key) }

  ghost predicate Opened(w: World, ids: set<string>, n: nat, cost: nat, key: string) {
    AllSending(w.calls, ids, cost, key) && AllHeld(w.quota, ids, n, cost) && KeyIsNext(w, key)
  }

  /** The requests have begun, the usages are as before, and so is the limit. */
  ghost predicate OpenedFrom(w: World, after: World, ids: set<string>, n: nat, cost: nat, key: string) {
    && Opened(after, ids, n, cost, key)
    && Usages(after.pool) == Usages(w.pool) && after.quota.limit == w.quota.limit
  }

  lemma HoldsOneMore(q: Q.Quota, ids: set<string>, n: nat, cost: nat, day: nat, c: string)
    requires AllHeld(q, ids, n, cost) && c !in ids && (n + 1) * cost <= q.limit
    ensures Q.Fits(q, day, cost)
    ensures AllHeld(Q.AfterReserve(q, day, c, cost), ids + {c}, n + 1, cost)
  {
    assert (n + 1) * cost == n * cost + cost;
    var after := Q.AfterReserve(q, day, c, cost);
    TotalUpdate(Q.ActiveUnits(q.reservations), c, cost);
    assert Q.ActiveUnits(after.reservations) == Q.ActiveUnits(q.reservations)[c := cost];
  }

  lemma BeginsHolding(w: World, c: string, cost: nat)
    requires c !in w.calls && c !in w.quota.reservations && Q.Fits(w.quota, w.day, cost)
    ensures Next(w, Begin(c, cost))
            == w.(calls := w.calls[c := Call(cost, Holding, 0, 0, 0, 0)],
                  quota := Q.AfterReserve(w.quota, w.day, c, cost))
  {
  }

  lemma ThenIsKeyed(w: World, c: string, call: Call, key: string)
    requires c in w.calls && w.calls[c] == call && call.pc.Holding? && KeyIsNext(w, key)
    ensures var after := Next(w, GetKey(c));
            && after.calls == w.calls[c := call.(pc := Keyed(Some(key)))]
            && after.quota == w.quota && KeyIsNext(after, key) && Usages(after.pool) == Usages(w.pool)
  {
    PickedAgain(w.order, w.pool, w.now);
  }

  lemma ThenSends(w: World, c: string, call: Call, key: string)
    requires c in w.calls && w.calls[c] == call && call.pc == Keyed(Some(key)) && KeyIsNext(w, key)
    ensures var after := Next(w, Admit(c));
            && after.calls == w.calls[c := call.(pc := Sending(Some(key)))]
            && after.quota == w.quota && KeyIsNext(after, key) && after.pool == w.pool
  {
  }

  /** Reserve, get the key and pass the breaker, beside the requests that did so before. */
  lemma OneMoreOpens(w: World, ids: set<string>, n: nat, cost: nat, key: string, c: string)
    requires Opened(w, ids, n, cost, key) && c !in ids && (n + 1) * cost <= w.quota.limit
    ensures OpenedFrom(w, Run(w, Opening(c, cost)), ids + {c}, n + 1, cost, key)
  {
    HoldsOneMore(w.quota, ids, n, cost, w.day, c);
    BeginsHolding(w, c, cost);
    RunThree(w, Begin(c, cost), GetKey(c), Admit(c));
    HeldOpens(w, Next(w, Begin(c, cost)), ids, n, cost, key, c);
  }

  lemma HeldOpens(w: World, held: World, ids: set<string>, n: nat, cost: nat, key: string, c: string)
    requires AllSending(w.calls, ids, cost, key) && KeyIsNext(w, key) && c !in ids
    requires held == w.(calls := w.calls[c := Call(cost, Holding, 0, 0, 0, 0)], quota := held.quota)
    requires AllHeld(held.quota, ids + {c}, n + 1, cost) && held.quota.limit == w.quota.limit
    ensures OpenedFrom(w, Next(Next(held, GetKey(c)), Admit(c)), ids + {c}, n + 1, cost, key)
  {
    var holding := Call(cost, Holding, 0, 0, 0, 0);
    ThenIsKeyed(held, c, holding, key);
    ThenSends(Next(held, GetKey(c)), c, holding.(pc := Keyed(Some(key))), key);
  }

  lemma RunThree(w: World, a: Step, b: Step, c: Step)
    ensures Run(w, [a, b, c]) == Next(Next(Next(w, a), b), c)
  {
    RunOne(w, a);
    RunMore(w, [a], b);
    RunMore(w, [a] + [b], c);
    assert [a] + [b] + [c] == [a, b, c];
  }

  function Openings(ids: seq<string>, cost: nat): seq<Step> {
    if ids == [] then [] else Openings(ids[..|ids| - 1], cost) + Opening(ids[|ids| - 1], cost)
  }

  predicate Distinct(ids: seq<string>) { forall i, j :: 0 <= i < j < |ids| ==> ids[i] != ids[j] }

  function Members(ids: seq<string>): set<string> { set c | c in ids }

  lemma OpensAfter(w: World, first: seq<Step>, ids: set<string>, n: nat, cost: nat, key: string, c: string)
    requires OpenedFrom(w, Run(w, first), ids, n, cost, key) && c !in ids && (n + 1) * cost <= w.quota.limit
    ensures OpenedFrom(w, Run(w, first + Opening(c, cost)), ids + {c}, n + 1, cost, key)
  {
    RunSplit(w, first, Opening(c, cost));
    OneMoreOpens(Run(w, first), ids, n, cost, key, c);
  }

  lemma {:induction false} AllOpen(w: World, ids: seq<string>, cost: nat, key: string)
    requires Opened(w, {}, 0, cost, key) && Distinct(ids) && |ids| * cost <= w.quota.limit
    ensures OpenedFrom(w, Run(w, Openings(ids, cost)), Members(ids), |ids|, cost, key)
  {
    if ids == [] {
      assert Members(ids) == {};
    } else {
      var n := |ids| - 1;
      assert |ids| * cost == n * cost + cost;
      AllOpen(w, ids[..n], cost, key);
      OpensAfter(w, Openings(ids[..n], cost), Members(ids[..n]), n, cost, key, ids[n]);
      assert Members(ids) == Members(ids[..n]) + {ids[n]};
    }
  }

  // ----- all replies fail to decode -----

  lemma {:induction false} OthersStay(w: World, steps: seq<Step>, c: string, d: string)
    requires d in w.calls && d != c && forall i :: 0 <= i < |steps| ==> OfRound(steps[i], c)
    ensures d in Run(w, steps).calls && Run(w, steps).calls[d] == w.calls[d]
    decreases |steps|
  {
    if steps != [] {
      OthersStay(w, steps[..|steps| - 1], c, d);
    }
  }

  /** The first `n` requests have had their rounds, the others are still sending for the first time. */
  ghost predicate Spent(w: World, ids: seq<string>, n: nat, cost: nat, key: string, usage: map<string, int>) {
    && key in usage && Usages(w.pool) == usage[key := usage[key] + n * (3 * cost)]
    && forall i :: 0 <= i < |ids| ==>
         ids[i] in w.calls && w.calls[ids[i]] == SendingAgain(cost, key, if i < n then 3 else 0)
  }

  lemma OneMoreSpends(w: World, ids: seq<string>, n: nat, cost: nat, key: string, usage: map<string, int>)
    requires Distinct(ids) && n < |ids| && Spent(w, ids, n, cost, key, usage)
    ensures Spent(Run(w, Rounds(ids[n])), ids, n + 1, cost, key, usage)
  {
    var c, now := ids[n], usage[key := usage[key] + n * (3 * cost)];
    RoundsFollow(w, c, cost, key, now);
    assert (n + 1) * (3 * cost) == n * (3 * cost) + 3 * cost;
    assert now[key := now[key] + 3 * cost] == usage[key := usage[key] + (n + 1) * (3 * cost)];
    forall i | 0 <= i < |ids| && i != n
      ensures ids[i] in Run(w, Rounds(c)).calls && Run(w, Rounds(c)).calls[ids[i]] == w.calls[ids[i]]
    {
      OthersStay(w, Rounds(c), c, ids[i]);
    }
  }

  function AllRounds(ids: seq<string>, n: nat): seq<Step>
    requires n <= |ids|
  {
    if n == 0 then [] else AllRounds(ids, n - 1) + Rounds(ids[n - 1])
  }

  /** The world after the rounds of the first `n` requests. */
  ghost function AfterRounds(w: World, ids: seq<string>, n: nat): World
    requires n <= |ids|
  {
    if n == 0 then w else Run(AfterRounds(w, ids, n - 1), Rounds(ids[n - 1]))
  }

  lemma {:induction false} RoundsAreRun(w: World, ids: seq<string>, n: nat)
    requires n <= |ids|
    ensures Run(w, AllRounds(ids, n)) == AfterRounds(w, ids, n)
  {
    if n > 0 {
      RoundsAreRun(w, ids, n - 1);
      RunSplit(w, AllRounds(ids, n - 1), Rounds(ids[n - 1]));
    }
  }

  lemma {:induction false} AllSpend(w: World, ids: seq<string>, n: nat, cost: nat, key: string, usage: map<string, int>)
    requires Distinct(ids) && n <= |ids| && Spent(w, ids, 0, cost, key, usage)
    ensures Spent(AfterRounds(w, ids, n), ids, n, cost, key, usage)
  {
    if n > 0 {
      AllSpend(w, ids, n - 1, cost, key, usage);
      OneMoreSpends(AfterRounds(w, ids, n - 1), ids, n - 1, cost, key, usage);
    }
  }

  // ----- within the premises of the bound -----

  /** Along a run of these requests without API errors the available keys stay available. */
  predicate Calm(steps: seq<Step>, ids: set<string>, cost: nat) {
    forall i :: 0 <= i < |steps| ==>
      !steps[i].Tick? && !steps[i].Report? && steps[i].c in ids && (steps[i].Begin? ==> steps[i].cost == cost)
  }

  ghost predicate CalmState(w: World, ids: set<string>, cost: nat, pool: KeyPool.Pool) {
    && w.calls.Keys <= ids && (forall c :: c in w.calls ==> w.calls[c].cost == cost)
    && forall k :: KeyPool.Usable(pool, k) ==> KeyPool.Usable(w.pool, k)
  }

  lemma CalmStep(w: World, step: Step, ids: set<string>, cost: nat, pool: KeyPool.Pool)
    requires CalmState(w, ids, cost, pool) && Calm([step], ids, cost)
    ensures CalmState(Next(w, step), ids, cost, pool) && Next(w, step).order == w.order
  {
    assert [step][0] == step;
  }

  lemma {:induction false} CalmRunIsWithin(w: World, steps: seq<Step>, stay: set<string>, ids: set<string>, cost: nat)
    requires w.calls == map[] && Calm(steps, ids, cost)
    requires forall k :: k in stay ==> k in w.order && KeyPool.Usable(w.pool, k)
    ensures Within(w, steps, stay, |ids|, cost)
    ensures CalmState(Run(w, steps), ids, cost, w.pool) && Run(w, steps).order == w.order
    decreases |steps|
  {
    if steps != [] {
      var n := |steps| - 1;
      assert [steps[n]][0] == steps[n];
      CalmRunIsWithin(w, steps[..n], stay, ids, cost);
      CalmStep(Run(w, steps[..n]), steps[n], ids, cost, w.pool);
    }
    B.SubsetSize(Flying(Run(w, steps).calls), ids);
  }

  lemma {:induction false} OpeningsAreCalm(ids: seq<string>, all: set<string>, cost: nat)
    requires forall i :: 0 <= i < |ids| ==> ids[i] in all
    ensures Calm(Openings(ids, cost), all, cost)
  {
    if ids != [] {
      OpeningsAreCalm(ids[..|ids| - 1], all, cost);
    }
  }

  lemma {:induction false} RoundsAreCalm(ids: seq<string>, n: nat, all: set<string>, cost: nat)
    requires n <= |ids| && forall i :: 0 <= i < |ids| ==> ids[i] in all
    ensures Calm(AllRounds(ids, n), all, cost)
  {
    if n > 0 {
      RoundsAreCalm(ids, n - 1, all, cost);
    }
  }

  lemma {:induction false} MembersCount(ids: seq<string>)
    requires Distinct(ids)
    ensures |Members(ids)| == |ids|
  {
    if ids == [] {
      assert Members(ids) == {};
    } else {
      var n := |ids| - 1;
      MembersCount(ids[..n]);
      assert Members(ids) == Members(ids[..n]) + {ids[n]};
    }
  }

  function WorstRun(ids: seq<string>, cost: nat): seq<Step> { Openings(ids, cost) + AllRounds(ids, |ids|) }

  lemma WorstRunIsWithin(w: World, ids: seq<string>, stay: set<string>, cost: nat)
    requires w.calls == map[] && Distinct(ids)
    requires forall k :: k in stay ==> k in w.order && KeyPool.Usable(w.pool, k)
    ensures Within(w, WorstRun(ids, cost), stay, |ids|, cost)
  {
    OpeningsAreCalm(ids, Members(ids), cost);
    RoundsAreCalm(ids, |ids|, Members(ids), cost);
    CalmRunIsWithin(w, WorstRun(ids, cost), stay, Members(ids), cost);
    MembersCount(ids);
  }

  lemma OpenedIsUnspent(w: World, ids: seq<string>, cost: nat, key: string, usage: map<string, int>)
    requires Opened(w, Members(ids), |ids|, cost, key) && Usages(w.pool) == usage && key in usage
    ensures Spent(w, ids, 0, cost, key, usage)
  {
    assert usage[key := usage[key] + 0 * (3 * cost)] == usage;
    forall i | 0 <= i < |ids| ensures ids[i] in w.calls && w.calls[ids[i]] == SendingAgain(cost, key, 0) {
      assert ids[i] in Members(ids);
    }
  }

  lemma WorstRunSpends(w: World, ids: seq<string>, cost: nat, key: string)
    requires Opened(w, {}, 0, cost, key) && Distinct(ids) && |ids| * cost <= w.quota.limit && key in w.pool
    ensures Spent(Run(w, WorstRun(ids, cost)), ids, |ids|, cost, key, Usages(w.pool))
  {
    AllOpen(w, ids, cost, key);
    OpenedIsUnspent(Run(w, Openings(ids, cost)), ids, cost, key, Usages(w.pool));
    AllSpend(Run(w, Openings(ids, cost)), ids, |ids|, cost, key, Usages(w.pool));
    RoundsAreRun(Run(w, Openings(ids, cost)), ids, |ids|);
    RunSplit(w, Openings(ids, cost), AllRounds(ids, |ids|));
  }

  lemma FreshIsOpened(limit: int, order: seq<string>, pool: KeyPool.Pool, cfg: CircuitBreaker.Config,
                      cost: nat, key: string)
    requires KeyPool.LeastUsed(order, KeyPool.Refreshed(pool, 0.0)) == Some(key)
    ensures Opened(Fresh(limit, order, pool, cfg), {}, 0, cost, key)
  {
    assert Q.ActiveUnits(map[]) == map[];
  }

  lemma SpentGap(w: World, ids: seq<string>, cost: nat, key: string, other: string, usage: map<string, int>)
    requires Spent(w, ids, |ids|, cost, key, usage) && other in usage && other != key && usage[key] == usage[other]
    ensures key in w.pool && other in w.pool
    ensures w.pool[key].usage - w.pool[other].usage == |ids| * ((MAX_RETRIES + 1) * cost)
  {
    assert key in Usages(w.pool) && other in Usages(w.pool);
    assert Usages(w.pool)[key] == w.pool[key].usage && Usages(w.pool)[other] == w.pool[other].usage;
  }

  /** Main result: the bound cannot be lowered for any number of requests and any cost the limit allows: there is a
      run with as many requests in flight, and both keys available throughout, that takes two keys of equal usage
      requests * (MAX_RETRIES + 1) * cost apart. */
  lemma BoundIsReached(limit: int, order: seq<string>, pool: KeyPool.Pool, cfg: CircuitBreaker.Config,
                       ids: seq<string>, cost: nat, key: string, other: string)
    requires Distinct(ids) && |ids| * cost <= limit
    requires KeyPool.LeastUsed(order, KeyPool.Refreshed(pool, 0.0)) == Some(key)
    requires key != other && other in order && KeyPool.Usable(pool, key) && KeyPool.Usable(pool, other)
    requires pool[key].usage == pool[other].usage
    ensures var start := Fresh(limit, order, pool, cfg);
            var end := Run(start, WorstRun(ids, cost)).pool;
            && Within(start, WorstRun(ids, cost), {key, other}, |ids|, cost)
            && key in end && other in end
            && end[key].usage - end[other].usage == |ids| * ((MAX_RETRIES + 1) * cost)
  {
    var start := Fresh(limit, order, pool, cfg);
    WorstRunIsWithin(start, ids, {key, other}, cost);
    FreshIsOpened(limit, order, pool, cfg, cost, key);
    WorstRunSpends(start, ids, cost, key);
    SpentGap(Run(start, WorstRun(ids, cost)), ids, cost, key, other, Usages(pool));
  }
}
