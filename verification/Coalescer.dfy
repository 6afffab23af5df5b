/** Single-flight coalescing: concurrent requests for a key share one execution. The same protocol
    serves the API resolvers and the AI tasks. */
module Coalescer {
  import opened Options

  datatype Outcome = Result(value: string) | Error(exception: string)

  /** The future of a flight is named by the task that leads it. */
  type Flights = map<string, string>

  /** The two critical sections of a request; what happens between them is not under the lock. */
  class SingleFlightCoalescer {
    var inFlight: Flights
    var totalRequests: nat
    var coalescedRequests: nat

    constructor ()
      ensures inFlight == map[] && totalRequests == coalescedRequests == 0
    {
      inFlight, totalRequests, coalescedRequests := map[], 0, 0;
    }

    method Join(task: string, key: string) returns (leader: string)
      modifies this
      ensures leader == LeaderFor(old(inFlight), task, key)
      ensures leader == if key in old(inFlight) then old(inFlight)[key] else task
      ensures inFlight == old(inFlight)[key := leader]
      ensures totalRequests == old(totalRequests) + 1
      ensures coalescedRequests == old(coalescedRequests) + if key in old(inFlight) then 1 else 0
    {
      totalRequests := totalRequests + 1;
      if key in inFlight {
        coalescedRequests := coalescedRequests + 1;
        leader := inFlight[key];
      } else {
        inFlight := inFlight[key := task];
        leader := task;
      }
    }

    method Leave(key: string)
      modifies this`inFlight
      ensures inFlight == old(inFlight) - {key}
    {
      inFlight := inFlight - {key};
    }
  }

  function LeaderFor(inFlight: Flights, task: string, key: string): string {
    if key in inFlight then inFlight[key] else task
  }

  /** A leader runs its action, then resolves its future, then leaves; a follower waits for the
      leader it joined. */
  datatype Task =
    | Acting(key: string)
    | Resolved(key: string, outcome: Outcome)
    | Waiting(key: string, leader: string)
    | Finished(key: string, leader: string, outcome: Outcome)

  datatype World = World(
    inFlight: Flights, futures: map<string, Option<Outcome>>, tasks: map<string, Task>,
    total: nat, coalesced: nat, actions: nat)

  datatype Step =
    | Enter(task: string, key: string)
    | Complete(task: string, outcome: Outcome)
    | Pop(task: string)
    | Wake(task: string)

  const IDLE := World(map[], map[], map[], 0, 0, 0)

  function Next(w: World, step: Step): World {
    match step
    case Enter(t, key) =>
      if t in w.tasks then w else
        var leader := LeaderFor(w.inFlight, t, key);
        if leader != t || key in w.inFlight
        then w.(tasks := w.tasks[t := Waiting(key, leader)], total := w.total + 1, coalesced := w.coalesced + 1)
        else w.(inFlight := w.inFlight[key := t], futures := w.futures[t := None], tasks := w.tasks[t := Acting(key)],
                total := w.total + 1, actions := w.actions + 1)
    case Complete(t, o) =>
      if t in w.tasks && w.tasks[t].Acting?
      then w.(futures := w.futures[t := Some(o)], tasks := w.tasks[t := Resolved(w.tasks[t].key, o)]) else w
    case Pop(t) =>
      if t in w.tasks && w.tasks[t].Resolved?
      then w.(inFlight := w.inFlight - {w.tasks[t].key},
              tasks := w.tasks[t := Finished(w.tasks[t].key, t, w.tasks[t].outcome)]) else w
    case Wake(t) =>
      if t in w.tasks && w.tasks[t].Waiting? && w.tasks[t].leader in w.futures && w.futures[w.tasks[t].leader].Some?
      then w.(tasks := w.tasks[t := Finished(w.tasks[t].key, w.tasks[t].leader, w.futures[w.tasks[t].leader].value)])
      else w
  }

  function Run(steps: seq<Step>): World {
    if steps == [] then IDLE else Next(Run(steps[..|steps| - 1]), steps[|steps| - 1])
  }

  predicate Leads(task: Task) { task.Acting? || task.Resolved? }

  /** What the future of a flight must hold, given its leader's state. */
  ghost predicate FutureOk(w: World, l: string, key: string) {
    && l in w.tasks && l in w.futures && w.tasks[l].key == key
    && match w.tasks[l]
       case Acting(_) => w.futures[l].None?
       case Resolved(_, o) => w.futures[l] == Some(o)
       case Finished(_, leader, o) => leader == l && w.futures[l] == Some(o)
       case Waiting(_, _) => false
  }

  ghost predicate TaskOk(w: World, t: string)
    requires t in w.tasks
  {
    match w.tasks[t]
    case Acting(key) => key in w.inFlight && w.inFlight[key] == t && FutureOk(w, t, key)
    case Resolved(key, _) => key in w.inFlight && w.inFlight[key] == t && FutureOk(w, t, key)
    case Waiting(key, l) => FutureOk(w, l, key)
    case Finished(key, l, o) => FutureOk(w, l, key) && w.futures[l] == Some(o)
  }

  ghost predicate WorldOk(w: World) {
    && (forall t :: t in w.tasks ==> TaskOk(w, t))
    && EntriesOk(w) && FuturesOk(w)
    && w.total == w.actions + w.coalesced
  }

  ghost predicate EntriesOk(w: World) {
    forall key :: key in w.inFlight ==>
      w.inFlight[key] in w.tasks && Leads(w.tasks[w.inFlight[key]]) && w.tasks[w.inFlight[key]].key == key
  }

  ghost predicate FuturesOk(w: World) {
    forall t :: t in w.futures ==> t in w.tasks
  }

  lemma EnterKeeps(w: World, step: Step, t: string)
    requires WorldOk(w) && step.Enter? && t in Next(w, step).tasks
    ensures TaskOk(Next(w, step), t)
  {
  }

  lemma CompleteKeeps(w: World, step: Step, t: string)
    requires WorldOk(w) && step.Complete? && t in Next(w, step).tasks
    ensures TaskOk(Next(w, step), t)
  {
  }

  lemma PopKeeps(w: World, step: Step, t: string)
    requires WorldOk(w) && step.Pop? && t in Next(w, step).tasks
    ensures TaskOk(Next(w, step), t)
  {
  }

  lemma WakeKeeps(w: World, step: Step, t: string)
    requires WorldOk(w) && step.Wake? && t in Next(w, step).tasks
    ensures TaskOk(Next(w, step), t)
  {
  }

  lemma StepKeeps(w: World, step: Step)
    requires WorldOk(w)
    ensures WorldOk(Next(w, step))
  {
    forall t | t in Next(w, step).tasks ensures TaskOk(Next(w, step), t) {
      match step {
        case Enter(_, _) => EnterKeeps(w, step, t);
        case Complete(_, _) => CompleteKeeps(w, step, t);
        case Pop(_) => PopKeeps(w, step, t);
        case Wake(_) => WakeKeeps(w, step, t);
      }
    }
    EntriesKeep(w, step);
  }

  lemma EntriesKeep(w: World, step: Step)
    requires WorldOk(w)
    ensures EntriesOk(Next(w, step)) && FuturesOk(Next(w, step))
  {
  }

  lemma {:induction false} EveryRunIsOk(steps: seq<Step>)
    ensures WorldOk(Run(steps))
    decreases |steps|
  {
    if steps != [] {
      EveryRunIsOk(steps[..|steps| - 1]);
      StepKeeps(Run(steps[..|steps| - 1]), steps[|steps| - 1]);
    }
  }

  /** Main result, at every point of every interleaving without cancellation: per key at most one task
      leads, and it owns the in-flight entry, so the entry it pops is its own. */
  lemma OneLeaderPerKey(steps: seq<Step>, t: string, u: string)
    requires var w := Run(steps); t in w.tasks && u in w.tasks && Leads(w.tasks[t]) && Leads(w.tasks[u])
    requires Run(steps).tasks[t].key == Run(steps).tasks[u].key
    ensures t == u && var w := Run(steps); w.tasks[t].key in w.inFlight && w.inFlight[w.tasks[t].key] == t
  {
    EveryRunIsOk(steps);
    assert TaskOk(Run(steps), t) && TaskOk(Run(steps), u);
  }

  /** Main result: whoever is finished got the outcome of the leader it joined, which ran the action
      for the same key; and a waiting task can only be waiting for an action still running or for
      being woken up. */
  lemma FollowersGetLeadersOutcome(steps: seq<Step>, t: string)
    requires t in Run(steps).tasks
    ensures var w := Run(steps);
            match w.tasks[t]
            case Finished(key, l, o) =>
              l in w.tasks && w.tasks[l].key == key
              && (w.tasks[l] == Resolved(key, o) || w.tasks[l] == Finished(key, l, o))
            case Waiting(key, l) =>
              l in w.tasks && w.tasks[l].key == key
              && (w.tasks[l] == Acting(key) || Next(w, Wake(t)).tasks[t].Finished?)
            case _ => true
  {
    EveryRunIsOk(steps);
    assert TaskOk(Run(steps), t);
  }

  /** Main result: requests are counted as actions run plus requests coalesced; once no task leads, no
      entry is left in flight and every waiting task has its outcome ready. */
  lemma NothingLeftBehind(steps: seq<Step>)
    ensures Run(steps).total == Run(steps).actions + Run(steps).coalesced
    ensures (forall t :: t in Run(steps).tasks ==> !Leads(Run(steps).tasks[t])) ==>
              && Run(steps).inFlight == map[]
              && forall t :: t in Run(steps).tasks && Run(steps).tasks[t].Waiting? ==>
                   var l := Run(steps).tasks[t].leader; l in Run(steps).futures && Run(steps).futures[l].Some?
  {
    EveryRunIsOk(steps);
    var w := Run(steps);
    if forall t :: t in w.tasks ==> !Leads(w.tasks[t]) {
      assert w.inFlight == map[];
      forall t | t in w.tasks && w.tasks[t].Waiting?
        ensures w.tasks[t].leader in w.futures && w.futures[w.tasks[t].leader].Some?
      {
        assert TaskOk(w, t);
      }
    }
  }

  /** An action's outcome never changes once it is known, so every follower of a flight, however late
      it joined, gets the same one. */
  lemma OutcomesAreFinal(w: World, step: Step, l: string)
    requires WorldOk(w) && l in w.futures && w.futures[l].Some?
    ensures l in Next(w, step).futures && Next(w, step).futures[l] == w.futures[l]
  {
  }

  lemma RunExtends(steps: seq<Step>, next: Step)
    ensures Run(steps + [next]) == Next(Run(steps), next)
  {
    assert (steps + [next])[..|steps|] == steps;
  }

  predicate Settled(w: World, l: string, outcome: Outcome) { l in w.futures && w.futures[l] == Some(outcome) }

  lemma {:induction false} SettledStays(steps: seq<Step>, more: seq<Step>, l: string, outcome: Outcome)
    requires Settled(Run(steps), l, outcome)
    ensures Settled(Run(steps + more), l, outcome)
    decreases |more|
  {
    if more == [] {
      assert steps + more == steps;
    } else {
      var fewer, last := more[..|more| - 1], more[|more| - 1];
      SettledStays(steps, fewer, l, outcome);
      EveryRunIsOk(steps + fewer);
      OutcomesAreFinal(Run(steps + fewer), last, l);
      RunExtends(steps + fewer, last);
      assert steps + more == (steps + fewer) + [last];
    }
  }

  /** Over every run: whoever joined a flight, early or late, can only ever finish with its one outcome. */
  lemma FlightHasOneOutcome(steps: seq<Step>, more: seq<Step>, l: string, outcome: Outcome)
    requires Settled(Run(steps), l, outcome)
    ensures var w := Run(steps + more);
            && Settled(w, l, outcome)
            && forall t :: t in w.tasks && w.tasks[t].Finished? && w.tasks[t].leader == l ==>
                 w.tasks[t].outcome == outcome
  {
    SettledStays(steps, more, l, outcome);
    EveryRunIsOk(steps + more);
    FinishedHasOutcome(Run(steps + more), l);
  }

  lemma FinishedHasOutcome(w: World, l: string)
    requires WorldOk(w) && l in w.futures
    ensures forall t :: t in w.tasks && w.tasks[t].Finished? && w.tasks[t].leader == l ==>
              Some(w.tasks[t].outcome) == w.futures[l]
  {
    forall t | t in w.tasks && w.tasks[t].Finished? && w.tasks[t].leader == l
      ensures Some(w.tasks[t].outcome) == w.futures[l]
    {
      assert TaskOk(w, t);
    }
  }

  // ----- every flight goes through -----

  /** A new request starts an action exactly when no flight is on for its key, and else waits for that flight. */
  lemma EnterJoins(steps: seq<Step>, t: string, key: string)
    requires t !in Run(steps).tasks
    ensures var w, after := Run(steps), Run(steps + [Enter(t, key)]);
            && t in after.tasks
            && (key !in w.inFlight ==> after.tasks[t] == Acting(key) && after.actions == w.actions + 1
                                       && key in after.inFlight && after.inFlight[key] == t)
            && (key in w.inFlight ==> after.tasks[t] == Waiting(key, w.inFlight[key]) && after.actions == w.actions
                                      && after.inFlight == w.inFlight)
  {
    RunExtends(steps, Enter(t, key));
    EveryRunIsOk(steps);
    if key in Run(steps).inFlight {
      assert TaskOk(Run(steps), Run(steps).inFlight[key]);
    }
  }

  lemma CompletesAndPops(w: World, l: string, key: string, o: Outcome)
    requires l in w.tasks && w.tasks[l] == Acting(key) && l in w.futures
    ensures var after := Next(Next(w, Complete(l, o)), Pop(l));
            && after.tasks == w.tasks[l := Resolved(key, o)][l := Finished(key, l, o)]
            && l in after.futures && after.futures[l] == Some(o) && key !in after.inFlight
  {
  }

  lemma WakesWith(w: World, t: string, l: string, key: string, o: Outcome)
    requires t in w.tasks && w.tasks[t] == Waiting(key, l) && l in w.futures && w.futures[l] == Some(o)
    ensures Next(w, Wake(t)).tasks == w.tasks[t := Finished(key, l, o)] && Next(w, Wake(t)).inFlight == w.inFlight
  {
  }

  /** An acting task's own outcome is what it and every task waiting for it finish with. */
  lemma OutcomeReachesAll(w: World, l: string, o: Outcome, t: string, key: string)
    requires WorldOk(w) && l in w.tasks && w.tasks[l] == Acting(key) && t in w.tasks && w.tasks[t].Waiting?
    requires w.tasks[t].leader == l
    ensures var after := Next(Next(Next(w, Complete(l, o)), Pop(l)), Wake(t));
            && l in after.tasks && after.tasks[l] == Finished(key, l, o)
            && t in after.tasks && after.tasks[t] == Finished(key, l, o) && key !in after.inFlight
  {
    assert TaskOk(w, l) && TaskOk(w, t);
    CompletesAndPops(w, l, key, o);
    WakesWith(Next(Next(w, Complete(l, o)), Pop(l)), t, l, key, o);
  }

  predicate EndsAt(steps: seq<Step>, i: nat, l: string, o: Outcome)
    requires i < |steps|
  {
    steps[i] == Complete(l, o) && l in Run(steps[..i]).tasks && Run(steps[..i]).tasks[l].Acting?
  }

  /** The run holds the moment at which the action of task `l` ended with this outcome. */
  ghost predicate EndedWith(steps: seq<Step>, l: string, o: Outcome) {
    exists i :: 0 <= i < |steps| && EndsAt(steps, i, l, o)
  }

  lemma EndedBefore(steps: seq<Step>, l: string, o: Outcome)
    requires steps != [] && EndedWith(steps[..|steps| - 1], l, o)
    ensures EndedWith(steps, l, o)
  {
    var before := steps[..|steps| - 1];
    var i :| 0 <= i < |before| && EndsAt(before, i, l, o);
    assert before[..i] == steps[..i] && steps[i] == before[i];
    assert EndsAt(steps, i, l, o);
  }

  lemma {:induction false} FutureComesFromAction(steps: seq<Step>, l: string)
    requires l in Run(steps).futures && Run(steps).futures[l].Some?
    ensures EndedWith(steps, l, Run(steps).futures[l].value)
  {
    if steps != [] {
      var before, last := steps[..|steps| - 1], steps[|steps| - 1];
      if l in Run(before).futures && Run(before).futures[l].Some? {
        FutureComesFromAction(before, l);
        EveryRunIsOk(before);
        OutcomesAreFinal(Run(before), last, l);
        EndedBefore(steps, l, Run(steps).futures[l].value);
      } else {
        assert last == Complete(l, Run(steps).futures[l].value);
        assert EndsAt(steps, |steps| - 1, l, Run(steps).futures[l].value);
      }
    }
  }

  /** Main result: whoever finished did so with the outcome with which the action of its leader ended. */
  lemma FinishedWithActionsOutcome(steps: seq<Step>, t: string)
    requires t in Run(steps).tasks && Run(steps).tasks[t].Finished?
    ensures EndedWith(steps, Run(steps).tasks[t].leader, Run(steps).tasks[t].outcome)
  {
    EveryRunIsOk(steps);
    assert TaskOk(Run(steps), t);
    FutureComesFromAction(steps, Run(steps).tasks[t].leader);
  }
}
