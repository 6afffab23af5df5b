/** Two-phase daily quota: reserve before the request, charge or release after it. */
module Quota {
  import opened Sums

  datatype Reservation = Reservation(units: int, consumed: bool, released: bool)
  {
    predicate Active() { !consumed && !released }
  }

  /** The charged units of every day and the reservations still held. */
  datatype Quota = Quota(limit: int, charged: map<nat, int>, reservations: map<string, Reservation>)

  function Used(charged: map<nat, int>, day: nat): int { if day in charged then charged[day] else 0 }

  function ActiveUnits(reservations: map<string, Reservation>): map<string, int> {
    map id | id in reservations && reservations[id].Active() :: reservations[id].units
  }

  ghost function Reserved(q: Quota): int { Total(ActiveUnits(q.reservations)) }

  ghost predicate Fits(q: Quota, day: nat, units: int) {
    Used(q.charged, day) + Reserved(q) + units <= q.limit
  }

  ghost function AfterReserve(q: Quota, day: nat, id: string, units: int): Quota {
    if Fits(q, day, units) then q.(reservations := q.reservations[id := Reservation(units, false, false)]) else q
  }

  function AfterConsume(q: Quota, day: nat, id: string): Quota {
    if id !in q.reservations || q.reservations[id].consumed then q else
      q.(charged := q.charged[day := Used(q.charged, day) + q.reservations[id].units],
         reservations := q.reservations - {id})
  }

  function AfterRelease(q: Quota, id: string): Quota { q.(reservations := q.reservations - {id}) }

  class QuotaManager {
    const limit: int
    var charged: map<nat, int>
    var reservations: map<string, Reservation>

    function Value(): Quota
      reads this
    {
      Quota(limit, charged, reservations)
    }

    constructor (limit: int)
      ensures Value() == Quota(limit, map[], map[])
    {
      this.limit := limit;
      charged, reservations := map[], map[];
    }

    method Remaining(day: nat) returns (units: int)
      ensures units >= 0 && units >= limit - Used(charged, day)
      ensures units == 0 || units == limit - Used(charged, day)
    {
      var used := Used(charged, day);
      units := if limit - used > 0 then limit - used else 0;
    }

    /** Reservation ids are never reused. */
    method Reserve(day: nat, id: string, units: int) returns (granted: bool)
      requires id !in reservations
      modifies this`reservations
      ensures granted <==> Fits(old(Value()), day, units)
      ensures Value() == AfterReserve(old(Value()), day, id, units)
    {
      var used := Used(charged, day);
      var held := reservations;
      var active, todo := 0, held.Keys;
      ghost var units0 := ActiveUnits(held);
      assert units0 - todo == map[];
      while todo != {}
        invariant todo <= held.Keys
        invariant active == Total(units0 - todo) && reservations == held
        decreases todo
      {
        var r :| r in todo;
        if !held[r].consumed && !held[r].released {
          assert units0 - (todo - {r}) == (units0 - todo)[r := units0[r]];
          TotalUpdate(units0 - todo, r, units0[r]);
          active := active + held[r].units;
        } else {
          assert units0 - (todo - {r}) == units0 - todo;
        }
        todo := todo - {r};
      }
      assert units0 - {} == units0;
      if used + active + units > limit {
        return false;
      }
      reservations := reservations[id := Reservation(units, false, false)];
      return true;
    }

    method Consume(day: nat, id: string) returns (total: int)
      modifies this`charged, this`reservations
      ensures Value() == AfterConsume(old(Value()), day, id)
      ensures total == if id !in old(reservations) then 0
                       else if old(reservations)[id].consumed then old(reservations)[id].units
                       else Used(charged, day)
    {
      if id !in reservations {
        return 0;
      }
      var r := reservations[id];
      if r.consumed {
        return r.units;
      }
      reservations := reservations[id := r.(consumed := true)];
      charged := charged[day := Used(charged, day) + r.units];
      total := charged[day];
      reservations := reservations - {id};
    }

    method ReleaseIfFailedBeforeRequest(id: string)
      modifies this`reservations
      ensures Value() == AfterRelease(old(Value()), id)
    {
      reservations := reservations - {id};
    }

    method RecordFailure(day: nat, id: string, sent: bool)
      modifies this`charged, this`reservations
      ensures Value() == if sent then AfterConsume(old(Value()), day, id) else AfterRelease(old(Value()), id)
    {
      if !sent {
        ReleaseIfFailedBeforeRequest(id);
      } else {
        var _ := Consume(day, id);
      }
    }
  }

  // ----- runs over days -----

  datatype Step =
    | ReserveStep(day: nat, id: string, units: int)
    | ConsumeStep(day: nat, id: string)
    | ReleaseStep(day: nat, id: string)

  ghost function Next(q: Quota, step: Step): Quota {
    match step
    case ReserveStep(day, id, units) => if id in q.reservations then q else AfterReserve(q, day, id, units)
    case ConsumeStep(day, id) => AfterConsume(q, day, id)
    case ReleaseStep(day, id) => AfterRelease(q, id)
  }

  ghost function Run(q: Quota, steps: seq<Step>): Quota
    decreases |steps|
  {
    if steps == [] then q else Next(Run(q, steps[..|steps| - 1]), steps[|steps| - 1])
  }

  /** Days never go backwards from `day` on, and no reservation asks for a negative number of units. */
  predicate Admissible(day: nat, steps: seq<Step>) {
    && (forall i :: 0 <= i < |steps| ==> day <= steps[i].day)
    && (forall i, j :: 0 <= i < j < |steps| ==> steps[i].day <= steps[j].day)
    && (forall i :: 0 <= i < |steps| && steps[i].ReserveStep? ==> steps[i].units >= 0)
  }

  function Budget(q: Quota): int { if q.limit > 0 then q.limit else 0 }

  /** What holds while `day` is today: nothing is charged in the future, no day is over budget, and
      today's charges together with everything reserved fit the budget. */
  ghost predicate WithinBudget(q: Quota, day: nat) {
    && (forall id :: id in q.reservations ==> q.reservations[id].Active() && q.reservations[id].units >= 0)
    && (forall d :: d in q.charged ==> d <= day && 0 <= q.charged[d] <= Budget(q))
    && Used(q.charged, day) + Reserved(q) <= Budget(q)
  }

  lemma RolloverKeepsBudget(q: Quota, day: nat, later: nat)
    requires WithinBudget(q, day) && day <= later
    ensures WithinBudget(q, later)
  {
  }

  lemma RemoveReservation(q: Quota, id: string)
    requires id in q.reservations ==> q.reservations[id].Active()
    ensures Reserved(AfterRelease(q, id))
            == Reserved(q) - (if id in q.reservations then q.reservations[id].units else 0)
  {
    if id in q.reservations {
      TotalRemove(ActiveUnits(q.reservations), id);
      assert ActiveUnits(q.reservations - {id}) == ActiveUnits(q.reservations) - {id};
    } else {
      assert q.reservations - {id} == q.reservations;
    }
  }

  lemma ReserveKeepsBudget(q: Quota, day: nat, id: string, units: int)
    requires WithinBudget(q, day) && units >= 0
    ensures WithinBudget(Next(q, ReserveStep(day, id, units)), day)
  {
    if id !in q.reservations && Fits(q, day, units) {
      TotalUpdate(ActiveUnits(q.reservations), id, units);
      assert ActiveUnits(AfterReserve(q, day, id, units).reservations) == ActiveUnits(q.reservations)[id := units];
    }
  }

  lemma ConsumeKeepsBudget(q: Quota, day: nat, id: string)
    requires WithinBudget(q, day)
    ensures WithinBudget(AfterConsume(q, day, id), day)
  {
    if id in q.reservations {
      TotalNonNegative(ActiveUnits(q.reservations));
      TotalBounds(ActiveUnits(q.reservations), id);
      RemoveReservation(q, id);
    }
  }

  lemma ReleaseKeepsBudget(q: Quota, day: nat, id: string)
    requires WithinBudget(q, day)
    ensures WithinBudget(AfterRelease(q, id), day)
  {
    RemoveReservation(q, id);
  }

  lemma StepKeepsBudget(q: Quota, day: nat, step: Step)
    requires WithinBudget(q, day) && day <= step.day
    requires step.ReserveStep? ==> step.units >= 0
    ensures WithinBudget(Next(q, step), step.day)
  {
    RolloverKeepsBudget(q, day, step.day);
    match step {
      case ReserveStep(d, id, units) => ReserveKeepsBudget(q, d, id, units);
      case ConsumeStep(d, id) => ConsumeKeepsBudget(q, d, id);
      case ReleaseStep(d, id) => ReleaseKeepsBudget(q, d, id);
    }
  }

  function LastDay(day: nat, steps: seq<Step>): nat { if steps == [] then day else steps[|steps| - 1].day }

  /** Main result: under every interleaving of reservations, charges and releases over any days,
      today's charges plus all reservations stay within the budget; so every day's total does, even
      when a reservation is charged on a later day than it was made. */
  lemma {:induction false} BudgetIsNeverExceeded(q: Quota, day: nat, steps: seq<Step>)
    requires WithinBudget(q, day) && Admissible(day, steps)
    ensures WithinBudget(Run(q, steps), LastDay(day, steps)) && Run(q, steps).limit == q.limit
    decreases |steps|
  {
    if steps != [] {
      var before := steps[..|steps| - 1];
      BudgetIsNeverExceeded(q, day, before);
      StepKeepsBudget(Run(q, before), LastDay(day, before), steps[|steps| - 1]);
    }
  }

  /** A manager without reservations may start on any counters that are themselves within budget,
      whatever the sign of its limit. */
  lemma FreshManagerIsWithinBudget(limit: int, charged: map<nat, int>, day: nat)
    requires forall d :: d in charged ==> d <= day && 0 <= charged[d] <= Budget(Quota(limit, charged, map[]))
    ensures WithinBudget(Quota(limit, charged, map[]), day)
  {
  }

  /** Non-negative costs are needed: a single negative one lets the rest overdraw the budget. */
  lemma NegativeCostBreaksBudget(limit: int, units: int)
    requires limit >= 0 && units < 0
    ensures var q := Run(Quota(limit, map[], map[]),
                         [ReserveStep(0, "a", units), ReserveStep(0, "b", limit - units), ReleaseStep(0, "a")]);
            Used(q.charged, 0) + Reserved(q) > limit
  {
    var q0 := Quota(limit, map[], map[]);
    assert ActiveUnits(map[]) == map[];
    var q1 := Next(q0, ReserveStep(0, "a", units));
    TotalUpdate(map[], "a", units);
    assert ActiveUnits(q1.reservations) == map["a" := units];
    var q2 := Next(q1, ReserveStep(0, "b", limit - units));
    var q3 := Next(q2, ReleaseStep(0, "a"));
    TotalUpdate(map[], "b", limit - units);
    assert ActiveUnits(q3.reservations) == map["b" := limit - units];
    var steps := [ReserveStep(0, "a", units), ReserveStep(0, "b", limit - units), ReleaseStep(0, "a")];
    assert steps[..2][..1] == steps[..1] && steps[..1][..0] == [];
    assert Run(q0, steps[..1]) == q1;
    assert Run(q0, steps[..2]) == q2;
  }

  // ----- what is granted -----

  /** The units out of a list of requests that fit a limit, each taken if it still does. */
  function Taken(limit: int, units: seq<int>): int {
    if units == [] then 0 else
      var before, next := Taken(limit, units[..|units| - 1]), units[|units| - 1];
      if before + next <= limit then before + next else before
  }

  /** The units asked for by the reservations of a run. */
  function Asked(steps: seq<Step>): seq<int> {
    if steps == [] then [] else
      Asked(steps[..|steps| - 1]) + if steps[|steps| - 1].ReserveStep? then [steps[|steps| - 1].units] else []
  }

  /** All on one day, nothing released, no reservation id used twice. */
  predicate OneDay(day: nat, steps: seq<Step>) {
    && (forall i :: 0 <= i < |steps| ==> steps[i].day == day && !steps[i].ReleaseStep?)
    && (forall i, j :: 0 <= i < j < |steps| && steps[i].ReserveStep? && steps[j].ReserveStep? ==>
          steps[i].id != steps[j].id)
  }

  /** Charged and reserved together. */
  ghost function Engaged(q: Quota, day: nat): int { Used(q.charged, day) + Reserved(q) }

  ghost predicate AllActive(q: Quota) { forall id :: id in q.reservations ==> q.reservations[id].Active() }

  lemma ConsumeKeepsEngaged(q: Quota, day: nat, id: string)
    requires AllActive(q)
    ensures Engaged(AfterConsume(q, day, id), day) == Engaged(q, day) && AllActive(AfterConsume(q, day, id))
  {
    if id in q.reservations {
      RemoveReservation(q, id);
    }
  }

  lemma ReserveEngages(q: Quota, day: nat, id: string, units: int)
    requires AllActive(q) && id !in q.reservations
    ensures var after := Next(q, ReserveStep(day, id, units));
            && Engaged(after, day)
               == (if Engaged(q, day) + units <= q.limit then Engaged(q, day) + units else Engaged(q, day))
            && (id in after.reservations <==> Engaged(q, day) + units <= q.limit)
            && AllActive(after) && after.limit == q.limit
  {
    if Engaged(q, day) + units <= q.limit {
      TotalUpdate(ActiveUnits(q.reservations), id, units);
      assert ActiveUnits(q.reservations[id := Reservation(units, false, false)])
          == ActiveUnits(q.reservations)[id := units];
    }
  }

  /** Reservation ids come from the run. */
  ghost predicate IdsFrom(q: Quota, steps: seq<Step>) {
    forall id :: id in q.reservations ==> exists i :: 0 <= i < |steps| && steps[i].ReserveStep? && steps[i].id == id
  }

  lemma {:induction false} DayEngages(limit: int, day: nat, steps: seq<Step>)
    requires OneDay(day, steps)
    ensures var q := Run(Quota(limit, map[], map[]), steps);
            && Engaged(q, day) == Taken(limit, Asked(steps)) && AllActive(q) && q.limit == limit && IdsFrom(q, steps)
    decreases |steps|
  {
    var start := Quota(limit, map[], map[]);
    if steps == [] {
      assert ActiveUnits(map[]) == map[];
    } else {
      var before, last := steps[..|steps| - 1], steps[|steps| - 1];
      DayEngages(limit, day, before);
      var q := Run(start, before);
      IdsOfPrefix(q, steps);
      if last.ReserveStep? {
        assert last.id !in q.reservations;
        ReserveEngages(q, day, last.id, last.units);
        assert (Asked(before) + [last.units])[..|Asked(before)|] == Asked(before);
      } else {
        ConsumeKeepsEngaged(q, day, last.id);
        assert Asked(steps) == Asked(before);
      }
    }
  }

  lemma IdsOfPrefix(q: Quota, steps: seq<Step>)
    requires steps != [] && IdsFrom(q, steps[..|steps| - 1])
    ensures IdsFrom(q, steps)
  {
    forall id | id in q.reservations
      ensures exists i :: 0 <= i < |steps| && steps[i].ReserveStep? && steps[i].id == id
    {
      var i :| 0 <= i < |steps| - 1 && steps[..|steps| - 1][i].ReserveStep? && steps[..|steps| - 1][i].id == id;
      assert steps[i].id == id;
    }
  }

  /** Main result: on a day on which nothing is released, whatever has been charged in between, a reservation is
      granted exactly when its units fit the limit beside all that were granted before; the limit can be used up
      to the last unit. */
  lemma GrantedIffFits(limit: int, day: nat, steps: seq<Step>, id: string, units: int)
    requires OneDay(day, steps + [ReserveStep(day, id, units)])
    ensures id in Run(Quota(limit, map[], map[]), steps + [ReserveStep(day, id, units)]).reservations
            <==> Taken(limit, Asked(steps)) + units <= limit
  {
    var all := steps + [ReserveStep(day, id, units)];
    assert all[..|steps|] == steps;
    assert OneDay(day, steps) by {
      assert forall i :: 0 <= i < |steps| ==> steps[i] == all[i];
    }
    DayEngages(limit, day, steps);
    var q := Run(Quota(limit, map[], map[]), steps);
    forall i | 0 <= i < |steps| && steps[i].ReserveStep? ensures steps[i].id != id {
      assert all[i] == steps[i] && all[|steps|].ReserveStep?;
    }
    ReserveEngages(q, day, id, units);
  }

  /** A release gives the units back, and a charge moves them from the reservations to the day. */
  lemma ReleaseGivesBack(q: Quota, day: nat, id: string)
    requires AllActive(q) && id in q.reservations
    ensures Engaged(AfterRelease(q, id), day) == Engaged(q, day) - q.reservations[id].units
    ensures Used(AfterConsume(q, day, id).charged, day) == Used(q.charged, day) + q.reservations[id].units
    ensures Reserved(AfterConsume(q, day, id)) == Reserved(q) - q.reservations[id].units
  {
    RemoveReservation(q, id);
  }
}
