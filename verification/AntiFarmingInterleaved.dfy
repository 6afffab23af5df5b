/** Messages of one viewer handled concurrently: checks and records as separate steps in any order. */
module AntiFarmingInterleaved {
  import opened Options
  import opened AntiFarming
  import opened AntiFarmingHistory
  import opened AntiFarmingLimits

  /** A check that passed: what it was asked, and how many awards there were. */
  datatype Pass = Pass(xp: int, at: real, day: int, seen: nat)

  datatype State = State(tracker: Tracker, awards: seq<Award>, passes: map<nat, Pass>)

  const START := State(UNTRACKED, [], map[])

  /** A message's check, and its record if it passed. */
  datatype Step =
    | Ask(message: nat, xp: int, at: real, day: int)
    | Grant(message: nat, at: real, day: int)

  /** The day the tracker's total belongs to. */
  function TotalDay(t: Tracker, day: int): int { if t.daily.Some? then t.daily.value.0 else day }

  function Next(cfg: Config, s: State, step: Step): State {
    match step
    case Ask(m, xp, at, day) =>
      var (checked, verdict) := Check(cfg, s.tracker, xp, at, day);
      s.(tracker := checked,
         passes := if verdict.Allowed? then s.passes[m := Pass(xp, at, day, |s.awards|)] else s.passes - {m})
    case Grant(m, at, day) =>
      if m !in s.passes then s else
        var p := s.passes[m];
        State(Record(s.tracker, p.xp, at, day),
              s.awards + [Award(at, day, TotalDay(s.tracker, p.day), p.xp)],
              s.passes - {m})
  }

  function RunSteps(cfg: Config, steps: seq<Step>): State {
    if steps == [] then START else Next(cfg, RunSteps(cfg, steps[..|steps| - 1]), steps[|steps| - 1])
  }

  /** The clock never goes back, and no reward is negative. */
  predicate Chronological(steps: seq<Step>) {
    && (forall i, j :: 0 <= i < j < |steps| ==> steps[i].at <= steps[j].at && steps[i].day <= steps[j].day)
    && (forall i :: 0 <= i < |steps| && steps[i].Ask? ==> steps[i].xp >= 0)
  }

  /** No other award came between the check of the message and this record. */
  predicate InTurn(s: State, step: Step) {
    step.Grant? && step.message in s.passes ==> s.passes[step.message].seen == |s.awards|
  }

  predicate AllInTurn(cfg: Config, steps: seq<Step>) {
    steps == [] ||
    (AllInTurn(cfg, steps[..|steps| - 1]) && InTurn(RunSteps(cfg, steps[..|steps| - 1]), steps[|steps| - 1]))
  }

  /** The tracker's total is the accounted one of its day. */
  predicate TotalOk(t: Tracker, awards: seq<Award>) {
    if t.daily.None? then awards == []
    else t.daily.value.1 == Accounted(awards, t.daily.value.0)
         && (awards != [] ==> awards[|awards| - 1].day <= t.daily.value.0)
  }

  /** A pass that nothing has overtaken would still be given now. */
  ghost predicate PassOk(cfg: Config, s: State, p: Pass, clock: real, day: int) {
    && p.seen <= |s.awards| && p.xp >= 0 && p.at <= clock && p.day <= day
    && (p.seen == |s.awards| ==>
          && Decide(cfg, s.awards, p.xp, p.at, p.day).Allowed?
          && DoneBy(s.awards, p.at, p.day)
          && p.day <= TotalDay(s.tracker, p.day) <= day)
  }

  ghost predicate StateOk(cfg: Config, s: State, clock: real, day: int) {
    && Tracks(s.tracker, s.awards, clock, day) && TotalOk(s.tracker, s.awards)
    && DoneBy(s.awards, clock, day) && WithinLimits(cfg, s.awards)
    && forall m :: m in s.passes ==> PassOk(cfg, s, s.passes[m], clock, day)
  }

  lemma AskKeepsTotal(cfg: Config, t: Tracker, awards: seq<Award>, xp: int, at: real, day: int)
    requires TotalOk(t, awards) && (t.daily.Some? ==> t.daily.value.0 <= day)
    ensures var (after, verdict) := Check(cfg, t, xp, at, day);
            && TotalOk(after, awards)
            && (forall d :: d <= day ==> TotalDay(t, d) <= TotalDay(after, d) <= day)
            && (verdict.Allowed? ==> TotalDay(after, day) == day)
  {
  }

  lemma AskKeeps(cfg: Config, s: State, step: Step, clock: real, day: int)
    requires step.Ask? && step.xp >= 0 && clock <= step.at && day <= step.day && StateOk(cfg, s, clock, day)
    ensures StateOk(cfg, Next(cfg, s, step), step.at, step.day)
  {
    var after := Next(cfg, s, step);
    var asked := Attempt(step.at, step.day, step.at, step.day, step.xp);
    CheckDecidesByHistory(cfg, s.tracker, s.awards, clock, day, asked);
    AskKeepsTotal(cfg, s.tracker, s.awards, step.xp, step.at, step.day);
    forall m | m in after.passes ensures PassOk(cfg, after, after.passes[m], step.at, step.day) {
      if m != step.message {
        assert PassOk(cfg, s, s.passes[m], clock, day);
      }
    }
  }

  /** A total carried to a later day is that day's: a pass holds for the day of the total too. */
  lemma PassHoldsOnTotalDay(cfg: Config, awards: seq<Award>, p: Pass, day: int)
    requires Accountable(cfg, awards) && DoneBy(awards, p.at, p.day) && p.day <= day
    requires Decide(cfg, awards, p.xp, p.at, p.day).Allowed?
    ensures Decide(cfg, awards, p.xp, p.at, day).Allowed?
  {
    AccountedNonNegative(awards, p.day);
  }

  lemma GrantKeepsTracking(t: Tracker, awards: seq<Award>, xp: int, d: int, at: real, day: int, clock: real, today: int)
    requires Tracks(t, awards, clock, today) && TotalOk(t, awards) && clock <= at && today <= day
    requires t.daily.Some? ==> d == t.daily.value.0
    ensures Tracks(Record(t, xp, at, day), awards + [Award(at, day, d, xp)], at, day)
    ensures TotalOk(Record(t, xp, at, day), awards + [Award(at, day, d, xp)])
  {
    var after, more := Record(t, xp, at, day), awards + [Award(at, day, d, xp)];
    assert more[..|awards|] == awards;
    assert Times(more) == Times(awards) + [at];
    forall now | at <= now ensures Recent(after.stamps, now) == Recent(Times(more), now) {
      RecentExtend(t.stamps, at, now);
      RecentExtend(Times(awards), at, now);
      assert Recent(t.stamps, now) == Recent(Times(awards), now);
    }
    assert Accounted(more, day) == Accounted(awards, d) + xp;
  }

  lemma GrantKeepsLimits(cfg: Config, s: State, p: Pass, at: real, day: int, clock: real, today: int)
    requires StateOk(cfg, s, clock, today) && PassOk(cfg, s, p, clock, today) && p.seen == |s.awards|
    requires clock <= at && today <= day
    ensures WithinLimits(cfg, s.awards + [Award(at, day, TotalDay(s.tracker, p.day), p.xp)])
  {
    var d := TotalDay(s.tracker, p.day);
    PassHoldsOnTotalDay(cfg, s.awards, p, d);
    AllowedKeepsLimits(cfg, s.awards, Attempt(p.at, d, at, day, p.xp));
  }

  lemma GrantKeeps(cfg: Config, s: State, step: Step, clock: real, day: int)
    requires step.Grant? && clock <= step.at && day <= step.day && StateOk(cfg, s, clock, day) && InTurn(s, step)
    ensures StateOk(cfg, Next(cfg, s, step), step.at, step.day)
  {
    if step.message in s.passes {
      var p, after := s.passes[step.message], Next(cfg, s, step);
      GrantKeepsLimits(cfg, s, p, step.at, step.day, clock, day);
      GrantKeepsTracking(s.tracker, s.awards, p.xp, TotalDay(s.tracker, p.day), step.at, step.day, clock, day);
      forall m | m in after.passes ensures PassOk(cfg, after, after.passes[m], step.at, step.day) {
        assert PassOk(cfg, s, s.passes[m], clock, day);
      }
    }
  }

  /** Main result: whatever the order of checks and records of concurrent messages, the limits hold as long as
      each award is recorded before another one comes after its check. */
  lemma {:induction false} InTurnIsWithinLimits(cfg: Config, steps: seq<Step>, clock: real, day: int)
    requires Chronological(steps) && AllInTurn(cfg, steps)
    requires steps != [] ==> steps[|steps| - 1].at <= clock && steps[|steps| - 1].day <= day
    ensures StateOk(cfg, RunSteps(cfg, steps), clock, day)
    decreases |steps|
  {
    if steps != [] {
      var n := |steps| - 1;
      InTurnIsWithinLimits(cfg, steps[..n], steps[n].at, steps[n].day);
      var before := RunSteps(cfg, steps[..n]);
      if steps[n].Ask? {
        AskKeeps(cfg, before, steps[n], steps[n].at, steps[n].day);
      } else {
        GrantKeeps(cfg, before, steps[n], steps[n].at, steps[n].day);
      }
      LaterIsOk(cfg, RunSteps(cfg, steps), steps[n].at, steps[n].day, clock, day);
    }
  }

  lemma LaterIsOk(cfg: Config, s: State, clock: real, day: int, later: real, today: int)
    requires StateOk(cfg, s, clock, day) && clock <= later && day <= today
    ensures StateOk(cfg, s, later, today)
  {
    forall m | m in s.passes ensures PassOk(cfg, s, s.passes[m], later, today) {
      assert PassOk(cfg, s, s.passes[m], clock, day);
    }
  }

  // ----- exactly when the limits hold -----

  /** The guard asked again when the award is recorded, for the day its total belongs to, would still agree. */
  predicate Rechecked(cfg: Config, s: State, step: Step) {
    step.Grant? && step.message in s.passes ==>
      var p := s.passes[step.message];
      Check(cfg, s.tracker, p.xp, step.at, TotalDay(s.tracker, p.day)).1.Allowed?
  }

  predicate AllRechecked(cfg: Config, steps: seq<Step>) {
    steps == [] ||
    (AllRechecked(cfg, steps[..|steps| - 1]) && Rechecked(cfg, RunSteps(cfg, steps[..|steps| - 1]), steps[|steps| - 1]))
  }

  /** The limits hold after every step. */
  ghost predicate AlwaysWithin(cfg: Config, steps: seq<Step>) {
    WithinLimits(cfg, RunSteps(cfg, steps).awards) && (steps == [] || AlwaysWithin(cfg, steps[..|steps| - 1]))
  }

  predicate Sane(awards: seq<Award>) {
    forall i :: 0 <= i < |awards| ==> awards[i].checkedOn <= awards[i].day && awards[i].xp >= 0
  }

  /** What holds of a pass on every run: only the first award is kept from coming too early by its check, and a
      pass that was overtaken was asked for no later than the latest award. */
  predicate PassSound(cfg: Config, s: State, p: Pass, clock: real, day: int) {
    && p.seen <= |s.awards| && 0 <= p.xp <= cfg.maxDaily && p.at <= clock && p.day <= day
    && (s.awards == [] ==> p.at >= cfg.cooldown as real)
    && (p.seen < |s.awards| ==> p.at <= s.awards[|s.awards| - 1].at)
  }

  ghost predicate StateSound(cfg: Config, s: State, clock: real, day: int) {
    && Tracks(s.tracker, s.awards, clock, day) && TotalOk(s.tracker, s.awards)
    && DoneBy(s.awards, clock, day) && InOrder(s.awards) && Sane(s.awards)
    && forall m :: m in s.passes ==> PassSound(cfg, s, s.passes[m], clock, day)
  }

  lemma AskKeepsSound(cfg: Config, s: State, step: Step, clock: real, day: int)
    requires step.Ask? && step.xp >= 0 && clock <= step.at && day <= step.day && StateSound(cfg, s, clock, day)
    ensures StateSound(cfg, Next(cfg, s, step), step.at, step.day)
  {
    var after := Next(cfg, s, step);
    CheckDecidesByHistory(cfg, s.tracker, s.awards, clock, day,
                          Attempt(step.at, step.day, step.at, step.day, step.xp));
    AskKeepsTotal(cfg, s.tracker, s.awards, step.xp, step.at, step.day);
    AccountedNonNegative(s.awards, step.day);
    forall m | m in after.passes ensures PassSound(cfg, after, after.passes[m], step.at, step.day) {
      if m != step.message {
        assert PassSound(cfg, s, s.passes[m], clock, day);
      }
    }
  }

  lemma GrantKeepsSound(cfg: Config, s: State, step: Step, clock: real, day: int)
    requires step.Grant? && clock <= step.at && day <= step.day && StateSound(cfg, s, clock, day)
    ensures StateSound(cfg, Next(cfg, s, step), step.at, step.day)
  {
    if step.message in s.passes {
      var p, after := s.passes[step.message], Next(cfg, s, step);
      assert PassSound(cfg, s, p, clock, day);
      GrantKeepsTracking(s.tracker, s.awards, p.xp, TotalDay(s.tracker, p.day), step.at, step.day, clock, day);
      OrderExtends(s.awards, Award(step.at, step.day, TotalDay(s.tracker, p.day), p.xp));
      forall m | m in after.passes ensures PassSound(cfg, after, after.passes[m], step.at, step.day) {
        assert PassSound(cfg, s, s.passes[m], clock, day);
      }
    } else {
      SoundLater(cfg, s, clock, day, step.at, step.day);
    }
  }

  lemma OrderExtends(awards: seq<Award>, a: Award)
    requires InOrder(awards) && DoneBy(awards, a.at, a.day)
    ensures InOrder(awards + [a])
  {
    var more, n := awards + [a], |awards|;
    forall i, j | 0 <= i < j < n + 1 ensures more[i].at <= more[j].at && more[i].day <= more[j].day {
      if j == n && i < n - 1 {
        assert awards[i].at <= awards[n - 1].at;
      }
    }
  }

  lemma SoundLater(cfg: Config, s: State, clock: real, day: int, later: real, today: int)
    requires StateSound(cfg, s, clock, day) && clock <= later && day <= today
    ensures StateSound(cfg, s, later, today)
  {
  }

  /** The clock has reached this time and day. */
  predicate ReachedBy(steps: seq<Step>, clock: real, day: int) {
    steps != [] ==> steps[|steps| - 1].at <= clock && steps[|steps| - 1].day <= day
  }

  lemma {:induction false} EveryRunIsSound(cfg: Config, steps: seq<Step>, clock: real, day: int)
    requires Chronological(steps) && ReachedBy(steps, clock, day)
    ensures StateSound(cfg, RunSteps(cfg, steps), clock, day)
    decreases |steps|
  {
    if steps != [] {
      var n := |steps| - 1;
      var before, last := RunSteps(cfg, steps[..n]), steps[n];
      EveryRunIsSound(cfg, steps[..n], last.at, last.day);
      if last.Ask? {
        AskKeepsSound(cfg, before, last, last.at, last.day);
      } else {
        GrantKeepsSound(cfg, before, last, last.at, last.day);
      }
      SoundLater(cfg, RunSteps(cfg, steps), last.at, last.day, clock, day);
    }
  }

  /** Asking the tracker again is asking the full history. */
  lemma RecheckIsDecide(cfg: Config, s: State, p: Pass, at: real, clock: real, day: int)
    requires StateSound(cfg, s, clock, day) && clock <= at
    ensures Check(cfg, s.tracker, p.xp, at, TotalDay(s.tracker, p.day)).1
            == Decide(cfg, s.awards, p.xp, at, TotalDay(s.tracker, p.day))
  {
    assert Recent(s.tracker.stamps, at) == Recent(Times(s.awards), at);
  }

  /** If the (k+1)-th newest time is a window old, at most k are recent. */
  lemma {:induction false} RecentAtMost(stamps: seq<real>, now: real, k: nat)
    requires forall i, j :: 0 <= i < j < |stamps| ==> stamps[i] <= stamps[j]
    requires |stamps| > k ==> now - stamps[|stamps| - 1 - k] >= WINDOW
    ensures |Recent(stamps, now)| <= k
  {
    if stamps != [] {
      RecentAtMost(stamps[..|stamps| - 1], now, if k == 0 then 0 else k - 1);
    }
  }

  lemma WithinMeansNoBurst(awards: seq<Award>, a: Award)
    requires InOrder(awards + [a]) && NoBurst(awards + [a])
    ensures |Recent(Times(awards), a.at)| < BURST
  {
    var more, n := awards + [a], |awards|;
    if n >= BURST {
      assert more[n].at - more[n - BURST].at >= WINDOW;
    }
    var times := Times(awards);
    forall i, j | 0 <= i < j < n ensures times[i] <= times[j] {
      assert times[i] == more[i].at && times[j] == more[j].at;
    }
    RecentAtMost(times, a.at, BURST - 1);
  }

  /** An award that keeps the limits is one the guard would agree to at that moment. */
  lemma WithinMeansAllowed(cfg: Config, awards: seq<Award>, xp: int, d: int, at: real, day: int)
    requires WithinLimits(cfg, awards + [Award(at, day, d, xp)]) && cfg.maxDaily >= 0
    requires awards == [] ==> at >= cfg.cooldown as real
    ensures Decide(cfg, awards, xp, at, d).Allowed?
  {
    var a, n := Award(at, day, d, xp), |awards|;
    var more := awards + [a];
    WithinMeansNoBurst(awards, a);
    if n > 0 {
      assert more[n].at - more[n - 1].at >= cfg.cooldown as real;
    }
    assert more[..n] == awards;
    assert Accounted(more, day) == Accounted(awards, d) + xp;
  }

  /** A record on a run within its limits keeps them exactly when the guard would still agree. */
  lemma GrantWithinIffRechecked(cfg: Config, s: State, step: Step, clock: real, day: int)
    requires step.Grant? && clock <= step.at && day <= step.day && StateSound(cfg, s, clock, day)
    requires WithinLimits(cfg, s.awards)
    ensures WithinLimits(cfg, Next(cfg, s, step).awards) <==> Rechecked(cfg, s, step)
  {
    if step.message in s.passes {
      var p := s.passes[step.message];
      var d := TotalDay(s.tracker, p.day);
      assert PassSound(cfg, s, p, clock, day);
      RecheckIsDecide(cfg, s, p, step.at, clock, day);
      if Rechecked(cfg, s, step) {
        AllowedKeepsLimits(cfg, s.awards, Attempt(step.at, d, step.at, step.day, p.xp));
      } else if WithinLimits(cfg, Next(cfg, s, step).awards) {
        WithinMeansAllowed(cfg, s.awards, p.xp, d, step.at, step.day);
      }
    }
  }

  lemma StepWithinIffRechecked(cfg: Config, s: State, step: Step, clock: real, day: int)
    requires clock <= step.at && day <= step.day && StateSound(cfg, s, clock, day) && WithinLimits(cfg, s.awards)
    ensures WithinLimits(cfg, Next(cfg, s, step).awards) <==> Rechecked(cfg, s, step)
  {
    if step.Grant? {
      GrantWithinIffRechecked(cfg, s, step, clock, day);
    } else {
      assert Next(cfg, s, step).awards == s.awards;
    }
  }

  /** Main result: over any run of concurrent checks and records, all limits hold at every moment if and only if
      each record is made at a moment at which the guard would still agree. */
  lemma {:induction false} LimitsHoldIffRechecked(cfg: Config, steps: seq<Step>)
    requires Chronological(steps)
    ensures AlwaysWithin(cfg, steps) <==> AllRechecked(cfg, steps)
    decreases |steps|
  {
    if steps != [] {
      var n := |steps| - 1;
      LimitsHoldIffRechecked(cfg, steps[..n]);
      if AlwaysWithin(cfg, steps[..n]) {
        EveryRunIsSound(cfg, steps[..n], steps[n].at, steps[n].day);
        StepWithinIffRechecked(cfg, RunSteps(cfg, steps[..n]), steps[n], steps[n].at, steps[n].day);
      }
    }
  }

  // ----- the promises alone -----

  /** The limits in the terms of the awards only: spacing, bursts, and the XP recorded on each date. */
  ghost predicate Promised(cfg: Config, awards: seq<Award>) {
    Spaced(cfg, awards) && NoBurst(awards) && forall day :: SumOn(awards, day) <= Cap(cfg)
  }

  ghost predicate AlwaysPromised(cfg: Config, steps: seq<Step>) {
    Promised(cfg, RunSteps(cfg, steps).awards) && (steps == [] || AlwaysPromised(cfg, steps[..|steps| - 1]))
  }

  /** No midnight falls between the check that opened a day's total and a record added to it. */
  predicate NoMidnight(awards: seq<Award>) { forall i :: 0 <= i < |awards| ==> awards[i].checkedOn == awards[i].day }

  lemma {:induction false} NothingAfterLast(awards: seq<Award>, day: int)
    requires forall i :: 0 <= i < |awards| ==> awards[i].day < day
    ensures SumOn(awards, day) == 0
  {
    if awards != [] {
      NothingAfterLast(awards[..|awards| - 1], day);
    }
  }

  lemma PromisedIsWithin(cfg: Config, awards: seq<Award>)
    requires InOrder(awards) && Sane(awards) && NoMidnight(awards)
    ensures Promised(cfg, awards) <==> WithinLimits(cfg, awards)
  {
    if awards != [] {
      var today := awards[|awards| - 1].day;
      assert forall i :: 0 <= i < |awards| - 1 ==> awards[i].day <= today;
      AccountedIsSum(awards, today);
      forall day | day > today ensures SumOn(awards, day) == 0 {
        NothingAfterLast(awards, day);
      }
    }
  }

  lemma AwardsGrow(cfg: Config, s: State, step: Step)
    ensures s.awards <= Next(cfg, s, step).awards
  {
  }

  lemma {:induction false} AlwaysPromisedIsWithin(cfg: Config, steps: seq<Step>)
    requires Chronological(steps) && NoMidnight(RunSteps(cfg, steps).awards)
    ensures AlwaysPromised(cfg, steps) <==> AlwaysWithin(cfg, steps)
    decreases |steps|
  {
    if steps != [] {
      var n := |steps| - 1;
      AwardsGrow(cfg, RunSteps(cfg, steps[..n]), steps[n]);
      AlwaysPromisedIsWithin(cfg, steps[..n]);
      EveryRunIsSound(cfg, steps, steps[n].at, steps[n].day);
    }
    PromisedIsWithin(cfg, RunSteps(cfg, steps).awards);
  }

  /** The same for the promises alone, when no midnight splits an attempt: spacing, bursts and the XP of each date
      are within their limits at every moment exactly when every record would pass the guard again. */
  lemma PromisesHoldIffRechecked(cfg: Config, steps: seq<Step>)
    requires Chronological(steps) && NoMidnight(RunSteps(cfg, steps).awards)
    ensures AlwaysPromised(cfg, steps) <==> AllRechecked(cfg, steps)
  {
    AlwaysPromisedIsWithin(cfg, steps);
    LimitsHoldIffRechecked(cfg, steps);
  }

  // ----- records that come soon after their checks -----

  /** Every record comes less than a cooldown after its check. */
  predicate Prompt(cfg: Config, steps: seq<Step>) {
    steps == [] ||
    var before, last := steps[..|steps| - 1], steps[|steps| - 1];
    && Prompt(cfg, before)
    && (last.Grant? && last.message in RunSteps(cfg, before).passes ==>
          last.at - RunSteps(cfg, before).passes[last.message].at < cfg.cooldown as real)
  }

  /** A prompt record that was overtaken breaks the cooldown: the award that overtook it came after its check. */
  lemma OvertakenBreaksCooldown(cfg: Config, s: State, step: Step, clock: real, day: int)
    requires StateSound(cfg, s, clock, day) && !InTurn(s, step)
    requires step.at - s.passes[step.message].at < cfg.cooldown as real
    ensures !Spaced(cfg, Next(cfg, s, step).awards)
  {
    var after, n := Next(cfg, s, step).awards, |s.awards|;
    assert PassSound(cfg, s, s.passes[step.message], clock, day);
    assert after[n].at - after[n - 1].at < cfg.cooldown as real;
  }

  lemma SpacedBefore(cfg: Config, awards: seq<Award>, more: seq<Award>)
    requires awards <= more && Spaced(cfg, more)
    ensures Spaced(cfg, awards)
  {
    forall i | 0 < i < |awards| ensures awards[i].at - awards[i - 1].at >= cfg.cooldown as real {
      assert awards[i] == more[i] && awards[i - 1] == more[i - 1];
    }
  }

  lemma {:induction false} SpacedMeansInTurn(cfg: Config, steps: seq<Step>)
    requires Chronological(steps) && Prompt(cfg, steps) && Spaced(cfg, RunSteps(cfg, steps).awards)
    ensures AllInTurn(cfg, steps)
    decreases |steps|
  {
    if steps != [] {
      var n := |steps| - 1;
      var before := RunSteps(cfg, steps[..n]);
      AwardsGrow(cfg, before, steps[n]);
      SpacedBefore(cfg, before.awards, RunSteps(cfg, steps).awards);
      SpacedMeansInTurn(cfg, steps[..n]);
      EveryRunIsSound(cfg, steps[..n], steps[n].at, steps[n].day);
      if !InTurn(before, steps[n]) {
        OvertakenBreaksCooldown(cfg, before, steps[n], steps[n].at, steps[n].day);
      }
    }
  }

  /** Main result: when every record comes less than a cooldown after its check, the limits hold if and only if no
      award comes between a check and its record. */
  lemma PromptWithinIffInTurn(cfg: Config, steps: seq<Step>)
    requires Chronological(steps) && Prompt(cfg, steps)
    ensures WithinLimits(cfg, RunSteps(cfg, steps).awards) <==> AllInTurn(cfg, steps)
  {
    if WithinLimits(cfg, RunSteps(cfg, steps).awards) {
      SpacedMeansInTurn(cfg, steps);
    }
    if AllInTurn(cfg, steps) && steps != [] {
      var last := steps[|steps| - 1];
      InTurnIsWithinLimits(cfg, steps, last.at, last.day);
    } else if AllInTurn(cfg, steps) {
      InTurnIsWithinLimits(cfg, steps, 0.0, 0);
    }
  }

  lemma RunExtends(cfg: Config, steps: seq<Step>, next: Step)
    ensures RunSteps(cfg, steps + [next]) == Next(cfg, RunSteps(cfg, steps), next)
    ensures AllInTurn(cfg, steps + [next]) <==> AllInTurn(cfg, steps) && InTurn(RunSteps(cfg, steps), next)
  {
    assert (steps + [next])[..|steps|] == steps;
  }

  lemma FreshCheckPasses(cfg: Config, xp: int, at: real, day: int)
    requires xp <= cfg.maxDaily && at >= cfg.cooldown as real
    ensures Check(cfg, UNTRACKED, xp, at, day) == (UNTRACKED, Allowed)
  {
  }

  /** Two messages checked before either is recorded, and the first recorded. */
  lemma OvertakenRunSetup(cfg: Config, xp: int, at: real, day: int)
    requires xp <= cfg.maxDaily && at >= cfg.cooldown as real
    ensures var steps := [Ask(0, xp, at, day), Ask(1, xp, at, day), Grant(0, at, day)];
            && AllInTurn(cfg, steps)
            && RunSteps(cfg, steps).awards == [Award(at, day, day, xp)]
            && RunSteps(cfg, steps).passes == map[1 := Pass(xp, at, day, 0)]
  {
    var p := Pass(xp, at, day, 0);
    var a, b, c := Ask(0, xp, at, day), Ask(1, xp, at, day), Grant(0, at, day);
    FreshCheckPasses(cfg, xp, at, day);
    RunExtends(cfg, [], a);
    assert [] + [a] == [a];
    assert RunSteps(cfg, []) == START && RunSteps(cfg, [a]) == State(UNTRACKED, [], map[0 := p]);
    RunExtends(cfg, [a], b);
    assert [a] + [b] == [a, b];
    assert RunSteps(cfg, [a, b]) == State(UNTRACKED, [], map[0 := p, 1 := p]);
    RunExtends(cfg, [a, b], c);
    assert [a, b] + [c] == [a, b, c];
    assert map[0 := p, 1 := p] - {0} == map[1 := p];
  }

  /** Such a run exists for every positive cooldown and every reward the cap allows. */
  lemma OvertakenRunBreaksLimits(cfg: Config, xp: int, at: real, day: int)
    requires cfg.cooldown > 0 && 0 <= xp <= cfg.maxDaily && at >= cfg.cooldown as real
    ensures var steps := [Ask(0, xp, at, day), Ask(1, xp, at, day), Grant(0, at, day), Grant(1, at, day)];
            && Chronological(steps) && AllInTurn(cfg, steps[..3]) && !AllInTurn(cfg, steps)
            && !WithinLimits(cfg, RunSteps(cfg, steps).awards)
  {
    var three, last := [Ask(0, xp, at, day), Ask(1, xp, at, day), Grant(0, at, day)], Grant(1, at, day);
    OvertakenRunSetup(cfg, xp, at, day);
    RunExtends(cfg, three, last);
    assert three + [last] == [Ask(0, xp, at, day), Ask(1, xp, at, day), Grant(0, at, day), Grant(1, at, day)];
    var awards := RunSteps(cfg, three + [last]).awards;
    assert awards[1].at - awards[0].at < cfg.cooldown as real;
  }
}
