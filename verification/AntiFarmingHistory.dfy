/** The guard against the full history of one viewer's awards, over serial runs. */
module AntiFarmingHistory {
  import opened Options
  import opened Sequences
  import opened AntiFarming

  /** An award of the history: when and on which day it was recorded, and on which day it was checked. */
  datatype Award = Award(at: real, day: int, checkedOn: int, xp: int)

  /** One serial attempt: checked at one time and day, and recorded, if allowed, at a later one. */
  datatype Attempt = Attempt(checkAt: real, checkDay: int, recordAt: real, recordDay: int, xp: int)

  datatype Log = Log(tracker: Tracker, awards: seq<Award>)

  function Try(cfg: Config, log: Log, a: Attempt): Log {
    var (checked, verdict) := Check(cfg, log.tracker, a.xp, a.checkAt, a.checkDay);
    if verdict.Allowed?
    then Log(Record(checked, a.xp, a.recordAt, a.recordDay),
             log.awards + [Award(a.recordAt, a.recordDay, a.checkDay, a.xp)])
    else log.(tracker := checked)
  }

  function Run(cfg: Config, attempts: seq<Attempt>): Log {
    if attempts == [] then Log(UNTRACKED, [])
    else Try(cfg, Run(cfg, attempts[..|attempts| - 1]), attempts[|attempts| - 1])
  }

  /** Attempts follow one another, and within one the record follows the check. */
  predicate Serial(attempts: seq<Attempt>) {
    && (forall i :: 0 <= i < |attempts| ==>
          && attempts[i].checkAt <= attempts[i].recordAt && attempts[i].checkDay <= attempts[i].recordDay
          && attempts[i].xp >= 0)
    && (forall i :: 0 < i < |attempts| ==>
          attempts[i - 1].recordAt <= attempts[i].checkAt && attempts[i - 1].recordDay <= attempts[i].checkDay)
  }

  // ----- the decision, read off the full history -----

  function Times(awards: seq<Award>): seq<real> {
    seq(|awards|, i requires 0 <= i < |awards| => awards[i].at)
  }

  /** The total accounted on `today`: the awards recorded that day, and before them those of the day
      their first check still belonged to. */
  function Accounted(awards: seq<Award>, today: int): int {
    if awards == [] || awards[|awards| - 1].day != today then 0 else
      var last := awards[|awards| - 1];
      Accounted(awards[..|awards| - 1], last.checkedOn) + last.xp
  }

  function Decide(cfg: Config, awards: seq<Award>, xp: int, now: real, today: int): Verdict {
    var last := if awards == [] then 0.0 else awards[|awards| - 1].at;
    if now - last < cfg.cooldown as real then CooldownActive
    else if |Recent(Times(awards), now)| >= BURST then BurstLimitExceeded
    else if Accounted(awards, today) + xp > cfg.maxDaily then DailyCapReached
    else Allowed
  }

  /** What each verdict says about the history: the latest award is less than a cooldown old; or at least six are less
      than ten minutes old; or the total of the day with this award is over the cap; or none of these. */
  lemma VerdictsMean(cfg: Config, awards: seq<Award>, xp: int, now: real, today: int)
    ensures var verdict := Decide(cfg, awards, xp, now, today);
            var soon := now - (if awards == [] then 0.0 else awards[|awards| - 1].at) < cfg.cooldown as real;
            var burst := |Keep(Times(awards), (t: real) => now - t < 600.0)| >= 6;
            && (verdict.CooldownActive? <==> soon)
            && (verdict.BurstLimitExceeded? <==> !soon && burst)
            && (verdict.DailyCapReached? <==> !soon && !burst && Accounted(awards, today) + xp > cfg.maxDaily)
            && (verdict.Allowed? <==> !soon && !burst && Accounted(awards, today) + xp <= cfg.maxDaily)
  {
    RecentAreTheNewest(Times(awards), now);
  }

  /** The tracker gives the same answers as the history at every time and day from here on. */
  ghost predicate Tracks(t: Tracker, awards: seq<Award>, clock: real, day: int) {
    && t.last == (if awards == [] then 0.0 else awards[|awards| - 1].at)
    && (forall now {:trigger Recent(t.stamps, now)} ::
          clock <= now ==> Recent(t.stamps, now) == Recent(Times(awards), now))
    && (forall today {:trigger OnDay(t.daily, today)} ::
          day <= today ==> OnDay(t.daily, today) == Accounted(awards, today))
    && (t.daily.Some? ==> t.daily.value.0 <= day)
  }

  lemma {:induction false} RecentTwice(stamps: seq<real>, t0: real, now: real)
    requires t0 <= now
    ensures Recent(Recent(stamps, t0), now) == Recent(stamps, now)
  {
    if stamps != [] {
      var rest, t := stamps[..|stamps| - 1], stamps[|stamps| - 1];
      RecentTwice(rest, t0, now);
      if t0 - t < WINDOW {
        assert (Recent(rest, t0) + [t])[..|Recent(rest, t0)|] == Recent(rest, t0);
      }
    }
  }

  /** Pruning keeps exactly the times less than ten minutes old, in order. */
  lemma {:induction false} RecentAreTheNewest(stamps: seq<real>, now: real)
    ensures Recent(stamps, now) == Keep(stamps, (t: real) => now - t < 600.0)
  {
    if stamps != [] {
      var n := |stamps| - 1;
      RecentAreTheNewest(stamps[..n], now);
      KeepAppend(stamps[..n], [stamps[n]], (t: real) => now - t < 600.0);
      assert stamps == stamps[..n] + [stamps[n]];
    }
  }

  lemma RecentExtend(stamps: seq<real>, t: real, now: real)
    ensures Recent(stamps + [t], now) == Recent(stamps, now) + (if now - t < WINDOW then [t] else [])
  {
  }

  /** Main result, one attempt: pruning and the daily reset never change a decision; the guard decides
      as if it had kept the full history. */
  lemma CheckDecidesByHistory(cfg: Config, t: Tracker, awards: seq<Award>, clock: real, day: int, a: Attempt)
    requires Tracks(t, awards, clock, day) && clock <= a.checkAt && day <= a.checkDay
    ensures Check(cfg, t, a.xp, a.checkAt, a.checkDay).1 == Decide(cfg, awards, a.xp, a.checkAt, a.checkDay)
    ensures Tracks(Check(cfg, t, a.xp, a.checkAt, a.checkDay).0, awards, a.checkAt, a.checkDay)
  {
    var after := Check(cfg, t, a.xp, a.checkAt, a.checkDay).0;
    assert Recent(t.stamps, a.checkAt) == Recent(Times(awards), a.checkAt);
    assert OnDay(t.daily, a.checkDay) == Accounted(awards, a.checkDay);
    forall now | a.checkAt <= now ensures Recent(after.stamps, now) == Recent(Times(awards), now) {
      RecentTwice(t.stamps, a.checkAt, now);
      assert Recent(t.stamps, now) == Recent(Times(awards), now);
    }
    forall today | a.checkDay <= today ensures OnDay(after.daily, today) == Accounted(awards, today) {
      assert OnDay(t.daily, today) == Accounted(awards, today);
    }
  }

  lemma RecordKeepsTracking(t: Tracker, awards: seq<Award>, a: Attempt)
    requires Tracks(t, awards, a.checkAt, a.checkDay) && a.checkAt <= a.recordAt && a.checkDay <= a.recordDay
    requires t.daily.Some? ==> t.daily.value.0 == a.checkDay
    ensures Tracks(Record(t, a.xp, a.recordAt, a.recordDay),
                   awards + [Award(a.recordAt, a.recordDay, a.checkDay, a.xp)], a.recordAt, a.recordDay)
  {
    var after := Record(t, a.xp, a.recordAt, a.recordDay);
    var more := awards + [Award(a.recordAt, a.recordDay, a.checkDay, a.xp)];
    assert Times(more) == Times(awards) + [a.recordAt];
    forall now | a.recordAt <= now ensures Recent(after.stamps, now) == Recent(Times(more), now) {
      RecentExtend(t.stamps, a.recordAt, now);
      RecentExtend(Times(awards), a.recordAt, now);
      assert Recent(t.stamps, now) == Recent(Times(awards), now);
    }
    assert more[..|awards|] == awards;
    assert OnDay(t.daily, a.checkDay) == Accounted(awards, a.checkDay);
  }

  predicate Reached(attempts: seq<Attempt>, clock: real, day: int) {
    attempts == [] || (attempts[|attempts| - 1].recordAt <= clock && attempts[|attempts| - 1].recordDay <= day)
  }

  lemma {:induction false} RunTracks(cfg: Config, attempts: seq<Attempt>, clock: real, day: int)
    requires Serial(attempts) && Reached(attempts, clock, day)
    ensures Tracks(Run(cfg, attempts).tracker, Run(cfg, attempts).awards, clock, day)
    decreases |attempts|
  {
    if attempts != [] {
      var n := |attempts| - 1;
      var a, before := attempts[n], Run(cfg, attempts[..n]);
      RunTracks(cfg, attempts[..n], a.checkAt, a.checkDay);
      CheckDecidesByHistory(cfg, before.tracker, before.awards, a.checkAt, a.checkDay, a);
      var (checked, verdict) := Check(cfg, before.tracker, a.xp, a.checkAt, a.checkDay);
      if verdict.Allowed? {
        RecordKeepsTracking(checked, before.awards, a);
      }
    }
  }

  /** Main result: over a whole serial run, an attempt is awarded exactly when the full history of
      earlier awards allows it. */
  lemma RunDecidesByHistory(cfg: Config, attempts: seq<Attempt>, next: Attempt)
    requires Serial(attempts + [next])
    ensures Run(cfg, attempts + [next]).awards
            == Run(cfg, attempts).awards
               + (if Decide(cfg, Run(cfg, attempts).awards, next.xp, next.checkAt, next.checkDay).Allowed?
                  then [Award(next.recordAt, next.recordDay, next.checkDay, next.xp)] else [])
  {
    var all := attempts + [next];
    assert all[..|attempts|] == attempts;
    assert all[|attempts|] == next;
    assert Serial(attempts) by {
      assert forall i :: 0 <= i < |attempts| ==> attempts[i] == all[i];
    }
    if attempts != [] {
      assert all[|attempts| - 1] == attempts[|attempts| - 1];
    }
    RunTracks(cfg, attempts, next.checkAt, next.checkDay);
    var before := Run(cfg, attempts);
    CheckDecidesByHistory(cfg, before.tracker, before.awards, next.checkAt, next.checkDay, next);
  }
}
