/** The limits that hold for every serial run of one viewer. */
module AntiFarmingLimits {
  import opened Options
  import opened AntiFarming
  import opened AntiFarmingHistory

  ghost predicate InOrder(awards: seq<Award>) {
    forall i, j :: 0 <= i < j < |awards| ==> awards[i].at <= awards[j].at && awards[i].day <= awards[j].day
  }

  /** Neighbouring awards are a cooldown apart. */
  ghost predicate Spaced(cfg: Config, awards: seq<Award>) {
    forall i :: 0 < i < |awards| ==> awards[i].at - awards[i - 1].at >= cfg.cooldown as real
  }

  /** An award and the sixth one before it are a window apart. */
  ghost predicate NoBurst(awards: seq<Award>) {
    forall i :: BURST <= i < |awards| ==> awards[i].at - awards[i - BURST].at >= WINDOW
  }

  /** XP recorded on one date. */
  function SumOn(awards: seq<Award>, day: int): int {
    if awards == [] then 0 else
      SumOn(awards[..|awards| - 1], day) + if awards[|awards| - 1].day == day then awards[|awards| - 1].xp else 0
  }

  function Cap(cfg: Config): int { if cfg.maxDaily > 0 then cfg.maxDaily else 0 }

  /** The accounted total of the last day covers all XP recorded on that day and fits the cap. */
  ghost predicate Accountable(cfg: Config, awards: seq<Award>) {
    && (forall i :: 0 <= i < |awards| ==> awards[i].checkedOn <= awards[i].day && awards[i].xp >= 0)
    && (forall day :: SumOn(awards, day) <= Cap(cfg))
    && (forall day :: awards != [] && day > awards[|awards| - 1].day ==> SumOn(awards, day) == 0)
    && (awards != [] ==>
          var today := awards[|awards| - 1].day;
          SumOn(awards, today) <= Accounted(awards, today) <= Cap(cfg))
  }

  ghost predicate WithinLimits(cfg: Config, awards: seq<Award>) {
    InOrder(awards) && Spaced(cfg, awards) && NoBurst(awards) && Accountable(cfg, awards)
  }

  /** If the k-th newest time is recent, so are the newer ones. */
  lemma {:induction false} RecentCounts(stamps: seq<real>, now: real, k: nat)
    requires 1 <= k <= |stamps| && now - stamps[|stamps| - k] < WINDOW
    requires forall i, j :: 0 <= i < j < |stamps| ==> stamps[i] <= stamps[j]
    ensures |Recent(stamps, now)| >= k
  {
    if k > 1 {
      RecentCounts(stamps[..|stamps| - 1], now, k - 1);
    }
  }

  function Recorded(a: Attempt): Award { Award(a.recordAt, a.recordDay, a.checkDay, a.xp) }

  /** All awards were recorded by this time and day. */
  predicate DoneBy(awards: seq<Award>, clock: real, day: int) {
    awards == [] || (awards[|awards| - 1].at <= clock && awards[|awards| - 1].day <= day)
  }

  lemma AllowedKeepsSpacing(cfg: Config, awards: seq<Award>, a: Attempt)
    requires InOrder(awards) && Spaced(cfg, awards) && DoneBy(awards, a.checkAt, a.checkDay)
    requires Decide(cfg, awards, a.xp, a.checkAt, a.checkDay).Allowed?
    requires a.checkAt <= a.recordAt && a.checkDay <= a.recordDay
    ensures InOrder(awards + [Recorded(a)]) && Spaced(cfg, awards + [Recorded(a)])
  {
  }

  lemma AllowedKeepsNoBurst(cfg: Config, awards: seq<Award>, a: Attempt)
    requires InOrder(awards) && NoBurst(awards) && a.checkAt <= a.recordAt
    requires Decide(cfg, awards, a.xp, a.checkAt, a.checkDay).Allowed?
    ensures NoBurst(awards + [Recorded(a)])
  {
    var n := |awards|;
    if n >= BURST && a.checkAt - awards[n - BURST].at < WINDOW {
      RecentCounts(Times(awards), a.checkAt, BURST);
    }
  }

  lemma AllowedKeepsCap(cfg: Config, awards: seq<Award>, a: Attempt)
    requires Accountable(cfg, awards)
    requires Decide(cfg, awards, a.xp, a.checkAt, a.checkDay).Allowed?
    requires a.checkDay <= a.recordDay && a.xp >= 0 && DoneBy(awards, a.checkAt, a.checkDay)
    ensures Accountable(cfg, awards + [Recorded(a)])
  {
    var more := awards + [Recorded(a)];
    assert more[..|awards|] == awards;
    forall day ensures SumOn(more, day) == SumOn(awards, day) + (if day == a.recordDay then a.xp else 0) {
    }
    assert Accounted(more, a.recordDay) == Accounted(awards, a.checkDay) + a.xp <= cfg.maxDaily;
    if awards != [] && awards[|awards| - 1].day == a.recordDay {
      assert a.checkDay == a.recordDay;
    } else {
      AccountedNonNegative(awards, a.checkDay);
    }
  }

  lemma {:induction false} AccountedNonNegative(awards: seq<Award>, day: int)
    requires forall i :: 0 <= i < |awards| ==> awards[i].xp >= 0
    ensures Accounted(awards, day) >= 0
  {
    if awards != [] && awards[|awards| - 1].day == day {
      AccountedNonNegative(awards[..|awards| - 1], awards[|awards| - 1].checkedOn);
    }
  }

  /** Main result: the awards of every serial run are a cooldown apart, never more than six in less
      than a window, and within the daily cap on every single date, even when midnight falls between
      an attempt's check and its record. */
  lemma {:induction false} EveryRunIsWithinLimits(cfg: Config, attempts: seq<Attempt>)
    requires Serial(attempts)
    ensures WithinLimits(cfg, Run(cfg, attempts).awards)
    ensures attempts == [] ==> Run(cfg, attempts).awards == []
    ensures attempts != [] ==>
              DoneBy(Run(cfg, attempts).awards, attempts[|attempts| - 1].recordAt, attempts[|attempts| - 1].recordDay)
    decreases |attempts|
  {
    if attempts != [] {
      var n := |attempts| - 1;
      SerialPrefix(attempts);
      EveryRunIsWithinLimits(cfg, attempts[..n]);
      RunDecidesByHistory(cfg, attempts[..n], attempts[n]);
      AttemptKeepsLimits(cfg, Run(cfg, attempts[..n]).awards, attempts[n]);
    }
  }

  /** The awards after an attempt that the history decides on. */
  function Awarded(cfg: Config, awards: seq<Award>, a: Attempt): seq<Award> {
    if Decide(cfg, awards, a.xp, a.checkAt, a.checkDay).Allowed? then awards + [Recorded(a)] else awards
  }

  lemma AttemptKeepsLimits(cfg: Config, awards: seq<Award>, a: Attempt)
    requires WithinLimits(cfg, awards) && DoneBy(awards, a.checkAt, a.checkDay)
    requires a.checkAt <= a.recordAt && a.checkDay <= a.recordDay && a.xp >= 0
    ensures WithinLimits(cfg, Awarded(cfg, awards, a)) && DoneBy(Awarded(cfg, awards, a), a.recordAt, a.recordDay)
  {
    if Decide(cfg, awards, a.xp, a.checkAt, a.checkDay).Allowed? {
      AllowedKeepsLimits(cfg, awards, a);
    }
  }

  lemma SerialPrefix(attempts: seq<Attempt>)
    requires Serial(attempts) && attempts != []
    ensures var n := |attempts| - 1;
            && Serial(attempts[..n]) && attempts == attempts[..n] + [attempts[n]]
            && attempts[n].checkAt <= attempts[n].recordAt && attempts[n].checkDay <= attempts[n].recordDay
            && attempts[n].xp >= 0
            && (n > 0 ==> attempts[..n][n - 1].recordAt <= attempts[n].checkAt
                          && attempts[..n][n - 1].recordDay <= attempts[n].checkDay)
  {
  }

  lemma AllowedKeepsLimits(cfg: Config, awards: seq<Award>, a: Attempt)
    requires WithinLimits(cfg, awards) && DoneBy(awards, a.checkAt, a.checkDay)
    requires Decide(cfg, awards, a.xp, a.checkAt, a.checkDay).Allowed?
    requires a.checkAt <= a.recordAt && a.checkDay <= a.recordDay && a.xp >= 0
    ensures WithinLimits(cfg, awards + [Recorded(a)])
  {
    AllowedKeepsSpacing(cfg, awards, a);
    AllowedKeepsNoBurst(cfg, awards, a);
    AllowedKeepsCap(cfg, awards, a);
  }

  /** Awards recorded between two times. */
  function CountIn(awards: seq<Award>, from: real, to: real): nat {
    if awards == [] then 0 else
      CountIn(awards[..|awards| - 1], from, to) + if from <= awards[|awards| - 1].at <= to then 1 else 0
  }

  lemma {:induction false} CountFromTail(awards: seq<Award>, from: real, to: real, skip: nat)
    requires InOrder(awards) && skip <= |awards| && (skip > 0 ==> awards[skip - 1].at < from)
    ensures CountIn(awards, from, to) <= |awards| - skip
  {
    if skip < |awards| {
      CountFromTail(awards[..|awards| - 1], from, to, skip);
    } else if awards != [] {
      CountFromTail(awards[..|awards| - 1], from, to, skip - 1);
    }
  }

  lemma {:induction false} AtMostSixPerWindow(awards: seq<Award>, from: real, to: real)
    requires InOrder(awards) && NoBurst(awards) && to - from < WINDOW
    ensures CountIn(awards, from, to) <= BURST
  {
    if awards != [] {
      var n := |awards| - 1;
      assert awards[..n][..] == awards[..n];
      AtMostSixPerWindow(awards[..n], from, to);
      if from <= awards[n].at <= to && n >= BURST {
        assert awards[n].at - awards[n - BURST].at >= WINDOW;
        CountFromTail(awards, from, to, n - BURST + 1);
      } else if n < BURST {
        CountFromTail(awards, from, to, 0);
      }
    }
  }

  /** When no midnight falls between a check and its record, the accounted total of a day is exactly the
      XP recorded on it, so the cap is applied to that sum; otherwise it may only be larger. */
  lemma {:induction false} AccountedIsSum(awards: seq<Award>, today: int)
    requires forall i :: 0 <= i < |awards| ==> awards[i].checkedOn == awards[i].day <= today
    requires forall i, j :: 0 <= i < j < |awards| ==> awards[i].day <= awards[j].day
    ensures Accounted(awards, today) == SumOn(awards, today)
  {
    if awards != [] {
      AccountedIsSum(awards[..|awards| - 1], today);
      if awards[|awards| - 1].day < today && |awards| > 1 {
        assert awards[|awards| - 2].day < today;
      }
    }
  }

  /** The windows and dates of a run, counted. */
  lemma RunLimits(cfg: Config, attempts: seq<Attempt>, from: real, to: real, day: int)
    requires Serial(attempts)
    ensures to - from < WINDOW ==> CountIn(Run(cfg, attempts).awards, from, to) <= BURST
    ensures SumOn(Run(cfg, attempts).awards, day) <= Cap(cfg)
  {
    EveryRunIsWithinLimits(cfg, attempts);
    if to - from < WINDOW {
      AtMostSixPerWindow(Run(cfg, attempts).awards, from, to);
    }
  }
}
