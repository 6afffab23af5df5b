/** The anti-farming guard: cooldown, burst window and daily cap over pruned trackers. */
module AntiFarming {
  import opened Options

  const WINDOW := 600.0
  const BURST := 6

  datatype Config = Config(cooldown: int, maxDaily: int)

  datatype Key = Key(creator: string, viewer: string)

  /** What the guard remembers about one viewer: the last award, the award times it has not pruned,
      and the day and total of the daily tracker. */
  datatype Tracker = Tracker(last: real, stamps: seq<real>, daily: Option<(int, int)>)

  datatype Verdict = Allowed | CooldownActive | BurstLimitExceeded | DailyCapReached

  const UNTRACKED := Tracker(0.0, [], None)

  /** The times less than a window old. */
  function Recent(stamps: seq<real>, now: real): seq<real> {
    if stamps == [] then [] else
      var rest, t := Recent(stamps[..|stamps| - 1], now), stamps[|stamps| - 1];
      if now - t < WINDOW then rest + [t] else rest
  }

  /** What the daily tracker says for `today`; another day's entry counts as nothing. */
  function OnDay(daily: Option<(int, int)>, today: int): int {
    if daily.Some? && daily.value.0 == today then daily.value.1 else 0
  }

  function Check(cfg: Config, t: Tracker, xp: int, now: real, today: int): (Tracker, Verdict) {
    if now - t.last < cfg.cooldown as real then (t, CooldownActive) else
      var pruned := t.(stamps := Recent(t.stamps, now));
      if |pruned.stamps| >= BURST then (pruned, BurstLimitExceeded) else
        var reset := if t.daily.Some? && t.daily.value.0 != today then pruned.(daily := Some((today, 0))) else pruned;
        if OnDay(t.daily, today) + xp > cfg.maxDaily then (reset, DailyCapReached) else (reset, Allowed)
  }

  /** Recording adds to whatever total the tracker holds, under the day it is recorded on. */
  function Record(t: Tracker, xp: int, now: real, today: int): Tracker {
    Tracker(now, t.stamps + [now], Some((today, (if t.daily.Some? then t.daily.value.1 else 0) + xp)))
  }

  class AntiFarmingGuard {
    const cfg: Config
    var lastAward: map<Key, real>
    var stamps: map<Key, seq<real>>
    var daily: map<Key, (int, int)>

    /** What is remembered about one viewer. */
    function Of(key: Key): Tracker
      reads this
    {
      Tracker(if key in lastAward then lastAward[key] else 0.0,
              if key in stamps then stamps[key] else [],
              if key in daily then Some(daily[key]) else None)
    }

    constructor (cfg: Config)
      ensures this.cfg == cfg && forall k :: Of(k) == UNTRACKED
    {
      this.cfg := cfg;
      lastAward, stamps, daily := map[], map[], map[];
    }

    method Prune(times: seq<real>, now: real) returns (kept: seq<real>)
      ensures kept == Recent(times, now)
    {
      kept := [];
      for i := 0 to |times|
        invariant kept == Recent(times[..i], now)
      {
        assert times[..i + 1][..i] == times[..i];
        if now - times[i] < WINDOW {
          kept := kept + [times[i]];
        }
      }
      assert times[..|times|] == times;
    }

    method CanAwardXp(key: Key, xp: int, now: real, today: int) returns (verdict: Verdict)
      modifies this
      ensures (Of(key), verdict) == Check(cfg, old(Of(key)), xp, now, today)
      ensures forall k :: k != key ==> Of(k) == old(Of(k))
    {
      var last := if key in lastAward then lastAward[key] else 0.0;
      if now - last < cfg.cooldown as real {
        return CooldownActive;
      }
      if key !in stamps {
        stamps := stamps[key := []];
      }
      var kept := Prune(stamps[key], now);
      stamps := stamps[key := kept];
      if |stamps[key]| >= BURST {
        return BurstLimitExceeded;
      }
      var current := if key in daily then daily[key].1 else 0;
      if key in daily && daily[key].0 != today {
        current := 0;
        daily := daily[key := (today, 0)];
      }
      if current + xp > cfg.maxDaily {
        return DailyCapReached;
      }
      return Allowed;
    }

    method RecordAward(key: Key, xp: int, now: real, today: int)
      modifies this
      ensures Of(key) == Record(old(Of(key)), xp, now, today)
      ensures forall k :: k != key ==> Of(k) == old(Of(k))
    {
      lastAward := lastAward[key := now];
      stamps := stamps[key := (if key in stamps then stamps[key] else []) + [now]];
      var current := if key in daily then daily[key].1 else 0;
      daily := daily[key := (today, current + xp)];
    }
  }
}
