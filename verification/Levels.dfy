/** Level progression: the level of an amount of XP inverts a cumulative sum of rounded powers. */
module Levels {

  const MAX_LEVEL := 1000

  function Isqrt(n: nat): (r: nat)
    ensures r * r <= n < (r + 1) * (r + 1)
  {
    if n == 0 then 0 else
      var r := Isqrt(n - 1);
      if (r + 1) * (r + 1) <= n then r + 1 else r
  }

  /** The XP from `level` to the next: floor(100 * level^1.5), as an integer square root. */
  function StepXp(level: nat): (xp: nat)
    ensures xp * xp <= 10000 * (level * level * level) < (xp + 1) * (xp + 1)
  {
    Isqrt(10000 * (level * level * level))
  }

  lemma StepIsPositive(level: nat)
    requires level >= 1
    ensures StepXp(level) >= 1
  {
  }

  // ----- the search, for any step table -----

  /** The XP needed to reach `level` from level 1 when step(i) leads from level i to level i + 1. */
  function Cumulative(step: nat -> nat, level: nat): nat {
    if level <= 1 then 0 else Cumulative(step, level - 1) + step(level - 1)
  }

  function LevelFrom(step: nat -> nat, top: nat, xp: int, level: nat): nat
    requires level <= top
    decreases top - level
  {
    if level == top || xp < Cumulative(step, level + 1) then level else LevelFrom(step, top, xp, level + 1)
  }

  /** The level of `xp` on a table of `top` levels. */
  function LevelOf(step: nat -> nat, top: nat, xp: int): nat
    requires top >= 1
  {
    if xp <= 0 then 1 else LevelFrom(step, top, xp, 1)
  }

  method CalculateLevelFromXp(step: nat -> nat, top: nat, totalXp: int) returns (level: nat)
    requires top >= 1
    ensures level == LevelOf(step, top, totalXp)
  {
    if totalXp <= 0 {
      return 1;
    }
    level := 1;
    var needed := 0;
    while true
      invariant 1 <= level <= top && needed == Cumulative(step, level)
      invariant LevelOf(step, top, totalXp) == LevelFrom(step, top, totalXp, level)
      decreases top - level
    {
      var s := step(level);
      if needed + s > totalXp {
        return;
      }
      needed := needed + s;
      level := level + 1;
      if level > top {
        return top;
      }
    }
  }

  lemma {:induction false} CumulativeGrows(step: nat -> nat, a: nat, b: nat)
    requires a <= b
    ensures Cumulative(step, a) <= Cumulative(step, b)
  {
    if a < b {
      CumulativeGrows(step, a, b - 1);
    }
  }

  lemma {:induction false} LevelFromBounds(step: nat -> nat, top: nat, xp: int, level: nat)
    requires level <= top
    ensures var found := LevelFrom(step, top, xp, level);
            && level <= found <= top
            && (found > level ==> Cumulative(step, found) <= xp)
            && (found < top ==> xp < Cumulative(step, found + 1))
    decreases top - level
  {
    if level < top && xp >= Cumulative(step, level + 1) {
      LevelFromBounds(step, top, xp, level + 1);
    }
  }

  /** Main result: a level above the first is reached exactly when its cumulative XP is, so the
      computed level is the largest one that positive XP pays for. */
  lemma LevelInvertsCumulative(step: nat -> nat, top: nat, xp: int, level: nat)
    requires 2 <= level <= top && xp > 0
    ensures level <= LevelOf(step, top, xp) <==> Cumulative(step, level) <= xp
    ensures 1 <= LevelOf(step, top, xp) <= top
  {
    LevelFromBounds(step, top, xp, 1);
    var found := LevelOf(step, top, xp);
    if level <= found {
      CumulativeGrows(step, level, found);
    } else {
      CumulativeGrows(step, found + 1, level);
    }
  }

  lemma LevelIsMonotone(step: nat -> nat, top: nat, a: int, b: int)
    requires a <= b && top >= 1
    ensures 1 <= LevelOf(step, top, a) <= LevelOf(step, top, b) <= top
  {
    LevelFromBounds(step, top, a, 1);
    LevelFromBounds(step, top, b, 1);
    if a > 0 && LevelOf(step, top, a) >= 2 {
      LevelInvertsCumulative(step, top, a, LevelOf(step, top, a));
      LevelInvertsCumulative(step, top, b, LevelOf(step, top, a));
    }
  }

  /** When every step costs something, reaching a level's cumulative XP exactly gives that level. */
  lemma LevelOfCumulative(step: nat -> nat, top: nat, level: nat)
    requires 1 <= level <= top && forall i :: i >= 1 ==> step(i) >= 1
    ensures LevelOf(step, top, Cumulative(step, level)) == level
  {
    var xp := Cumulative(step, level);
    if level >= 2 {
      assert xp >= step(level - 1) >= 1;
      LevelInvertsCumulative(step, top, xp, level);
      if level < top {
        assert Cumulative(step, level + 1) == xp + step(level) > xp;
        LevelInvertsCumulative(step, top, xp, level + 1);
      }
    }
  }

  /** The repository's table: the largest of the 1000 levels whose cumulative sum is at most the XP. */
  lemma DefaultLevels(xp: int, level: nat)
    requires 2 <= level <= MAX_LEVEL
    ensures level <= LevelOf(StepXp, MAX_LEVEL, xp) <==> Cumulative(StepXp, level) <= xp
    ensures LevelOf(StepXp, MAX_LEVEL, Cumulative(StepXp, level)) == level
  {
    forall i: nat | i >= 1 ensures StepXp(i) >= 1 {
      StepIsPositive(i);
    }
    LevelOfCumulative(StepXp, MAX_LEVEL, level);
    if xp > 0 {
      LevelInvertsCumulative(StepXp, MAX_LEVEL, xp, level);
    } else {
      assert Cumulative(StepXp, level) == Cumulative(StepXp, level - 1) + StepXp(level - 1);
    }
  }

  // ----- the stored level -----

  datatype Profile = Profile(totalXp: int, level: nat)

  const NEW_PROFILE := Profile(0, 1)

  function Award(step: nat -> nat, top: nat, p: Profile, xp: int): Profile
    requires top >= 1
  {
    var reached := LevelOf(step, top, p.totalXp + xp);
    Profile(p.totalXp + xp, if reached > p.level then reached else p.level)
  }

  function AwardAll(step: nat -> nat, top: nat, awards: seq<int>): Profile
    requires top >= 1
  {
    if awards == [] then NEW_PROFILE
    else Award(step, top, AwardAll(step, top, awards[..|awards| - 1]), awards[|awards| - 1])
  }

  function Sum(awards: seq<int>): int {
    if awards == [] then 0 else Sum(awards[..|awards| - 1]) + awards[|awards| - 1]
  }

  /** The highest total ever held. */
  function Peak(awards: seq<int>): int {
    if awards == [] then 0 else
      var before := Peak(awards[..|awards| - 1]);
      if Sum(awards) > before then Sum(awards) else before
  }

  /** Main result: after any run of chat awards and game wins the stored level is the level of the
      highest total ever held, so it never drops. */
  lemma {:induction false} StoredLevelIsPeakLevel(step: nat -> nat, top: nat, awards: seq<int>)
    requires top >= 1
    ensures AwardAll(step, top, awards) == Profile(Sum(awards), LevelOf(step, top, Peak(awards)))
    ensures Sum(awards) <= Peak(awards)
  {
    if awards != [] {
      var before := awards[..|awards| - 1];
      StoredLevelIsPeakLevel(step, top, before);
      if Sum(awards) > Peak(before) {
        LevelIsMonotone(step, top, Peak(before), Sum(awards));
      } else {
        LevelIsMonotone(step, top, Sum(awards), Peak(before));
      }
    }
  }

  /** As long as no award is negative, the stored level is the level of the stored XP. */
  lemma {:induction false} StoredLevelMatchesStoredXp(step: nat -> nat, top: nat, awards: seq<int>)
    requires top >= 1 && forall i :: 0 <= i < |awards| ==> awards[i] >= 0
    ensures var p := AwardAll(step, top, awards); p.level == LevelOf(step, top, p.totalXp)
    ensures Peak(awards) == Sum(awards) >= 0
  {
    if awards != [] {
      StoredLevelMatchesStoredXp(step, top, awards[..|awards| - 1]);
    }
    StoredLevelIsPeakLevel(step, top, awards);
  }
}
