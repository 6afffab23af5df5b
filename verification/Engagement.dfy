/** A chat message from quality gate to stored level. */
module Engagement {
  import opened Options
  import opened AntiFarming
  import opened Levels

  datatype Reason = NotMeaningful | Refused(verdict: Verdict) | XpAwarded

  class ViewerProfile {
    var totalXp: int
    var level: nat
    var messages: nat

    function Value(): Profile
      reads this
    {
      Profile(totalXp, level)
    }

    constructor ()
      ensures Value() == NEW_PROFILE && messages == 0
    {
      totalXp, level, messages := 0, 1, 0;
    }

    method AwardXp(gain: int, newLevel: nat)
      modifies this`totalXp, this`level
      ensures totalXp == old(totalXp) + gain
      ensures level == if newLevel > old(level) then newLevel else old(level)
    {
      totalXp := totalXp + gain;
      level := if level > newLevel then level else newLevel;
    }
  }

  class XPManager {
    const step: nat -> nat
    const top: nat
    const guard: AntiFarmingGuard

    constructor (step: nat -> nat, top: nat, guard: AntiFarmingGuard)
      ensures this.step == step && this.top == top && this.guard == guard
    {
      this.step, this.top, this.guard := step, top, guard;
    }

    /** One message of viewer `key`. The guard is asked at (now, today) and, if it agrees, told at
        (later, day). Awarded exactly when the text qualifies and the guard allows it; the profile then
        takes one award, and the level-up flag says whether the stored level rose. */
    method ProcessChatMessage(profile: ViewerProfile, key: Key, meaningful: bool, reward: int,
                              now: real, today: int, later: real, day: int)
      returns (reason: Reason, totalXp: int, leveledUp: bool)
      requires top >= 1
      modifies profile, guard
      ensures profile.messages == old(profile.messages) + 1
      ensures var (checked, verdict) := Check(guard.cfg, old(guard.Of(key)), reward, now, today);
              && reason == (if !meaningful then NotMeaningful
                            else if verdict.Allowed? then XpAwarded else Refused(verdict))
              && guard.Of(key) == (if !meaningful then old(guard.Of(key))
                                   else if verdict.Allowed? then Record(checked, reward, later, day) else checked)
      ensures profile.Value() == if reason.XpAwarded? then Award(step, top, old(profile.Value()), reward)
                                 else old(profile.Value())
      ensures forall k :: k != key ==> guard.Of(k) == old(guard.Of(k))
      ensures totalXp == profile.totalXp && (leveledUp <==> profile.level > old(profile.level))
    {
      profile.messages := profile.messages + 1;
      if !meaningful {
        return NotMeaningful, profile.totalXp, false;
      }
      var verdict := guard.CanAwardXp(key, reward, now, today);
      if !verdict.Allowed? {
        return Refused(verdict), profile.totalXp, false;
      }
      var oldLevel := profile.level;
      var newTotal := profile.totalXp + reward;
      var newLevel := CalculateLevelFromXp(step, top, newTotal);
      leveledUp := newLevel > oldLevel;
      profile.AwardXp(reward, newLevel);
      guard.RecordAward(key, reward, later, day);
      return XpAwarded, newTotal, leveledUp;
    }
  }
}
