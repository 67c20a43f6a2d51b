/** The push variant of the plugin (the one with the progress bar): its stat, game-state,
    shutdown and tick handlers as pure transitions of the session state. A tick returns the
    record it would POST to the device instead of sending it. */
module PushPlugin {
  import opened Optional
  import opened JavaInt
  import opened RuneLite
  import opened TrackerConfig
  import opened Session

  /** The record POSTed to the device for one skill. */
  datatype SkillData = SkillData(
    skill: Skill,
    xp: Int32,
    level: Level,
    boostedLevel: Int32,
    xpHr: Int32,
    actionsHr: Int32,
    xpGained: Int32,
    timeToLevel: string,
    progressPercent: real)

  /** The state after a tick and the record sent on that tick, if any. */
  datatype TickResult = TickResult(next: State, sent: Option<SkillData>)

  /** `shutDown` forgets the last skill and nothing else; the baselines survive. */
  function ShutDown(s: State): (r: State)
    ensures r.lastSkill.None?
    ensures r.(lastSkill := s.lastSkill) == s
  {
    s.(lastSkill := None)
  }

  /** `onGameStateChanged`: reaching the login screen forgets the last skill and every
      baseline, but keeps the pending update, its skill and the last send time. */
  function OnGameStateChanged(s: State, gameState: GameState): (r: State)
    ensures gameState == LoginScreen ==> r.lastSkill.None? && r.skillStartXp == map[]
    ensures gameState != LoginScreen ==> r == s
    ensures r.pendingUpdate == s.pendingUpdate && r.pendingSkill == s.pendingSkill
    ensures r.lastUpdateTime == s.lastUpdateTime
  {
    if gameState == LoginScreen then
      s.(lastSkill := None, skillStartXp := map[])
    else
      s
  }

  /** `onStatChanged`, with `clientXp` the client's XP for the skill when the event arrives.
      OVERALL and ignored skills change nothing. Any other event makes the skill the last and
      the pending one, and records `clientXp` as its baseline only if it has none yet. */
  function OnStatChanged(s: State, cfg: Config, skill: Skill, clientXp: Int32): (r: State)
    ensures skill == Overall || IsSkillIgnored(cfg, skill) ==> r == s
    ensures skill != Overall && !IsSkillIgnored(cfg, skill) ==>
      && r.lastSkill == Some(skill)
      && r.pendingSkill == Some(skill)
      && r.pendingUpdate
      && r.lastUpdateTime == s.lastUpdateTime
      && r.skillStartXp.Keys == s.skillStartXp.Keys + {skill}
      && r.skillStartXp[skill] == (if skill in s.skillStartXp then s.skillStartXp[skill] else clientXp)
    ensures forall k :: k in s.skillStartXp ==> k in r.skillStartXp && r.skillStartXp[k] == s.skillStartXp[k]
  {
    if skill == Overall then
      s
    else if IsSkillIgnored(cfg, skill) then
      s
    else
      var startXp := if skill !in s.skillStartXp then s.skillStartXp[skill := clientXp] else s.skillStartXp;
      s.(skillStartXp := startXp, lastSkill := Some(skill), pendingUpdate := true, pendingSkill := Some(skill))
  }

  /** `progress_percent`: fixed at 100 from level 99 on; below it, the share of the current
      level's XP span already covered, in percent, computed without clamping. */
  function ProgressPercent(xp: Int32, level: Level, xpForLevel: int -> Int32): (percent: real)
    requires ValidXpTable(xpForLevel)
    ensures 99 <= level ==> percent == 100.0
    ensures level < 99 && xpForLevel(level) <= xp < xpForLevel(level + 1) ==> 0.0 <= percent < 100.0
    ensures level < 99 && xp == xpForLevel(level) ==> percent == 0.0
    ensures level < 99 && 0 <= xp < xpForLevel(level) ==> percent < 0.0
    ensures level < 99 && xpForLevel(level + 1) <= xp ==> 100.0 <= percent
    ensures level < 99 && xpForLevel(level) < xp < xpForLevel(level + 1) ==> 0.0 < percent
    ensures level < 99 && 0 <= xp ==>
      percent == (xp - xpForLevel(level)) as real / (xpForLevel(level + 1) - xpForLevel(level)) as real * 100.0
  {
    if level < 99 then
      var currentLevelMinXp := xpForLevel(level);
      var nextLevelXp := xpForLevel(level + 1);
      var xpIntoLevel := Sub32(xp, currentLevelMinXp);
      var xpNeededForLevel := Sub32(nextLevelXp, currentLevelMinXp);
      assert xpNeededForLevel == nextLevelXp - currentLevelMinXp > 0;
      RatioBounds(xpIntoLevel, xpNeededForLevel);
      xpIntoLevel as real / xpNeededForLevel as real * 100.0
    else
      100.0
  }

  /** Where `a / b * 100` lies for a positive `b`. */
  lemma RatioBounds(a: int, b: int)
    requires 0 < b
    ensures 0 <= a < b ==> 0.0 <= a as real / b as real * 100.0 < 100.0
    ensures a == 0 ==> a as real / b as real * 100.0 == 0.0
    ensures 0 < a ==> 0.0 < a as real / b as real * 100.0
    ensures a < 0 ==> a as real / b as real * 100.0 < 0.0
    ensures b <= a ==> 100.0 <= a as real / b as real * 100.0
  {
    var q := a as real / b as real;
    assert q * b as real == a as real;
    if 0 < a {
      assert 0.0 < q;
    }
    if a < 0 {
      assert q < 0.0;
    }
    if 0 <= a < b {
      assert q < 1.0;
    }
    if b <= a {
      assert 1.0 <= q;
    }
  }

  /** `buildSkillData`: the client's and tracker service's readings for the skill, copied
      unchanged, the XP gained since the skill's baseline (0 without one), and the progress. */
  function BuildSkillData(s: State, skill: Skill, client: Client, tracker: XpTracker, xpForLevel: int -> Int32): (d: SkillData)
    requires ValidXpTable(xpForLevel)
    ensures d.skill == skill
    ensures d.xp == client.experience(skill) && d.level == client.realLevel(skill)
    ensures d.boostedLevel == client.boostedLevel(skill)
    ensures d.xpHr == tracker.xpHr(skill) && d.actionsHr == tracker.actionsHr(skill)
    ensures d.timeToLevel == tracker.timeTilGoal(skill)
    ensures skill !in s.skillStartXp ==> d.xpGained == 0
    ensures skill in s.skillStartXp && 0 <= s.skillStartXp[skill] && 0 <= d.xp ==>
      d.xpGained == d.xp - s.skillStartXp[skill]
    ensures skill in s.skillStartXp ==> (d.xp - s.skillStartXp[skill] - d.xpGained) % TWO_32 == 0
    ensures d.progressPercent == ProgressPercent(d.xp, d.level, xpForLevel)
  {
    var currentXp := client.experience(skill);
    var currentLevel := client.realLevel(skill);
    var xpGained := if skill in s.skillStartXp then Sub32(currentXp, s.skillStartXp[skill]) else 0;
    SkillData(
      skill, currentXp, currentLevel, client.boostedLevel(skill),
      tracker.xpHr(skill), tracker.actionsHr(skill), xpGained, tracker.timeTilGoal(skill),
      ProgressPercent(currentXp, currentLevel, xpForLevel))
  }

  /** `onGameTick` at clock reading `now`; `urlParses` says whether OkHttp accepts a URL.
      Nothing happens without a device address, without a skill to report, or while
      throttled; in particular a throttled tick keeps the pending update. Otherwise the send
      time becomes `now`. If the update URL parses, the selected skill's record is sent and
      the pending update is cleared. If it does not, building the request throws before
      anything is sent, and the pending update survives. The last and pending skills and the
      baselines always stay. */
  function OnGameTick(
    s: State, cfg: Config, now: Int64, client: Client, tracker: XpTracker,
    xpForLevel: int -> Int32, urlParses: string -> bool): (r: TickResult)
    requires ValidXpTable(xpForLevel)
    ensures cfg.esp32IpAddress == "" ==> r == TickResult(s, None)
    ensures !TickAttempts(s, cfg, now) ==> r == TickResult(s, None)
    ensures TickAttempts(s, cfg, now) ==> r.next.lastUpdateTime == now
    ensures r.sent.Some? <==> TickAttempts(s, cfg, now) && urlParses(UpdateUrl(cfg))
    ensures TickAttempts(s, cfg, now) && !urlParses(UpdateUrl(cfg)) ==> r.next == s.(lastUpdateTime := now)
    ensures r.sent.Some? ==>
      && r.next == s.(lastUpdateTime := now, pendingUpdate := false)
      && r.sent.value.skill == (if s.pendingUpdate then s.pendingSkill.value else s.lastSkill.value)
      && r.sent.value == BuildSkillData(s, r.sent.value.skill, client, tracker, xpForLevel)
    ensures TickAttempts(s, cfg, now) && 0 <= s.lastUpdateTime && 0 <= now ==> s.lastUpdateTime + UPDATE_DELAY_MS <= now
  {
    if cfg.esp32IpAddress == "" then
      TickResult(s, None)
    else
      match SkillToUpdate(s)
      case None => TickResult(s, None)
      case Some(skillToUpdate) =>
        if Sub64(now, s.lastUpdateTime) < UPDATE_DELAY_MS then
          TickResult(s, None)
        else
          var stamped := s.(lastUpdateTime := now);
          var skillData := BuildSkillData(s, skillToUpdate, client, tracker, xpForLevel);
          if !urlParses(UpdateUrl(cfg)) then
            TickResult(stamped, None)
          else
            TickResult(stamped.(pendingUpdate := false), Some(skillData))
  }

  /** After a send, the last skill is kept, so a later tick with no new stat event sends the
      same skill again as soon as the throttle allows, with fresh readings. */
  lemma IdleTickResends(
    s: State, cfg: Config, t1: Int64, t2: Int64, xpForLevel: int -> Int32, urlParses: string -> bool,
    c1: Client, k1: XpTracker, c2: Client, k2: XpTracker)
    requires ValidXpTable(xpForLevel)
    requires OnGameTick(s, cfg, t1, c1, k1, xpForLevel, urlParses).sent.Some?
    requires s.lastSkill.Some?
    requires 0 <= t1 && t1 + UPDATE_DELAY_MS <= t2
    ensures OnGameTick(OnGameTick(s, cfg, t1, c1, k1, xpForLevel, urlParses).next, cfg, t2, c2, k2, xpForLevel, urlParses).sent.Some?
    ensures OnGameTick(OnGameTick(s, cfg, t1, c1, k1, xpForLevel, urlParses).next, cfg, t2, c2, k2, xpForLevel, urlParses).sent.value.skill
      == s.lastSkill.value
  {
  }

  /** Reaching the login screen with an update pending does not cancel it: an allowed tick
      immediately after it still sends the pending skill, now with no baseline and so with
      0 XP gained. `Trace.ResetKeepsPendingUpdate` allows the events of logging in between. */
  lemma LoginScreenKeepsPendingUpdate(
    s: State, cfg: Config, now: Int64, client: Client, tracker: XpTracker,
    xpForLevel: int -> Int32, urlParses: string -> bool)
    requires ValidXpTable(xpForLevel)
    requires s.pendingUpdate && s.pendingSkill.Some?
    requires cfg.esp32IpAddress != "" && DueForUpdate(s, now) && urlParses(UpdateUrl(cfg))
    ensures OnGameTick(OnGameStateChanged(s, LoginScreen), cfg, now, client, tracker, xpForLevel, urlParses).sent.Some?
    ensures OnGameTick(OnGameStateChanged(s, LoginScreen), cfg, now, client, tracker, xpForLevel, urlParses).sent.value.skill
      == s.pendingSkill.value
    ensures OnGameTick(OnGameStateChanged(s, LoginScreen), cfg, now, client, tracker, xpForLevel, urlParses).sent.value.xpGained == 0
  {
  }

  /** With an address OkHttp cannot turn into a URL, a tick sends nothing and does not clear
      a pending update; one that passes the throttle only restarts it. */
  lemma MalformedAddressNeverSends(
    s: State, cfg: Config, now: Int64, client: Client, tracker: XpTracker,
    xpForLevel: int -> Int32, urlParses: string -> bool)
    requires ValidXpTable(xpForLevel)
    requires !urlParses(UpdateUrl(cfg))
    ensures OnGameTick(s, cfg, now, client, tracker, xpForLevel, urlParses).sent.None?
    ensures OnGameTick(s, cfg, now, client, tracker, xpForLevel, urlParses).next.pendingUpdate == s.pendingUpdate
    ensures TickAttempts(s, cfg, now) ==>
      OnGameTick(s, cfg, now, client, tracker, xpForLevel, urlParses).next == s.(lastUpdateTime := now)
  {
  }

  /** Shutting down keeps the baselines: a skill seen before the shutdown keeps its original
      baseline when it is trained again afterwards. */
  lemma ShutDownKeepsBaselines(s: State, cfg: Config, skill: Skill, clientXp: Int32)
    requires skill in s.skillStartXp
    ensures skill in OnStatChanged(ShutDown(s), cfg, skill, clientXp).skillStartXp
    ensures OnStatChanged(ShutDown(s), cfg, skill, clientXp).skillStartXp[skill] == s.skillStartXp[skill]
  {
  }
}
