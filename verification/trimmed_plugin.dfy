/** The trimmed variant of the plugin (the `xptracker` package): the same handlers as the push
    variant without the progress bar, with `putIfAbsent`/`getOrDefault` in place of explicit
    map checks, and with a shutdown that also forgets the baselines. */
module TrimmedPlugin {
  import opened Optional
  import opened JavaInt
  import opened RuneLite
  import opened TrackerConfig
  import opened Session

  /** The record POSTed to the device for one skill. */
  datatype SkillData = SkillData(
    skill: Skill,
    xp: Int32,
    level: Level,
    boostedLevel: Int32,
    xpHr: Int32,
    actionsHr: Int32,
    xpGained: Int32,
    timeToLevel: string)

  /** The state after a tick and the record sent on that tick, if any. */
  datatype TickResult = TickResult(next: State, sent: Option<SkillData>)

  /** Java's `Map.putIfAbsent` on a map without null values. */
  function PutIfAbsent(m: map<Skill, Int32>, key: Skill, value: Int32): map<Skill, Int32> {
    if key in m then m else m[key := value]
  }

  /** Java's `Map.getOrDefault`. */
  function GetOrDefault(m: map<Skill, Int32>, key: Skill, default: Int32): Int32 {
    if key in m then m[key] else default
  }

  /** `shutDown` forgets the last skill and every baseline; the pending update, its skill and
      the last send time stay. */
  function ShutDown(s: State): (r: State)
    ensures r.lastSkill.None? && r.skillStartXp == map[]
    ensures r.pendingUpdate == s.pendingUpdate && r.pendingSkill == s.pendingSkill
    ensures r.lastUpdateTime == s.lastUpdateTime
  {
    s.(lastSkill := None, skillStartXp := map[])
  }

  /** `onGameStateChanged`: reaching the login screen has the same effect as a shutdown; any
      other game state changes nothing. */
  function OnGameStateChanged(s: State, gameState: GameState): (r: State)
    ensures gameState == LoginScreen ==> r.lastSkill.None? && r.skillStartXp == map[]
    ensures gameState != LoginScreen ==> r == s
    ensures r.pendingUpdate == s.pendingUpdate && r.pendingSkill == s.pendingSkill
    ensures r.lastUpdateTime == s.lastUpdateTime
  {
    if gameState == LoginScreen then ShutDown(s) else s
  }

  /** `onStatChanged`, with `clientXp` the client's XP for the skill when the event arrives.
      OVERALL and ignored skills change nothing. Any other event makes the skill the last and
      the pending one, and records `clientXp` as its baseline only if it has none yet. */
  function OnStatChanged(s: State, cfg: Config, skill: Skill, clientXp: Int32): (r: State)
    ensures skill == Overall || IsSkillIgnored(cfg, skill) ==> r == s
    ensures skill != Overall && !IsSkillIgnored(cfg, skill) ==>
      && r.lastSkill == Some(skill)
      && r.pendingSkill == Some(skill)
      && r.pendingUpdate
      && r.lastUpdateTime == s.lastUpdateTime
      && r.skillStartXp.Keys == s.skillStartXp.Keys + {skill}
      && r.skillStartXp[skill] == (if skill in s.skillStartXp then s.skillStartXp[skill] else clientXp)
    ensures forall k :: k in s.skillStartXp ==> k in r.skillStartXp && r.skillStartXp[k] == s.skillStartXp[k]
  {
    if skill == Overall || IsSkillIgnored(cfg, skill) then
      s
    else
      s.(skillStartXp := PutIfAbsent(s.skillStartXp, skill, clientXp),
         lastSkill := Some(skill), pendingUpdate := true, pendingSkill := Some(skill))
  }

  /** `buildSkillData`: the client's and tracker service's readings for the skill, copied
      unchanged, and the XP gained since the skill's baseline; without a baseline the current
      XP stands in for it, so the gain is exactly 0. */
  function BuildSkillData(s: State, skill: Skill, client: Client, tracker: XpTracker): (d: SkillData)
    ensures d.skill == skill
    ensures d.xp == client.experience(skill) && d.level == client.realLevel(skill)
    ensures d.boostedLevel == client.boostedLevel(skill)
    ensures d.xpHr == tracker.xpHr(skill) && d.actionsHr == tracker.actionsHr(skill)
    ensures d.timeToLevel == tracker.timeTilGoal(skill)
    ensures skill !in s.skillStartXp ==> d.xpGained == 0
    ensures skill in s.skillStartXp && 0 <= s.skillStartXp[skill] && 0 <= d.xp ==>
      d.xpGained == d.xp - s.skillStartXp[skill]
    ensures skill in s.skillStartXp ==> (d.xp - s.skillStartXp[skill] - d.xpGained) % TWO_32 == 0
  {
    var currentXp := client.experience(skill);
    var startXp := GetOrDefault(s.skillStartXp, skill, currentXp);
    SkillData(
      skill, currentXp, client.realLevel(skill), client.boostedLevel(skill),
      tracker.xpHr(skill), tracker.actionsHr(skill), Sub32(currentXp, startXp), tracker.timeTilGoal(skill))
  }

  /** `onGameTick` at clock reading `now`; `urlParses` says whether OkHttp accepts a URL.
      Nothing happens without a device address, without a skill to report, or while
      throttled; in particular a throttled tick keeps the pending update. Otherwise the send
      time becomes `now`. If the update URL parses, the selected skill's record is sent and
      the pending update is cleared. If it does not, building the request throws before
      anything is sent, and the pending update survives. The last and pending skills and the
      baselines always stay. */
  function OnGameTick(s: State, cfg: Config, now: Int64, client: Client, tracker: XpTracker, urlParses: string -> bool): (r: TickResult)
    ensures cfg.esp32IpAddress == "" ==> r == TickResult(s, None)
    ensures !TickAttempts(s, cfg, now) ==> r == TickResult(s, None)
    ensures TickAttempts(s, cfg, now) ==> r.next.lastUpdateTime == now
    ensures r.sent.Some? <==> TickAttempts(s, cfg, now) && urlParses(UpdateUrl(cfg))
    ensures TickAttempts(s, cfg, now) && !urlParses(UpdateUrl(cfg)) ==> r.next == s.(lastUpdateTime := now)
    ensures r.sent.Some? ==>
      && r.next == s.(lastUpdateTime := now, pendingUpdate := false)
      && r.sent.value.skill == (if s.pendingUpdate then s.pendingSkill.value else s.lastSkill.value)
      && r.sent.value == BuildSkillData(s, r.sent.value.skill, client, tracker)
    ensures TickAttempts(s, cfg, now) && 0 <= s.lastUpdateTime && 0 <= now ==> s.lastUpdateTime + UPDATE_DELAY_MS <= now
  {
    if cfg.esp32IpAddress == "" then
      TickResult(s, None)
    else
      var skill := SkillToUpdate(s);
      if skill.None? then
        TickResult(s, None)
      else if Sub64(now, s.lastUpdateTime) < UPDATE_DELAY_MS then
        TickResult(s, None)
      else if !urlParses(UpdateUrl(cfg)) then
        TickResult(s.(lastUpdateTime := now), None)
      else
        TickResult(s.(lastUpdateTime := now, pendingUpdate := false), Some(BuildSkillData(s, skill.value, client, tracker)))
  }

  /** Unlike the push variant, shutting down starts the baselines afresh: a tracked event
      immediately after it records the XP of that moment, whatever the baseline was before.
      `Trace.ResetThenStatRebaselines` allows any untracked events in between. */
  lemma ShutDownRebaselines(s: State, cfg: Config, skill: Skill, clientXp: Int32)
    requires skill != Overall && !IsSkillIgnored(cfg, skill)
    ensures OnStatChanged(ShutDown(s), cfg, skill, clientXp).skillStartXp == map[skill := clientXp]
  {
  }
}
