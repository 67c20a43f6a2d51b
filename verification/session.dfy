/** The tracker state both plugin variants keep between events. The two source files declare
    the same five fields with the same initial values, so the state is defined once here. */
module Session {
  import opened Optional
  import opened JavaInt
  import opened RuneLite
  import opened TrackerConfig

  /** Minimum wall-clock distance between two sends, in milliseconds. */
  const UPDATE_DELAY_MS: int := 1000

  /** `lastSkill` is the skill of the most recent tracked stat event, `lastUpdateTime` the
      clock reading of the most recent send, `pendingUpdate`/`pendingSkill` a stat event not
      yet reported, and `skillStartXp` the per-skill XP baseline of the session. */
  datatype State = State(
    lastSkill: Option<Skill>,
    lastUpdateTime: Int64,
    pendingUpdate: bool,
    pendingSkill: Option<Skill>,
    skillStartXp: map<Skill, Int32>)

  /** The state of a freshly constructed plugin. */
  const Initial: State := State(None, 0, false, None, map[])

  /** The skill a tick reports: always one of the two remembered skills, the pending one
      while an update is pending, and the last one otherwise. */
  function SkillToUpdate(s: State): (selected: Option<Skill>)
    ensures selected == s.pendingSkill || selected == s.lastSkill
    ensures s.pendingUpdate ==> selected == s.pendingSkill
    ensures !s.pendingUpdate ==> selected == s.lastSkill
  {
    if s.pendingUpdate then s.pendingSkill else s.lastSkill
  }

  /** The throttle: a send is allowed once the `long` difference between the clock and the
      last send time has reached the delay. With non-negative clock readings, so that the
      difference does not wrap, that is exactly when `UPDATE_DELAY_MS` milliseconds have
      passed; a clock that went backwards never passes. */
  function DueForUpdate(s: State, now: Int64): (due: bool)
    ensures 0 <= s.lastUpdateTime && 0 <= now ==> (due <==> s.lastUpdateTime + UPDATE_DELAY_MS <= now)
  {
    Sub64(now, s.lastUpdateTime) >= UPDATE_DELAY_MS
  }

  /** Whether a tick gets as far as recording the send time: an address is set, there is a
      skill to report and the throttle lets it through. */
  predicate TickAttempts(s: State, cfg: Config, now: Int64) {
    cfg.esp32IpAddress != "" && SkillToUpdate(s).Some? && DueForUpdate(s, now)
  }

  /** What every reachable state satisfies: OVERALL is never tracked, a pending update always
      names its skill, and the last skill always has a baseline. */
  ghost predicate Valid(s: State) {
    && Overall !in s.skillStartXp
    && s.lastSkill != Some(Overall)
    && s.pendingSkill != Some(Overall)
    && (s.pendingUpdate ==> s.pendingSkill.Some?)
    && (s.lastSkill.Some? ==> s.lastSkill.value in s.skillStartXp)
  }

  lemma InitialValid()
    ensures Valid(Initial)
    ensures SkillToUpdate(Initial).None?
  {
  }

  /** In a reachable state a tick finds nothing to report exactly when no update is pending
      and there is no last skill, and it never reports OVERALL. */
  lemma ValidSelection(s: State)
    requires Valid(s)
    ensures SkillToUpdate(s).None? <==> !s.pendingUpdate && s.lastSkill.None?
    ensures SkillToUpdate(s) != Some(Overall)
  {
  }
}
