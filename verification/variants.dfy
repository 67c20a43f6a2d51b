/** How the two plugin variants relate: they react identically to stat events, game-state
    changes and ticks, and differ only in what a shutdown forgets and in the progress field. */
module Variants {
  import opened JavaInt
  import opened RuneLite
  import opened TrackerConfig
  import opened Session
  import PushPlugin
  import TrimmedPlugin

  /** The explicit `containsKey`/`put` of one variant and the `putIfAbsent` of the other
      record the same baselines. */
  lemma StatHandlersAgree(s: State, cfg: Config, skill: Skill, clientXp: Int32)
    ensures PushPlugin.OnStatChanged(s, cfg, skill, clientXp) == TrimmedPlugin.OnStatChanged(s, cfg, skill, clientXp)
  {
  }

  lemma GameStateHandlersAgree(s: State, gameState: GameState)
    ensures PushPlugin.OnGameStateChanged(s, gameState) == TrimmedPlugin.OnGameStateChanged(s, gameState)
  {
  }

  /** The trimmed shutdown does what the push shutdown does and also drops the baselines, so
      the two agree exactly when there are no baselines to drop. */
  lemma ShutDownsDiffer(s: State)
    ensures TrimmedPlugin.ShutDown(s) == PushPlugin.ShutDown(s).(skillStartXp := map[])
    ensures TrimmedPlugin.ShutDown(s) == PushPlugin.ShutDown(s) <==> s.skillStartXp == map[]
  {
  }

  /** On the same inputs both ticks leave the same state, send on the same ticks, and send
      records that agree on every field they share. In particular the null check of one
      variant and the `getOrDefault` of the other give the same XP gained. */
  lemma TicksAgree(
    s: State, cfg: Config, now: Int64, client: Client, tracker: XpTracker,
    xpForLevel: int -> Int32, urlParses: string -> bool)
    requires ValidXpTable(xpForLevel)
    ensures PushPlugin.OnGameTick(s, cfg, now, client, tracker, xpForLevel, urlParses).next
      == TrimmedPlugin.OnGameTick(s, cfg, now, client, tracker, urlParses).next
    ensures PushPlugin.OnGameTick(s, cfg, now, client, tracker, xpForLevel, urlParses).sent.Some?
      == TrimmedPlugin.OnGameTick(s, cfg, now, client, tracker, urlParses).sent.Some?
    ensures PushPlugin.OnGameTick(s, cfg, now, client, tracker, xpForLevel, urlParses).sent.Some? ==>
      SameFields(PushPlugin.OnGameTick(s, cfg, now, client, tracker, xpForLevel, urlParses).sent.value,
                 TrimmedPlugin.OnGameTick(s, cfg, now, client, tracker, urlParses).sent.value)
  {
  }

  /** The two records carry the same values in the fields both formats have. */
  predicate SameFields(p: PushPlugin.SkillData, t: TrimmedPlugin.SkillData) {
    && p.skill == t.skill && p.xp == t.xp && p.level == t.level
    && p.boostedLevel == t.boostedLevel && p.xpHr == t.xpHr && p.actionsHr == t.actionsHr
    && p.xpGained == t.xpGained && p.timeToLevel == t.timeToLevel
  }
}
