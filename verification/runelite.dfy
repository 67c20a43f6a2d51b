/** The host game client's side of the boundary: its skill and game-state enumerations, the
    values its getters report at the moment a handler runs, and the level-threshold table. */
module RuneLite {
  import opened JavaInt

  /** RuneLite's `Skill` enumeration: the 24 trainable skills and the synthetic OVERALL total. */
  datatype Skill =
    | Attack | Defence | Strength | Hitpoints | Ranged | Prayer | Magic | Cooking
    | Woodcutting | Fletching | Fishing | Firemaking | Crafting | Smithing | Mining | Herblore
    | Agility | Thieving | Slayer | Farming | Runecraft | Hunter | Construction | Sailing
    | Overall

  /** RuneLite's `GameState` enumeration. */
  datatype GameState =
    | Unknown | Starting | LoginScreen | LoginScreenAuthenticator | LoggingIn | Loading
    | LoggedIn | ConnectionLost | Hopping

  /** A real (unboosted) skill level as the client reports it; never below 1. */
  type Level = l: int | 1 <= l <= MAX_INT witness 1

  /** What `client.getSkillExperience`, `getRealSkillLevel` and `getBoostedSkillLevel` return
      for each skill at the moment of the call. */
  datatype Client = Client(
    experience: Skill -> Int32,
    realLevel: Skill -> Level,
    boostedLevel: Skill -> Int32)

  /** What the host's XP tracker service reports per skill: XP per hour, actions per hour and
      the time still needed to reach the goal, already formatted as text. */
  datatype XpTracker = XpTracker(
    xpHr: Skill -> Int32,
    actionsHr: Skill -> Int32,
    timeTilGoal: Skill -> string)

  /** The properties of `Experience.getXpForLevel` the plugins rely on: on the real levels
      the threshold is non-negative and strictly increasing. */
  ghost predicate ValidXpTable(xpForLevel: int -> Int32) {
    forall level :: 1 <= level < 99 ==> 0 <= xpForLevel(level) < xpForLevel(level + 1)
  }
}
