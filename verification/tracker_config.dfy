/** The plugin configuration as it is read by the handlers: the device address and one
    ignore flag per skill, with every flag off unless the user has set it. */
module TrackerConfig {
  import opened RuneLite

  /** `ignore` holds the flags the user has set; a skill with no entry has its flag off. */
  datatype Config = Config(esp32IpAddress: string, ignore: map<Skill, bool>)

  /** The settings before the user changes anything: no address and no skill ignored. */
  const DefaultConfig: Config := Config("", map[])

  /** The skills that have an ignore flag of their own: the cases of the ignore switch. */
  const FlaggedSkills: set<Skill> := {
    Attack, Strength, Defence, Ranged, Prayer, Magic, Runecraft, Construction,
    Hitpoints, Agility, Herblore, Thieving, Crafting, Fletching, Slayer, Hunter,
    Mining, Smithing, Fishing, Cooking, Firemaking, Woodcutting, Farming, Sailing
  }

  /** The address both variants POST a record to: `http://` + device address + `/update`. */
  function UpdateUrl(cfg: Config): (url: string)
    ensures |url| == |cfg.esp32IpAddress| + 14
    ensures url[..7] == "http://" && url[|url| - 7..] == "/update"
    ensures url[7..|url| - 7] == cfg.esp32IpAddress
  {
    "http://" + cfg.esp32IpAddress + "/update"
  }

  function IgnoreFlag(cfg: Config, skill: Skill): bool {
    skill in cfg.ignore && cfg.ignore[skill]
  }

  /** `isSkillIgnored`: a skill with a flag of its own is ignored exactly when that flag is
      set; any other skill falls to the switch's default and is never ignored. */
  function IsSkillIgnored(cfg: Config, skill: Skill): (ignored: bool)
    ensures skill !in FlaggedSkills ==> !ignored
    ensures skill in FlaggedSkills ==> (ignored <==> IgnoreFlag(cfg, skill))
  {
    match skill
    case Overall => false
    case _ => IgnoreFlag(cfg, skill)
  }

  /** OVERALL is the only skill the switch does not list. */
  lemma OnlyOverallUnflagged(skill: Skill)
    ensures skill !in FlaggedSkills <==> skill == Overall
  {
  }

  /** With the default settings no skill is ignored. */
  lemma DefaultConfigIgnoresNothing(skill: Skill)
    ensures !IsSkillIgnored(DefaultConfig, skill)
    ensures DefaultConfig.esp32IpAddress == ""
  {
  }
}
