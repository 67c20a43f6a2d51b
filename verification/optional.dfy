/** The nullable references of the plugins (`Skill lastSkill = null`) as an explicit option. */
module Optional {

  datatype Option<+T> = None | Some(value: T)
}
