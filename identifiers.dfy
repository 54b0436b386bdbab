/** Achievement identity (Sources/AchievementsSystem/AchievementID.swift). */
module Identifiers {

  /** A unique identifier of an achievement within the system: an immutable
      wrapper around its backing string. Equality is the synthesised
      equality over the single stored field. */
  datatype AchievementID = AchievementID(value: string)
  {
    /** The identifier string used for `Identifiable`. */
    function Id(): string { value }

    /** The textual description: the backing string itself. */
    function Description(): string { value }
  }

  /** Construction stores the string, both accessors return it, and two IDs
      are equal exactly when their strings are. */
  lemma IdentityIsItsString(a: AchievementID, b: AchievementID, v: string)
    ensures AchievementID(v).value == v
    ensures a.Id() == a.value && a.Description() == a.value
    ensures a == b <==> a.value == b.value
  {
  }
}
