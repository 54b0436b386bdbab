/** The static description of an achievement
    (Sources/AchievementsSystem/AchievementDefinition.swift). */
module Definitions {
  import opened Identifiers
  import AchievementTypes

  /** An immutable record of five fields. `achievementType` is the source's
      `type` field (a reserved word here); title, description and points are
      metadata the engine never reads. Progress is stored under `id`. */
  datatype AchievementDefinition = AchievementDefinition(
    id: AchievementID,
    title: string,
    description: string,
    achievementType: AchievementTypes.AchievementType,
    points: int)

  /** The initialiser stores its five arguments unchanged, and equality of
      definitions is structural over the five fields. */
  lemma DefinitionIsItsFields(d: AchievementDefinition, e: AchievementDefinition,
                              id: AchievementID, title: string, description: string,
                              t: AchievementTypes.AchievementType, points: int)
    ensures var made := AchievementDefinition(id, title, description, t, points);
            made.id == id && made.title == title && made.description == description
            && made.achievementType == t && made.points == points
    ensures d == e <==> d.id == e.id && d.title == e.title && d.description == e.description
                        && d.achievementType == e.achievementType && d.points == e.points
  {
  }
}
