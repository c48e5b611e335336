/**
 * Collection names of the record store (internals/models/collections.go) and
 * the plan collections the server advertises to the client.
 */
module Collections {
  const USERS := "users"
  const APP_SETTINGS := "_appSettings"
  const CHARACTER_ROLES := "characterRoles"
  const ELEMENTS := "elements"
  const WEAPON_TYPES := "weaponTypes"
  const SPECIALS := "specials"
  const CHARACTERS := "characters"
  const WEAPONS := "weapons"
  const ARTIFACT_SETS := "artifactSets"
  const DOMAINS_OF_BLESSING := "domainsOfBlessing"
  const ARTIFACT_TYPES := "artifactTypes"
  const CHARACTER_PLANS := "characterPlans"
  const WEAPON_PLANS := "weaponPlans"
  const ARTIFACT_SETS_PLANS := "artifactSetsPlans"
  const ARTIFACT_TYPE_PLANS := "artifactTypePlans"
  const TEAM_PLANS := "teamPlans"
  /** The collection of saved dictionary dumps; its name is the one the admin page queries. */
  const DB_DUMPS := "_dbDumps"

  /** The plan collections, in the order the server lists them. */
  const PLANS_COLLECTIONS: seq<string> :=
    [CHARACTER_PLANS, WEAPON_PLANS, ARTIFACT_SETS_PLANS, ARTIFACT_TYPE_PLANS, TEAM_PLANS]
}
