/** The client-side records the list, filter and store code works on, reduced to the fields it reads. */
module Entities {

  /**
   * A character of the dictionary. `element` is optional in the record; the
   * empty string stands for a missing element, and both are falsy.
   */
  datatype Character = Character(id: string, name: string, element: string, weaponType: string)

  /** The artifact main stat (`special`) a plan wants for one artifact type. */
  datatype ArtifactTypePlan = ArtifactTypePlan(artifactType: string, special: string)

  /**
   * A character plan (or build). A plan without artifact type plans has the
   * empty sequence; the code treats a missing list and an empty one alike.
   */
  datatype Plan = Plan(id: string, character: string, order: int, artifactTypePlans: seq<ArtifactTypePlan>)

  /**
   * A plan the client has asked to create and the server has not confirmed:
   * a temporary id, the character and the order it will get.
   */
  datatype PendingPlan = PendingPlan(id: string, characterId: string, order: int)

  /** One `update(id, {order})` of a reorder batch. */
  datatype OrderUpdate = OrderUpdate(id: string, order: int)

  /** The sort key of plans: their order. */
  function PlanOrder(p: Plan): int {
    p.order
  }
}
