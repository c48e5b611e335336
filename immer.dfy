/**
 * The one rule of immer's `produce` the client's recipes run into: a recipe
 * may change its draft or return a replacement value, not both.
 */
module Immer {
  import opened Wrappers

  /** The message immer throws when a recipe both changes its draft and returns a value. */
  const RETURNED_AND_MODIFIED :=
    "[Immer] An immer producer returned a new value *and* modified its draft. Either return a new value *or* modify the draft."

  /** What `produce` gives back: the finished draft, the value the recipe returned, or the error it throws. */
  datatype Produced<T, V> = Draft(value: T) | Returned(returned: V) | Threw(message: string)

  /**
   * `produce(base, recipe)` for a recipe that leaves its draft as `drafted`,
   * `changed` telling whether any assignment changed it, and that returns
   * `returned` (`None` for `undefined`).
   */
  function Produce<T, V>(drafted: T, changed: bool, returned: Option<V>): (r: Produced<T, V>)
    ensures r.Threw? <==> changed && returned.Some?
    ensures r.Threw? ==> r.message == RETURNED_AND_MODIFIED
    ensures returned.None? ==> r == Draft(drafted)
    ensures r.Returned? ==> returned == Some(r.returned)
  {
    if returned.None? then Draft(drafted)
    else if changed then Threw(RETURNED_AND_MODIFIED)
    else Returned(returned.value)
  }
}
