/**
 * The older mutation queue of `api/plans/utils.ts`. Its reducer has the same
 * shape as the inner-collection queue, with different rules: a new current
 * action starts `scheduled`, a queued update takes the newer value, a delete
 * cancels a queued update outright, and `done` clears the current action
 * without taking the next one off the queue.
 */
module PlansMutationQueue {
  import opened Wrappers
  import opened Lists
  import CollectionMutation
  import I = InnerCollectionMutation

  /** `addOrSetCurrent`: sent at once in state `scheduled` when nothing is being sent, else queued last. */
  function AddOrSetCurrentScheduled<T, E>(s: I.State<T, E>, a: I.Action<T, E>): (s': I.State<T, E>)
    ensures s.current.None? ==> s'.current == Some(I.Current(a, CollectionMutation.Scheduled)) && s'.pending == s.pending
    ensures s.current.Some? ==> s'.current == s.current && s'.pending == s.pending + [a]
  {
    if s.current.None? then I.State(s.pending, Some(I.Current(a, CollectionMutation.Scheduled)))
    else I.State(s.pending + [a], s.current)
  }

  function CreateStep<T, E>(s: I.State<T, E>, id: string, value: T): (s': I.State<T, E>)
    ensures I.Queue(s') == if s.current.None? then [I.Create(id, value)] + s.pending else I.Queue(s) + [I.Create(id, value)]
  {
    AddOrSetCurrentScheduled(s, I.Create(id, value))
  }

  /**
   * The `'update'` case: a queued create or delete of the id swallows it, a
   * queued update of the id takes the new value and appends the patches, and
   * with nothing queued for the id the update is queued or sent.
   */
  function UpdateStep<T, E>(s: I.State<T, E>, id: string, value: T, patches: seq<I.Patch<E>>): (s': I.State<T, E>)
    ensures var i := I.QueuedIndex(s, id);
            if i < 0 then s' == AddOrSetCurrentScheduled(s, I.Update(id, value, patches))
            else if !s.pending[i].Update? then s' == s
            else s'.current == s.current && |s'.pending| == |s.pending| &&
                 s'.pending[i] == I.Update(id, value, s.pending[i].patches + patches) &&
                 forall j :: 0 <= j < |s.pending| && j != i ==> s'.pending[j] == s.pending[j]
  {
    var i := I.QueuedIndex(s, id);
    if i < 0 then AddOrSetCurrentScheduled(s, I.Update(id, value, patches))
    else
      var queued := s.pending[i];
      if !queued.Update? then s
      else s.(pending := s.pending[i := queued.(value := value, patches := queued.patches + patches)])
  }

  /**
   * The `'delete'` case: a queued create or delete of the id swallows it, a
   * queued update of the id is cancelled and the delete itself is dropped,
   * and with nothing queued for the id the delete is queued or sent.
   */
  function DeleteStep<T, E>(s: I.State<T, E>, id: string): (s': I.State<T, E>)
    ensures var i := I.QueuedIndex(s, id);
            if i < 0 then s' == AddOrSetCurrentScheduled(s, I.Delete(id))
            else if !s.pending[i].Update? then s' == s
            else s'.current == s.current && s'.pending == RemoveAt(s.pending, i) && |s'.pending| == |s.pending| - 1
  {
    var i := I.QueuedIndex(s, id);
    if i < 0 then AddOrSetCurrentScheduled(s, I.Delete(id))
    else if !s.pending[i].Update? then s
    else s.(pending := RemoveAt(s.pending, i))
  }

  /**
   * `'markCurrent'`: `done` clears the current action and leaves the queue
   * alone; `pending` and `error` set their state whatever it was, and
   * `scheduled` sets the state to `pending`.
   */
  function MarkStep<T, E>(s: I.State<T, E>, requested: I.Requested): (s': I.State<T, E>)
    ensures s'.pending == s.pending
    ensures requested == CollectionMutation.Done ==> s'.current.None?
    ensures s.current.Some? && requested != CollectionMutation.Done ==>
              s'.current.Some? && s'.current.value.action == s.current.value.action &&
              s'.current.value.state == if requested == CollectionMutation.ToErrored then CollectionMutation.Errored else CollectionMutation.Pending
    ensures s.current.None? ==> s' == s.(current := None)
  {
    match requested
    case Done => s.(current := None)
    case ToPending => SetState(s, CollectionMutation.Pending)
    case ToErrored => SetState(s, CollectionMutation.Errored)
    case ToScheduled => SetState(s, CollectionMutation.Pending)
  }

  function SetState<T, E>(s: I.State<T, E>, to: I.ActionState): (s': I.State<T, E>)
    ensures s'.pending == s.pending && (s'.current.None? <==> s.current.None?)
    ensures s.current.Some? ==> s'.current == Some(s.current.value.(state := to))
  {
    if s.current.Some? then s.(current := Some(s.current.value.(state := to))) else s
  }

  /**
   * Once the current request is done, the next action dispatched is sent
   * ahead of everything still queued, which stays queued behind it.
   */
  lemma NextActionJumpsQueue<T, E>(s: I.State<T, E>, id: string, value: T)
    requires s.current.Some? && s.pending != []
    ensures var s' := CreateStep(MarkStep(s, CollectionMutation.Done), id, value);
            s'.current == Some(I.Current(I.Create(id, value), CollectionMutation.Scheduled)) &&
            I.Queue(s') == [I.Create(id, value)] + s.pending
  {
  }

  /** The reducer state. */
  class PlansReducer<T, E> {
    var pending: seq<I.Action<T, E>>
    var current: Option<I.Current<T, E>>

    function Snapshot(): I.State<T, E>
      reads this
    {
      I.State(pending, current)
    }

    constructor()
      ensures pending == [] && current.None?
    {
      pending, current := [], None;
    }

    method AddOrSetCurrent(a: I.Action<T, E>)
      modifies this
      ensures Snapshot() == AddOrSetCurrentScheduled(old(Snapshot()), a)
    {
      if current.None? {
        current := Some(I.Current(a, CollectionMutation.Scheduled));
      } else {
        pending := pending + [a];
      }
    }

    method Create(id: string, value: T)
      modifies this
      ensures Snapshot() == CreateStep(old(Snapshot()), id, value)
    {
      AddOrSetCurrent(I.Create(id, value));
    }

    method Update(id: string, value: T, patches: seq<I.Patch<E>>)
      modifies this
      ensures Snapshot() == UpdateStep(old(Snapshot()), id, value, patches)
    {
      var i := FindIndex(pending, I.HasId(id));
      if i >= 0 {
        var update := pending[i];
        if update.Delete? || update.Create? {
          return;
        }
        pending := pending[i := update.(value := value, patches := update.patches + patches)];
      } else {
        AddOrSetCurrent(I.Update(id, value, patches));
      }
    }

    method Delete(id: string)
      modifies this
      ensures Snapshot() == DeleteStep(old(Snapshot()), id)
    {
      var i := FindIndex(pending, I.HasId(id));
      if i >= 0 {
        var update := pending[i];
        if update.Delete? || update.Create? {
          return;
        }
        pending := pending[..i] + pending[i + 1..];
      } else {
        AddOrSetCurrent(I.Delete(id));
      }
    }

    method MarkCurrent(requested: I.Requested)
      modifies this
      ensures Snapshot() == MarkStep(old(Snapshot()), requested)
    {
      match requested
      case Done =>
        current := None;
      case ToPending =>
        if current.Some? {
          current := Some(current.value.(state := CollectionMutation.Pending));
        }
      case ToErrored =>
        if current.Some? {
          current := Some(current.value.(state := CollectionMutation.Errored));
        }
      case ToScheduled =>
        if current.Some? {
          current := Some(current.value.(state := CollectionMutation.Pending));
        }
    }
  }
}
