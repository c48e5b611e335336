/**
 * `usePlansInnerCollectionMutation`: the mutation queue of one collection
 * nested in a plan. One action is sent at a time (`current`); the others wait
 * in the FIFO `pending` queue, where a later update or delete of the same id
 * can be folded into an earlier queued action.
 */
module InnerCollectionMutation {
  import opened Wrappers
  import opened Lists
  import CollectionMutation

  type Patch<E> = CollectionMutation.Patch<E>
  type ActionState = CollectionMutation.BatchState
  type Requested = CollectionMutation.Requested

  /** A queued mutation. */
  datatype Action<T, E> = Create(id: string, value: T) | Update(id: string, value: T, patches: seq<Patch<E>>) | Delete(id: string)

  /** The action being sent, with the state of its request. */
  datatype Current<T, E> = Current(action: Action<T, E>, state: ActionState)

  /** `MutationReducerState` without its log-only `meta`. */
  datatype State<T, E> = State(pending: seq<Action<T, E>>, current: Option<Current<T, E>>)

  /** Nothing waits while nothing is being sent. */
  ghost predicate WellFormed<T, E>(s: State<T, E>) {
    s.current.None? ==> s.pending == []
  }

  /** Every action still to be sent, in sending order: the current one, then the queue. */
  function Queue<T, E>(s: State<T, E>): seq<Action<T, E>> {
    (if s.current.Some? then [s.current.value.action] else []) + s.pending
  }

  function HasId<T, E>(id: string): Action<T, E> -> bool {
    (a: Action<T, E>) => a.id == id
  }

  /** `findExistingUpdateIndex`: the first queued action for `id`, looking only at `pending`. */
  function QueuedIndex<T, E>(s: State<T, E>, id: string): (i: int)
    ensures -1 <= i < |s.pending|
    ensures i >= 0 ==> s.pending[i].id == id && forall j :: 0 <= j < i ==> s.pending[j].id != id
    ensures i < 0 ==> forall j :: 0 <= j < |s.pending| ==> s.pending[j].id != id
  {
    FindIndex(s.pending, HasId(id))
  }

  /** `addOrSetCurrent`: the action is sent at once when the queue is idle, else it waits last. */
  function AddOrSetCurrent<T, E>(s: State<T, E>, a: Action<T, E>): (s': State<T, E>)
    ensures WellFormed(s) ==> WellFormed(s') && Queue(s') == Queue(s) + [a]
    ensures s.current.None? ==> s'.current == Some(Current(a, CollectionMutation.Pending))
    ensures s.current.Some? ==> s'.current == s.current
  {
    if s.current.None? then State(s.pending, Some(Current(a, CollectionMutation.Pending)))
    else State(s.pending + [a], s.current)
  }

  function CreateStep<T, E>(s: State<T, E>, id: string, value: T): (s': State<T, E>)
    requires WellFormed(s)
    ensures WellFormed(s') && Queue(s') == Queue(s) + [Create(id, value)]
  {
    AddOrSetCurrent(s, Create(id, value))
  }

  /**
   * The `'update'` case. The first queued action for the id decides: a
   * queued create or delete swallows the update, a queued update takes its
   * patches after its own (its value is kept); with no queued action for the
   * id the update is queued, even when the action being sent has that id.
   */
  function UpdateStep<T, E>(s: State<T, E>, id: string, value: T, patches: seq<Patch<E>>): (s': State<T, E>)
    requires WellFormed(s)
    ensures WellFormed(s')
    ensures var i := QueuedIndex(s, id);
            if i < 0 then Queue(s') == Queue(s) + [Update(id, value, patches)]
            else if !s.pending[i].Update? then s' == s
            else s'.current == s.current && |s'.pending| == |s.pending| && s'.pending[i] == s.pending[i].(patches := s.pending[i].patches + patches) &&
                 forall j :: 0 <= j < |s.pending| && j != i ==> s'.pending[j] == s.pending[j]
  {
    var i := QueuedIndex(s, id);
    if i < 0 then AddOrSetCurrent(s, Update(id, value, patches))
    else
      var queued := s.pending[i];
      if !queued.Update? then s
      else s.(pending := s.pending[i := queued.(patches := queued.patches + patches)])
  }

  /**
   * The `'delete'` case. A queued create or delete of the id swallows it; a
   * queued update of the id is taken out of the queue; the delete then
   * waits last (or is sent at once).
   */
  function DeleteStep<T, E>(s: State<T, E>, id: string): (s': State<T, E>)
    requires WellFormed(s)
    ensures WellFormed(s')
    ensures var i := QueuedIndex(s, id);
            if i < 0 then Queue(s') == Queue(s) + [Delete(id)]
            else if !s.pending[i].Update? then s' == s
            else s'.current == s.current && s'.pending == RemoveAt(s.pending, i) + [Delete(id)]
  {
    var i := QueuedIndex(s, id);
    if i < 0 then AddOrSetCurrent(s, Delete(id))
    else if !s.pending[i].Update? then s
    else AddOrSetCurrent(s.(pending := RemoveAt(s.pending, i)), Delete(id))
  }

  /**
   * `'markCurrent'`. `done` sends the head of the queue next, in state
   * `pending`; the other requests only move the current action along
   * `error → pending`, `scheduled → error` and `pending → scheduled`.
   */
  function MarkStep<T, E>(s: State<T, E>, requested: Requested): (s': State<T, E>)
    requires WellFormed(s)
    ensures WellFormed(s')
    ensures requested == CollectionMutation.Done ==>
              Queue(s') == (if Queue(s) == [] then [] else Queue(s)[1..]) &&
              (s'.current.Some? ==> s'.current.value.state == CollectionMutation.Pending)
    ensures requested != CollectionMutation.Done ==>
              Queue(s') == Queue(s) && s'.pending == s.pending && (s'.current.None? <==> s.current.None?)
    ensures requested != CollectionMutation.Done && s.current.Some? && s' != s ==>
              var (from, to) := (s.current.value.state, s'.current.value.state);
              (from == CollectionMutation.Errored && to == CollectionMutation.Pending && requested == CollectionMutation.ToPending) ||
              (from == CollectionMutation.Scheduled && to == CollectionMutation.Errored && requested == CollectionMutation.ToErrored) ||
              (from == CollectionMutation.Pending && to == CollectionMutation.Scheduled && requested == CollectionMutation.ToScheduled)
  {
    match requested
    case Done =>
      if s.pending == [] then State([], None) else State(s.pending[1..], Some(Current(s.pending[0], CollectionMutation.Pending)))
    case ToPending => Move(s, CollectionMutation.Errored, CollectionMutation.Pending)
    case ToErrored => Move(s, CollectionMutation.Scheduled, CollectionMutation.Errored)
    case ToScheduled => Move(s, CollectionMutation.Pending, CollectionMutation.Scheduled)
  }

  /** The current action moved from `from` to `to`, when it is in `from`. */
  function Move<T, E>(s: State<T, E>, from: ActionState, to: ActionState): (s': State<T, E>)
    ensures s'.pending == s.pending && (s'.current.None? <==> s.current.None?)
    ensures s.current.Some? ==> s'.current.value.action == s.current.value.action
    ensures s' != s ==> s.current.Some? && s.current.value.state == from && s'.current.value.state == to
  {
    if s.current.Some? && s.current.value.state == from then s.(current := Some(s.current.value.(state := to))) else s
  }

  /** `done` marked `k` times in a row. */
  function DoneTimes<T, E>(s: State<T, E>, k: nat): (s': State<T, E>)
    requires WellFormed(s)
    ensures WellFormed(s')
    decreases k
  {
    if k == 0 then s else DoneTimes(MarkStep(s, CollectionMutation.Done), k - 1)
  }

  /** First in, first out: after `k` completed requests the `k`-th queued action is being sent. */
  lemma {:induction false} SentInOrder<T, E>(s: State<T, E>, k: nat)
    requires WellFormed(s)
    ensures k < |Queue(s)| ==> DoneTimes(s, k).current.Some? && DoneTimes(s, k).current.value.action == Queue(s)[k]
    ensures k >= |Queue(s)| ==> DoneTimes(s, k) == State([], None)
    decreases k
  {
    if k > 0 {
      var s1 := MarkStep(s, CollectionMutation.Done);
      SentInOrder(s1, k - 1);
      if |Queue(s)| > 0 {
        assert Queue(s1) == Queue(s)[1..];
      }
    } else if |Queue(s)| == 0 {
      assert s.current.None? && s.pending == [];
    }
  }

  /** The reducer state the hook keeps with `useImmerReducer`. */
  class InnerReducer<T, E> {
    var pending: seq<Action<T, E>>
    var current: Option<Current<T, E>>

    function Snapshot(): State<T, E>
      reads this
    {
      State(pending, current)
    }

    ghost predicate Valid()
      reads this
    {
      WellFormed(Snapshot())
    }

    constructor()
      ensures Valid() && pending == [] && current.None?
    {
      pending, current := [], None;
    }

    method AddOrSetCurrentAction(a: Action<T, E>)
      modifies this
      ensures Snapshot() == AddOrSetCurrent(old(Snapshot()), a)
    {
      if current.None? {
        current := Some(Current(a, CollectionMutation.Pending));
      } else {
        pending := pending + [a];
      }
    }

    method Create(id: string, value: T)
      requires Valid()
      modifies this
      ensures Valid() && Snapshot() == CreateStep(old(Snapshot()), id, value)
    {
      AddOrSetCurrentAction(Action.Create(id, value));
    }

    method Update(id: string, value: T, patches: seq<Patch<E>>)
      requires Valid()
      modifies this
      ensures Valid() && Snapshot() == UpdateStep(old(Snapshot()), id, value, patches)
    {
      var i := FindIndex(pending, HasId(id));
      if i >= 0 {
        var update := pending[i];
        if update.Delete? || update.Create? {
          return;
        }
        pending := pending[i := update.(patches := update.patches + patches)];
      } else {
        AddOrSetCurrentAction(Action.Update(id, value, patches));
      }
    }

    method Delete(id: string)
      requires Valid()
      modifies this
      ensures Valid() && Snapshot() == DeleteStep(old(Snapshot()), id)
    {
      var i := FindIndex(pending, HasId(id));
      if i >= 0 {
        var update := pending[i];
        if update.Delete? || update.Create? {
          return;
        }
        pending := pending[..i] + pending[i + 1..];
      }
      AddOrSetCurrentAction(Action.Delete(id));
    }

    method MarkCurrent(requested: Requested)
      requires Valid()
      modifies this
      ensures Valid() && Snapshot() == MarkStep(old(Snapshot()), requested)
    {
      match requested
      case Done =>
        if pending == [] {
          current := None;
        } else {
          var next := pending[0];
          pending := pending[1..];
          current := Some(Current(next, CollectionMutation.Pending));
        }
      case ToPending =>
        if current.Some? && current.value.state == CollectionMutation.Errored {
          current := Some(current.value.(state := CollectionMutation.Pending));
        }
      case ToErrored =>
        if current.Some? && current.value.state == CollectionMutation.Scheduled {
          current := Some(current.value.(state := CollectionMutation.Errored));
        }
      case ToScheduled =>
        if current.Some? && current.value.state == CollectionMutation.Pending {
          current := Some(current.value.(state := CollectionMutation.Scheduled));
        }
    }
  }

  // The optimistic view of the records

  /** The records the hook returns: its `shadowRecords` memo ends in a bare `return`, so the input is shown. */
  function Records<T, E>(s: State<T, E>, records: Option<seq<T>>): (r: seq<T>)
    ensures records.Some? ==> r == records.value
    ensures records.None? ==> r == []
  {
    var shadow: Option<seq<T>> := None;
    shadow.GetOr(records.GetOr([]))
  }

  /** Every action of `pendingUpdates = [...updates.pending, updates.current]` that is not null. */
  function Involved<T, E>(s: State<T, E>): seq<Action<T, E>> {
    s.pending + (if s.current.Some? then [s.current.value.action] else [])
  }

  function Creates<T, E>(acts: seq<Action<T, E>>): (r: seq<Action<T, E>>)
    ensures |r| <= |acts| && forall i :: 0 <= i < |r| ==> r[i].Create? && r[i] in acts
  {
    Filter(acts, (a: Action<T, E>) => a.Create?)
  }

  /** `updatedRecords`: each update's value with its patches and the optimistic mark; a later update of an id wins. */
  function UpdatedRecords<T, E>(acts: seq<Action<T, E>>, apply: (T, seq<Patch<E>>) -> T): (m: map<string, T>)
    ensures forall id :: id in m <==> exists i :: 0 <= i < |acts| && acts[i].Update? && acts[i].id == id
  {
    if acts == [] then map[]
    else
      var m := UpdatedRecords(acts[..|acts| - 1], apply);
      var a := acts[|acts| - 1];
      assert forall i :: 0 <= i < |acts| - 1 ==> acts[..|acts| - 1][i] == acts[i];
      if a.Update? then m[a.id := apply(a.value, a.patches + [CollectionMutation.MarkOptimistic])] else m
  }

  /** `toDelete`: the ids of the queued deletes. */
  function DeletedIds<T, E>(acts: seq<Action<T, E>>): (r: set<string>)
    ensures forall id :: id in r <==> exists i :: 0 <= i < |acts| && acts[i].Delete? && acts[i].id == id
  {
    set i | 0 <= i < |acts| && acts[i].Delete? :: acts[i].id
  }

  /** `newRecords`: a create with the current action's id is also marked blocked. */
  function NewRecords<T, E>(s: State<T, E>, apply: (T, seq<Patch<E>>) -> T): (r: seq<T>)
    ensures var cs := Creates(Involved(s));
            |r| == |cs| &&
            forall i :: 0 <= i < |cs| ==>
              r[i] == apply(cs[i].value,
                            if s.current.Some? && s.current.value.action.id == cs[i].id
                            then [CollectionMutation.MarkOptimistic, CollectionMutation.BlockOptimistic]
                            else [CollectionMutation.MarkOptimistic])
  {
    var cs := Creates(Involved(s));
    seq(|cs|, i requires 0 <= i < |cs| =>
      apply(cs[i].value,
            if s.current.Some? && s.current.value.action.id == cs[i].id
            then [CollectionMutation.MarkOptimistic, CollectionMutation.BlockOptimistic]
            else [CollectionMutation.MarkOptimistic]))
  }

  /**
   * The list the memo computes before its bare `return` drops it, as the
   * evidently intended result: null with nothing queued, otherwise the
   * undeleted records with their updates, then the created ones.
   */
  function IntendedShadowRecords<T, E>(s: State<T, E>, records: Option<seq<T>>, idOf: T -> string,
                                       apply: (T, seq<Patch<E>>) -> T): (r: Option<seq<T>>)
    ensures r.None? <==> s.pending == [] && s.current.None?
  {
    if s.pending == [] && s.current.None? then None
    else
      var acts := Involved(s);
      Some(CollectionMutation.Kept(records.GetOr([]), idOf, DeletedIds(acts), UpdatedRecords(acts, apply)) +
           NewRecords(s, apply))
  }

  /**
   * The intended list drops every record a queued action deletes, shows the
   * others in order with their queued updates, and ends with one record per
   * queued create.
   */
  lemma IntendedShadowShape<T, E>(s: State<T, E>, records: seq<T>, idOf: T -> string, apply: (T, seq<Patch<E>>) -> T)
    requires s.pending != [] || s.current.Some?
    ensures var r := IntendedShadowRecords(s, Some(records), idOf, apply).value;
            var del := DeletedIds(Involved(s));
            var f := Filter(records, CollectionMutation.NotDeleted(idOf, del));
            var n := NewRecords(s, apply);
            |r| == |f| + |n| &&
            (forall i :: 0 <= i < |f| ==> r[i] == CollectionMutation.Substitute(f[i], idOf, UpdatedRecords(Involved(s), apply))) &&
            (forall i :: 0 <= i < |f| ==> idOf(f[i]) !in del) &&
            r[|f|..] == n
  {
    var acts := Involved(s);
    var del, upd := DeletedIds(acts), UpdatedRecords(acts, apply);
    var k := CollectionMutation.Kept(records, idOf, del, upd);
    CollectionMutation.KeptSubstitutesSurvivors(records, idOf, del, upd);
    var r := IntendedShadowRecords(s, Some(records), idOf, apply).value;
    assert r == k + NewRecords(s, apply);
    assert r[|k|..] == NewRecords(s, apply);
  }

  /**
   * The dropped result shows: while a create is being sent, the hook returns
   * the records without the created one, where the intended list ends with it.
   */
  lemma CreateNotShown<T, E>(v: T, idOf: T -> string, apply: (T, seq<Patch<E>>) -> T)
    ensures var s := State([], Some(Current(Create("a", v), CollectionMutation.Scheduled)));
            Records(s, Some([])) == [] &&
            IntendedShadowRecords(s, Some([]), idOf, apply) ==
              Some([apply(v, [CollectionMutation.MarkOptimistic, CollectionMutation.BlockOptimistic])])
  {
    var s: State<T, E> := State([], Some(Current(Create("a", v), CollectionMutation.Scheduled)));
    var acts := Involved(s);
    assert acts == [Create("a", v)];
    assert Creates(acts) == [Create("a", v)] by {
      assert Filter(acts[1..], (a: Action<T, E>) => a.Create?) == [];
    }
    var n := NewRecords(s, apply);
    assert |n| == 1 && n[0] == apply(v, [CollectionMutation.MarkOptimistic, CollectionMutation.BlockOptimistic]);
    assert CollectionMutation.Kept([], idOf, DeletedIds(acts), UpdatedRecords(acts, apply)) == [];
    assert IntendedShadowRecords(s, Some([]), idOf, apply) == Some([] + n);
    assert [] + n == [apply(v, [CollectionMutation.MarkOptimistic, CollectionMutation.BlockOptimistic])];
  }
}
