/**
 * `useCollectionMutation`: the optimistic-mutation queue of one nested plan
 * collection. Creates, updates and deletes collect in three pending
 * collections; `prepareBatch` moves them into the in-flight batch, whose
 * state runs `pending → scheduled → error → pending` until it is `done`.
 * While the batch is in flight, `shadowRecords` shows the records as they
 * will be once every queued change has been applied.
 */
module CollectionMutation {
  import opened Wrappers
  import opened Lists
  import opened JsCollections
  import MapGetOrSetDefault

  /**
   * An immer patch: a user edit (opaque here), or one of the patches the
   * hook itself applies.
   */
  datatype Patch<E> = Edit(edit: E) | MarkOptimistic | BlockOptimistic | ErrorOptimistic | RemoveField(path: string)

  /** `CREATE_RECORD_PATCH`: a record is created without its id and timestamps. */
  function CreateRecordPatch<E>(): seq<Patch<E>> {
    [RemoveField("id"), RemoveField("created"), RemoveField("updated")]
  }

  datatype ToUpdate<T, E> = ToUpdate(value: T, patches: seq<Patch<E>>)

  datatype BatchState = Scheduled | Pending | Errored

  datatype Batch<T, E> = Batch(toCreate: OMap<string, T>, toUpdate: OMap<string, ToUpdate<T, E>>, toDelete: OSet<string>,
                               state: BatchState)

  /** `MutationReducerState` without its log-only `meta`. */
  datatype State<T, E> = State(toCreate: OMap<string, T>, toUpdate: OMap<string, ToUpdate<T, E>>, toDelete: OSet<string>,
                               currentBatch: Option<Batch<T, E>>)

  ghost predicate BatchValid<T, E>(b: Batch<T, E>) {
    b.toCreate.Valid() && b.toUpdate.Valid() && b.toDelete.Valid()
  }

  ghost predicate WellFormed<T, E>(s: State<T, E>) {
    s.toCreate.Valid() && s.toUpdate.Valid() && s.toDelete.Valid() &&
    (s.currentBatch.Some? ==> BatchValid(s.currentBatch.value))
  }

  function Initial<T, E>(): (s: State<T, E>)
    ensures WellFormed(s)
  {
    State(EmptyMap(), EmptyMap(), EmptySet(), None)
  }

  predicate InBatchCreate<T, E>(s: State<T, E>, id: string) {
    s.currentBatch.Some? && id in s.currentBatch.value.toCreate.entries
  }

  predicate InBatchDelete<T, E>(s: State<T, E>, id: string) {
    s.currentBatch.Some? && s.currentBatch.value.toDelete.Has(id)
  }

  /** The `'create'` case: the value is queued under its id, whatever was queued before. */
  function CreateStep<T, E>(s: State<T, E>, id: string, value: T): (s': State<T, E>)
    requires WellFormed(s)
    ensures WellFormed(s')
    ensures s'.toCreate.entries == s.toCreate.entries[id := value]
    ensures s'.toUpdate == s.toUpdate && s'.toDelete == s.toDelete && s'.currentBatch == s.currentBatch
  {
    s.(toCreate := s.toCreate.Set(id, value))
  }

  /**
   * The `'update'` case. It is dropped for an id the batch creates or either
   * side deletes; a queued create absorbs the patches; otherwise the patches
   * are appended to the id's queued update, created with `value` if absent.
   */
  function UpdateStep<T, E>(s: State<T, E>, id: string, value: T, patches: seq<Patch<E>>, apply: (T, seq<Patch<E>>) -> T)
    : (s': State<T, E>)
    requires WellFormed(s)
    ensures WellFormed(s')
    ensures s'.currentBatch == s.currentBatch && s'.toDelete == s.toDelete
    ensures InBatchCreate(s, id) || s.toDelete.Has(id) || InBatchDelete(s, id) ==> s' == s
    ensures !InBatchCreate(s, id) && !s.toDelete.Has(id) && !InBatchDelete(s, id) ==>
              if id in s.toCreate.entries then
                s'.toCreate.entries == s.toCreate.entries[id := apply(s.toCreate.entries[id], patches)] && s'.toUpdate == s.toUpdate
              else
                s'.toCreate == s.toCreate && id in s'.toUpdate.entries &&
                s'.toUpdate.entries == s.toUpdate.entries[id := s'.toUpdate.entries[id]] &&
                s'.toUpdate.entries[id] ==
                  if id in s.toUpdate.entries then ToUpdate(s.toUpdate.entries[id].value, s.toUpdate.entries[id].patches + patches)
                  else ToUpdate(value, patches)
  {
    if InBatchCreate(s, id) then s
    else if s.toDelete.Has(id) || InBatchDelete(s, id) then s
    else if id in s.toCreate.entries then
      s.(toCreate := s.toCreate.Set(id, apply(s.toCreate.entries[id], patches)))
    else
      var (m, entry) := MapGetOrSetDefault.GetOrSetDefault(s.toUpdate, id, ToUpdate(value, []));
      s.(toUpdate := m.Set(id, ToUpdate(entry.value, entry.patches + patches)))
  }

  /**
   * The `'delete'` case. It is dropped for an id the batch creates or
   * deletes; an unsent create is simply forgotten; otherwise the id's queued
   * update is dropped and the id is queued for deletion.
   */
  function DeleteStep<T, E>(s: State<T, E>, id: string): (s': State<T, E>)
    requires WellFormed(s)
    ensures WellFormed(s')
    ensures s'.currentBatch == s.currentBatch
    ensures InBatchCreate(s, id) || InBatchDelete(s, id) ==> s' == s
    ensures !InBatchCreate(s, id) && !InBatchDelete(s, id) && id in s.toCreate.entries ==>
              s'.toCreate.entries == s.toCreate.entries - {id} && s'.toUpdate == s.toUpdate && s'.toDelete == s.toDelete
    ensures !InBatchCreate(s, id) && !InBatchDelete(s, id) && id !in s.toCreate.entries ==>
              s'.toCreate == s.toCreate && s'.toUpdate.entries == s.toUpdate.entries - {id} &&
              (forall j :: s'.toDelete.Has(j) <==> s.toDelete.Has(j) || j == id)
  {
    if InBatchCreate(s, id) || InBatchDelete(s, id) then s
    else if id in s.toCreate.entries then s.(toCreate := s.toCreate.Delete(id))
    else
      var toUpdate := if id in s.toUpdate.entries then s.toUpdate.Delete(id) else s.toUpdate;
      s.(toUpdate := toUpdate, toDelete := s.toDelete.Add(id))
  }

  /** `'prepareBatch'`: with no batch in flight, the pending work becomes the batch, in state `pending`. */
  function PrepareBatchStep<T, E>(s: State<T, E>): (s': State<T, E>)
    requires WellFormed(s)
    ensures WellFormed(s')
    ensures s.currentBatch.Some? ==> s' == s
    ensures s.currentBatch.None? ==>
              s'.currentBatch == Some(Batch(s.toCreate, s.toUpdate, s.toDelete, Pending)) &&
              s'.toCreate.keys == [] && s'.toUpdate.keys == [] && s'.toDelete.items == []
  {
    if s.currentBatch.Some? then s
    else State(EmptyMap(), EmptyMap(), EmptySet(), Some(Batch(s.toCreate, s.toUpdate, s.toDelete, Pending)))
  }

  // Retrying a failed batch

  /**
   * The `for (const [id, update] of state.toUpdate)` loop: each pending
   * update's patches are appended to the batch's update for the same id,
   * which is created with the pending value if the batch has none.
   */
  function MergeUpdates<T, E>(bu: OMap<string, ToUpdate<T, E>>, ks: seq<string>, src: map<string, ToUpdate<T, E>>)
    : (r: OMap<string, ToUpdate<T, E>>)
    requires bu.Valid()
    requires forall i :: 0 <= i < |ks| ==> ks[i] in src
    ensures r.Valid()
    ensures forall id :: id in r.entries <==> id in bu.entries || id in ks
    decreases |ks|
  {
    if ks == [] then bu
    else MergeUpdates(MergeStep(bu, ks[0], src[ks[0]]), ks[1..], src)
  }

  /**
   * One iteration of that loop: `mapGetOrSetDefault` with the pending value
   * and no patches, then the pending patches pushed onto the entry.
   */
  function MergeStep<T, E>(bu: OMap<string, ToUpdate<T, E>>, id: string, u: ToUpdate<T, E>)
    : (r: OMap<string, ToUpdate<T, E>>)
    requires bu.Valid()
    ensures r.Valid()
    ensures forall k :: k in r.entries <==> k in bu.entries || k == id
    ensures r.entries[id] == if id in bu.entries then ToUpdate(bu.entries[id].value, bu.entries[id].patches + u.patches) else u
    ensures forall k :: k != id && k in bu.entries ==> r.entries[k] == bu.entries[k]
  {
    var (m, entry) := MapGetOrSetDefault.GetOrSetDefault(bu, id, ToUpdate(u.value, []));
    assert [] + u.patches == u.patches;
    m.Set(id, ToUpdate(entry.value, entry.patches + u.patches))
  }

  /** The update the merge leaves for `id`. */
  function Merged<T, E>(bu: map<string, ToUpdate<T, E>>, src: map<string, ToUpdate<T, E>>, ks: seq<string>, id: string)
    : ToUpdate<T, E>
    requires id in bu || (id in ks && id in src)
  {
    if id in ks && id in src then
      if id in bu then ToUpdate(bu[id].value, bu[id].patches + src[id].patches) else src[id]
    else bu[id]
  }

  /**
   * For an id both sides update, the batch's value is kept and the pending
   * patches follow the batch's; an id only one side updates keeps that
   * side's update.
   */
  lemma {:induction false} MergeUpdatesAt<T, E>(bu: OMap<string, ToUpdate<T, E>>, ks: seq<string>,
                                               src: map<string, ToUpdate<T, E>>, id: string)
    requires bu.Valid() && Distinct(ks)
    requires forall i :: 0 <= i < |ks| ==> ks[i] in src
    requires id in bu.entries || id in ks
    ensures MergeUpdates(bu, ks, src).entries[id] == Merged(bu.entries, src, ks, id)
    decreases |ks|
  {
    if ks != [] {
      assert ks[0] !in ks[1..];
      assert Distinct(ks[1..]);
      MergeUpdatesAt(MergeStep(bu, ks[0], src[ks[0]]), ks[1..], src, id);
      if id != ks[0] {
        assert id in ks ==> id in ks[1..];
      }
    }
  }

  /** The ids of `ks` taken out of a map, as the `for (const id of toDelete)` loop does. */
  function RemoveKeys<V>(m: OMap<string, V>, ks: seq<string>): (r: OMap<string, V>)
    requires m.Valid()
    ensures r.Valid()
    ensures forall id :: id in r.entries <==> id in m.entries && id !in ks
    ensures forall id :: id in r.entries ==> r.entries[id] == m.entries[id]
    decreases |ks|
  {
    if ks == [] then m
    else RemoveKeys(m.Delete(ks[0]), ks[1..])
  }

  /**
   * `setCurrentBatchState('pending')` on a failed batch: the pending work
   * joins the batch (the batch's value wins for an id both create, patches
   * are appended, deletions are united), every deleted id leaves the batch's
   * creates and updates, and the pending collections are emptied.
   */
  function RetryStep<T, E>(s: State<T, E>): (s': State<T, E>)
    requires WellFormed(s) && s.currentBatch.Some?
    ensures WellFormed(s') && s'.currentBatch.Some?
    ensures s'.toCreate.keys == [] && s'.toUpdate.keys == [] && s'.toDelete.items == []
    ensures var b, b' := s.currentBatch.value, s'.currentBatch.value;
            b'.state == Pending &&
            (forall id :: b'.toDelete.Has(id) <==> s.toDelete.Has(id) || b.toDelete.Has(id)) &&
            (forall id :: id in b'.toCreate.entries <==>
                          (id in s.toCreate.entries || id in b.toCreate.entries) && !b'.toDelete.Has(id)) &&
            (forall id :: id in b'.toCreate.entries ==>
                          b'.toCreate.entries[id] == if id in b.toCreate.entries then b.toCreate.entries[id] else s.toCreate.entries[id]) &&
            (forall id :: id in b'.toUpdate.entries <==>
                          (id in s.toUpdate.entries || id in b.toUpdate.entries) && !b'.toDelete.Has(id))
  {
    var b := s.currentBatch.value;
    var toCreate := Spread(s.toCreate, b.toCreate);
    var toUpdate := MergeUpdates(b.toUpdate, s.toUpdate.keys, s.toUpdate.entries);
    var toDelete := SetOf(s.toDelete.items + b.toDelete.items);
    var b' := Batch(RemoveKeys(toCreate, toDelete.items), RemoveKeys(toUpdate, toDelete.items), toDelete, Pending);
    State(EmptyMap(), EmptyMap(), EmptySet(), Some(b'))
  }

  /** Each update of a retried batch is the batch's own, the pending one, or the batch's followed by the pending patches. */
  lemma RetryMergesUpdate<T, E>(s: State<T, E>, id: string)
    requires WellFormed(s) && s.currentBatch.Some?
    requires id in RetryStep(s).currentBatch.value.toUpdate.entries
    ensures var b := s.currentBatch.value;
            RetryStep(s).currentBatch.value.toUpdate.entries[id] == Merged(b.toUpdate.entries, s.toUpdate.entries, s.toUpdate.keys, id)
  {
    var b := s.currentBatch.value;
    assert id in b.toUpdate.entries || id in s.toUpdate.keys;
    MergeUpdatesAt(b.toUpdate, s.toUpdate.keys, s.toUpdate.entries, id);
  }

  /** The state `setCurrentBatchState` is asked for. */
  datatype Requested = Done | ToPending | ToErrored | ToScheduled

  /**
   * `'setCurrentBatchState'`: `done` clears the batch; the other requests
   * move it only along `error → pending`, `scheduled → error` and
   * `pending → scheduled`, and are otherwise ignored.
   */
  function SetBatchStateStep<T, E>(s: State<T, E>, requested: Requested): (s': State<T, E>)
    requires WellFormed(s)
    ensures WellFormed(s')
    ensures requested == Done ==> s'.currentBatch.None?
    ensures s.currentBatch.Some? && s'.currentBatch.None? ==> requested == Done
    ensures s.currentBatch.None? ==> s'.currentBatch.None? && (requested != Done ==> s' == s)
    ensures s.currentBatch.Some? && s'.currentBatch.Some? ==>
              var (from, to) := (s.currentBatch.value.state, s'.currentBatch.value.state);
              (from == to && s' == s) ||
              (from == Errored && to == Pending && requested == ToPending) ||
              (from == Scheduled && to == Errored && requested == ToErrored) ||
              (from == Pending && to == Scheduled && requested == ToScheduled)
  {
    match requested
    case Done => s.(currentBatch := None)
    case ToPending =>
      if s.currentBatch.Some? && s.currentBatch.value.state == Errored then RetryStep(s) else s
    case ToErrored =>
      if s.currentBatch.Some? && s.currentBatch.value.state == Scheduled then
        s.(currentBatch := Some(s.currentBatch.value.(state := Errored)))
      else s
    case ToScheduled =>
      if s.currentBatch.Some? && s.currentBatch.value.state == Pending then
        s.(currentBatch := Some(s.currentBatch.value.(state := Scheduled)))
      else s
  }

  /** `isPending`: a batch is in flight and has not failed. */
  predicate IsPending<T, E>(s: State<T, E>) {
    s.currentBatch.Some? && s.currentBatch.value.state != Errored
  }

  /** `isError`: the batch in flight has failed. */
  predicate IsError<T, E>(s: State<T, E>) {
    s.currentBatch.Some? && s.currentBatch.value.state == Errored
  }

  /** `hasUpdates`. */
  predicate HasUpdates<T, E>(s: State<T, E>) {
    s.currentBatch.Some? || s.toUpdate.Size() > 0 || s.toCreate.Size() > 0 || s.toDelete.Size() > 0
  }

  // The optimistic view of the records

  /** `MARK_OPTIMISTIC_PATCH`, followed by `ERROR_OPTIMISTIC_PATCH` while the batch has failed. */
  function OptimisticPatches<T, E>(s: State<T, E>): (r: seq<Patch<E>>)
    ensures |r| >= 1 && r[0] == MarkOptimistic
    ensures ErrorOptimistic in r <==> IsError(s)
  {
    [MarkOptimistic] + (if IsError(s) then [ErrorOptimistic] else [])
  }

  /** Each value with the same patches applied. */
  function ApplyAll<T, E>(vs: seq<T>, ps: seq<Patch<E>>, apply: (T, seq<Patch<E>>) -> T): (r: seq<T>)
    ensures |r| == |vs| && forall i :: 0 <= i < |vs| ==> r[i] == apply(vs[i], ps)
  {
    seq(|vs|, i requires 0 <= i < |vs| => apply(vs[i], ps))
  }

  /** `newRecords`: the pending creates, then the batch's creates marked as blocked. */
  function NewRecords<T, E>(s: State<T, E>, apply: (T, seq<Patch<E>>) -> T): (r: seq<T>)
    requires WellFormed(s)
    ensures var opt, nc := OptimisticPatches(s), |s.toCreate.keys|;
            var nb := if s.currentBatch.Some? then |s.currentBatch.value.toCreate.keys| else 0;
            |r| == nc + nb &&
            (forall j :: 0 <= j < nc ==> r[j] == apply(s.toCreate.entries[s.toCreate.keys[j]], opt)) &&
            (forall j :: 0 <= j < nb ==>
               r[nc + j] == apply(s.currentBatch.value.toCreate.entries[s.currentBatch.value.toCreate.keys[j]],
                                  opt + [BlockOptimistic]))
  {
    var opt := OptimisticPatches(s);
    ApplyAll(s.toCreate.Values(), opt, apply) +
    (if s.currentBatch.Some? then ApplyAll(s.currentBatch.value.toCreate.Values(), opt + [BlockOptimistic], apply) else [])
  }

  /** The batch's updates, each applied with the optimistic patches after its own. */
  function BatchUpdated<T, E>(s: State<T, E>, apply: (T, seq<Patch<E>>) -> T): (r: map<string, T>)
    ensures s.currentBatch.None? ==> r == map[]
    ensures s.currentBatch.Some? ==> forall id :: id in r <==> id in s.currentBatch.value.toUpdate.entries
  {
    if s.currentBatch.None? then map[]
    else
      var bu := s.currentBatch.value.toUpdate.entries;
      map id | id in bu :: apply(bu[id].value, bu[id].patches + OptimisticPatches(s))
  }

  /**
   * The `for (const [id, u] of updates.toUpdate)` loop of `shadowRecords`:
   * a record the batch already updates gets the pending patches on top; any
   * other gets its own value with the pending patches and the optimistic mark.
   */
  function PendingUpdated<T, E>(m: map<string, T>, ks: seq<string>, src: map<string, ToUpdate<T, E>>,
                                apply: (T, seq<Patch<E>>) -> T): (r: map<string, T>)
    requires forall i :: 0 <= i < |ks| ==> ks[i] in src
    ensures forall id :: id in r <==> id in m || id in ks
    decreases |ks|
  {
    if ks == [] then m
    else PendingUpdated(PendingStep(m, ks[0], src[ks[0]], apply), ks[1..], src, apply)
  }

  /** One iteration of that loop. */
  function PendingStep<T, E>(m: map<string, T>, id: string, u: ToUpdate<T, E>, apply: (T, seq<Patch<E>>) -> T)
    : (r: map<string, T>)
    ensures r == m[id := if id in m then apply(m[id], u.patches) else apply(u.value, u.patches + [MarkOptimistic])]
  {
    m[id := if id in m then apply(m[id], u.patches) else apply(u.value, u.patches + [MarkOptimistic])]
  }

  lemma {:induction false} PendingUpdatedAt<T, E>(m: map<string, T>, ks: seq<string>, src: map<string, ToUpdate<T, E>>,
                                                 apply: (T, seq<Patch<E>>) -> T, id: string)
    requires Distinct(ks) && forall i :: 0 <= i < |ks| ==> ks[i] in src
    requires id in m || id in ks
    ensures PendingUpdated(m, ks, src, apply)[id] ==
              if id !in ks then m[id]
              else if id in m then apply(m[id], src[id].patches)
              else apply(src[id].value, src[id].patches + [MarkOptimistic])
    decreases |ks|
  {
    if ks != [] {
      assert ks[0] !in ks[1..];
      assert Distinct(ks[1..]);
      PendingUpdatedAt(PendingStep(m, ks[0], src[ks[0]], apply), ks[1..], src, apply, id);
      if id != ks[0] {
        assert id in ks ==> id in ks[1..];
      }
    }
  }

  /** `updatedRecords`. */
  function Updated<T, E>(s: State<T, E>, apply: (T, seq<Patch<E>>) -> T): map<string, T>
    requires WellFormed(s)
  {
    PendingUpdated(BatchUpdated(s, apply), s.toUpdate.keys, s.toUpdate.entries, apply)
  }

  /** The ids deleted on either side, `new Set([...updates.toDelete, ...currentBatch.toDelete])`. */
  function Deleted<T, E>(s: State<T, E>): (r: set<string>)
    ensures forall id :: id in r <==> s.toDelete.Has(id) || InBatchDelete(s, id)
  {
    var all := s.toDelete.items + if s.currentBatch.Some? then s.currentBatch.value.toDelete.items else [];
    set id | id in all
  }

  /** A record replaced by its updated version when there is one. */
  function Substitute<T>(p: T, idOf: T -> string, updated: map<string, T>): T {
    if idOf(p) in updated then updated[idOf(p)] else p
  }

  function NotDeleted<T>(idOf: T -> string, deleted: set<string>): T -> bool {
    (p: T) => idOf(p) !in deleted
  }

  /** The `for (const plan of records)` loop: deleted records dropped, updated ones substituted. */
  function Kept<T>(records: seq<T>, idOf: T -> string, deleted: set<string>, updated: map<string, T>): seq<T> {
    if records == [] then []
    else
      var rest := Kept(records[1..], idOf, deleted, updated);
      if idOf(records[0]) in deleted then rest else [Substitute(records[0], idOf, updated)] + rest
  }

  /** The kept records are exactly the undeleted ones, in order, each replaced by its update. */
  lemma {:induction false} KeptSubstitutesSurvivors<T>(records: seq<T>, idOf: T -> string, deleted: set<string>,
                                                      updated: map<string, T>)
    ensures var f := Filter(records, NotDeleted(idOf, deleted));
            var k := Kept(records, idOf, deleted, updated);
            |k| == |f| && forall i :: 0 <= i < |f| ==> k[i] == Substitute(f[i], idOf, updated) && idOf(f[i]) !in deleted
  {
    if records != [] {
      KeptSubstitutesSurvivors(records[1..], idOf, deleted, updated);
      var p := NotDeleted(idOf, deleted);
      var f1, k1 := Filter(records[1..], p), Kept(records[1..], idOf, deleted, updated);
      if idOf(records[0]) in deleted {
        assert Filter(records, p) == f1;
        assert Kept(records, idOf, deleted, updated) == k1;
      } else {
        var f, k := Filter(records, p), Kept(records, idOf, deleted, updated);
        assert f == [records[0]] + f1;
        assert k == [Substitute(records[0], idOf, updated)] + k1;
        KeptConsStep(f, k, f1, k1, idOf, deleted, updated);
      }
    }
  }

  /** A survivor in front of both lists keeps them matched. */
  lemma KeptConsStep<T>(f: seq<T>, k: seq<T>, f1: seq<T>, k1: seq<T>, idOf: T -> string, deleted: set<string>,
                        updated: map<string, T>)
    requires f != [] && f[1..] == f1 && k == [Substitute(f[0], idOf, updated)] + k1 && idOf(f[0]) !in deleted
    requires |k1| == |f1| && forall i :: 0 <= i < |f1| ==> k1[i] == Substitute(f1[i], idOf, updated) && idOf(f1[i]) !in deleted
    ensures |k| == |f| && forall i :: 0 <= i < |f| ==> k[i] == Substitute(f[i], idOf, updated) && idOf(f[i]) !in deleted
  {
    assert forall i :: 1 <= i < |f| ==> f[i] == f1[i - 1] && k[i] == k1[i - 1];
  }

  /** `res` before `postUpdate`: the kept records, then the new ones. */
  function Merge<T, E>(s: State<T, E>, records: Option<seq<T>>, idOf: T -> string, apply: (T, seq<Patch<E>>) -> T)
    : seq<T>
    requires WellFormed(s)
  {
    Kept(records.GetOr([]), idOf, Deleted(s), Updated(s, apply)) + NewRecords(s, apply)
  }

  /**
   * `shadowRecords`: null without queued or in-flight work; otherwise the
   * merged list, handed to `postUpdate` when one is configured.
   */
  function ShadowRecords<T, E>(s: State<T, E>, records: Option<seq<T>>, idOf: T -> string,
                               apply: (T, seq<Patch<E>>) -> T, postUpdate: Option<seq<T> -> seq<T>>)
    : (r: Option<seq<T>>)
    requires WellFormed(s)
    ensures r.None? <==> !HasUpdates(s)
    ensures r.Some? && postUpdate.None? ==> r.value == Merge(s, records, idOf, apply)
  {
    if !HasUpdates(s) then None
    else
      var res := Merge(s, records, idOf, apply);
      Some(if postUpdate.Some? then postUpdate.value(res) else res)
  }

  /** The `records` the hook returns: `shadowRecords ?? records ?? []`. */
  function Records<T, E>(s: State<T, E>, records: Option<seq<T>>, idOf: T -> string,
                         apply: (T, seq<Patch<E>>) -> T, postUpdate: Option<seq<T> -> seq<T>>)
    : (r: seq<T>)
    requires WellFormed(s)
    ensures !HasUpdates(s) ==> r == records.GetOr([])
  {
    ShadowRecords(s, records, idOf, apply, postUpdate).GetOr(records.GetOr([]))
  }

  /**
   * The merged list starts with the undeleted records in order, each replaced
   * by its update.
   */
  lemma MergeKeeps<T, E>(s: State<T, E>, records: seq<T>, idOf: T -> string, apply: (T, seq<Patch<E>>) -> T)
    requires WellFormed(s)
    ensures var r := Merge(s, Some(records), idOf, apply);
            var f := Filter(records, NotDeleted(idOf, Deleted(s)));
            |f| <= |r| &&
            (forall i :: 0 <= i < |f| ==> r[i] == Substitute(f[i], idOf, Updated(s, apply))) &&
            (forall i :: 0 <= i < |f| ==> !s.toDelete.Has(idOf(f[i])) && !InBatchDelete(s, idOf(f[i])))
  {
    var del, upd := Deleted(s), Updated(s, apply);
    var k := Kept(records, idOf, del, upd);
    var f := Filter(records, NotDeleted(idOf, del));
    var r := Merge(s, Some(records), idOf, apply);
    KeptSubstitutesSurvivors(records, idOf, del, upd);
    assert r == k + NewRecords(s, apply);
    assert forall i :: 0 <= i < |f| ==> r[i] == k[i];
  }

  /**
   * After the kept records come the pending creates, then the batch's
   * creates, blocked.
   */
  lemma MergeAppendsCreates<T, E>(s: State<T, E>, records: seq<T>, idOf: T -> string, apply: (T, seq<Patch<E>>) -> T)
    requires WellFormed(s)
    ensures var r := Merge(s, Some(records), idOf, apply);
            var f := Filter(records, NotDeleted(idOf, Deleted(s)));
            var opt := OptimisticPatches(s);
            var nc := |s.toCreate.keys|;
            var nb := if s.currentBatch.Some? then |s.currentBatch.value.toCreate.keys| else 0;
            |r| == |f| + nc + nb &&
            (forall j :: 0 <= j < nc ==> r[|f| + j] == apply(s.toCreate.entries[s.toCreate.keys[j]], opt)) &&
            (forall j :: 0 <= j < nb ==>
               r[|f| + nc + j] == apply(s.currentBatch.value.toCreate.entries[s.currentBatch.value.toCreate.keys[j]],
                                        opt + [BlockOptimistic]))
  {
    var del, upd := Deleted(s), Updated(s, apply);
    var k := Kept(records, idOf, del, upd);
    var n := NewRecords(s, apply);
    var f := Filter(records, NotDeleted(idOf, del));
    var r := Merge(s, Some(records), idOf, apply);
    KeptSubstitutesSurvivors(records, idOf, del, upd);
    assert r == k + n;
    assert forall j :: 0 <= j < |n| ==> r[|f| + j] == n[j];
  }

  /**
   * The version shown of an updated record: the batch's patches and the
   * optimistic marks, then the pending patches on top; an id only the pending
   * side updates is shown from its own value, marked optimistic.
   */
  lemma UpdatedAt<T, E>(s: State<T, E>, apply: (T, seq<Patch<E>>) -> T, id: string)
    requires WellFormed(s)
    requires id in s.toUpdate.entries || (s.currentBatch.Some? && id in s.currentBatch.value.toUpdate.entries)
    ensures var opt := OptimisticPatches(s);
            var inBatch := s.currentBatch.Some? && id in s.currentBatch.value.toUpdate.entries;
            id in Updated(s, apply) &&
            Updated(s, apply)[id] ==
              if !inBatch then
                apply(s.toUpdate.entries[id].value, s.toUpdate.entries[id].patches + [MarkOptimistic])
              else
                var b := s.currentBatch.value.toUpdate.entries[id];
                var shown := apply(b.value, b.patches + opt);
                if id in s.toUpdate.entries then apply(shown, s.toUpdate.entries[id].patches) else shown
  {
    PendingUpdatedAt(BatchUpdated(s, apply), s.toUpdate.keys, s.toUpdate.entries, apply, id);
  }

  /** The `for (const [id, u] of updates.toUpdate)` loop of the memo. */
  method ComputeUpdated<T, E>(s: State<T, E>, apply: (T, seq<Patch<E>>) -> T) returns (updatedRecords: map<string, T>)
    requires WellFormed(s)
    ensures updatedRecords == Updated(s, apply)
  {
    updatedRecords := BatchUpdated(s, apply);
    var ks, src := s.toUpdate.keys, s.toUpdate.entries;
    assert forall j :: 0 <= j < |ks| ==> ks[j] in src;
    ghost var target := PendingUpdated(updatedRecords, ks, src, apply);
    var i := 0;
    while i < |ks|
      invariant 0 <= i <= |ks|
      invariant PendingUpdated(updatedRecords, ks[i..], src, apply) == target
    {
      updatedRecords := PendingStep(updatedRecords, ks[i], src[ks[i]], apply);
      assert ks[i..][1..] == ks[i + 1..];
      i := i + 1;
    }
    assert ks[i..] == [];
  }

  /** The `for (const plan of records)` loop of the memo. */
  method ComputeKept<T>(rs: seq<T>, idOf: T -> string, toDelete: set<string>, updatedRecords: map<string, T>)
    returns (res: seq<T>)
    ensures res == Kept(rs, idOf, toDelete, updatedRecords)
  {
    res := [];
    var j := 0;
    while j < |rs|
      invariant 0 <= j <= |rs|
      invariant res + Kept(rs[j..], idOf, toDelete, updatedRecords) == Kept(rs, idOf, toDelete, updatedRecords)
    {
      var plan := rs[j];
      assert rs[j..][1..] == rs[j + 1..];
      if idOf(plan) !in toDelete {
        if idOf(plan) in updatedRecords {
          res := res + [updatedRecords[idOf(plan)]];
        } else {
          res := res + [plan];
        }
      }
      j := j + 1;
    }
    assert rs[j..] == [];
  }

  /** The `shadowRecords` memo as the hook computes it; `postUpdate` is left to the caller. */
  method ComputeMerge<T, E>(s: State<T, E>, records: Option<seq<T>>, idOf: T -> string, apply: (T, seq<Patch<E>>) -> T)
    returns (res: seq<T>)
    requires WellFormed(s)
    ensures res == Merge(s, records, idOf, apply)
  {
    var updatedRecords := ComputeUpdated(s, apply);
    res := ComputeKept(records.GetOr([]), idOf, Deleted(s), updatedRecords);
    res := res + NewRecords(s, apply);
  }

  // Handlers

  /** `retryHandler`: with a batch in flight, ask for it to be retried. */
  function Retried<T, E>(s: State<T, E>): (s': State<T, E>)
    requires WellFormed(s)
    ensures WellFormed(s')
    ensures !IsError(s) ==> s' == s
  {
    if s.currentBatch.Some? then SetBatchStateStep(s, ToPending) else s
  }

  /**
   * A record created while the batch has failed joins the batch at once,
   * unless the batch already creates that id, and nothing stays queued.
   */
  lemma CreateJoinsFailedBatch<T, E>(s: State<T, E>, id: string, value: T)
    requires WellFormed(s) && IsError(s)
    requires !s.toDelete.Has(id) && !InBatchDelete(s, id)
    ensures var s' := Retried(CreateStep(s, id, value));
            s'.currentBatch.Some? && s'.currentBatch.value.state == Pending && s'.toCreate.keys == [] &&
            id in s'.currentBatch.value.toCreate.entries &&
            s'.currentBatch.value.toCreate.entries[id] ==
              if InBatchCreate(s, id) then s.currentBatch.value.toCreate.entries[id] else value
  {
    var c := CreateStep(s, id, value);
    assert Retried(c) == RetryStep(c);
  }

  /** The `for (const [id, update] of state.toUpdate)` loop of the retry. */
  method MergeAll<T, E>(bu: OMap<string, ToUpdate<T, E>>, pending: OMap<string, ToUpdate<T, E>>)
    returns (updates: OMap<string, ToUpdate<T, E>>)
    requires bu.Valid() && pending.Valid()
    ensures updates == MergeUpdates(bu, pending.keys, pending.entries)
  {
    var ks, src := pending.keys, pending.entries;
    assert forall j :: 0 <= j < |ks| ==> ks[j] in src;
    updates := bu;
    var i := 0;
    while i < |ks|
      invariant 0 <= i <= |ks| && updates.Valid()
      invariant MergeUpdates(updates, ks[i..], src) == MergeUpdates(bu, ks, src)
    {
      MergeUpdatesStep(updates, ks, src, i);
      updates := MergeStep(updates, ks[i], src[ks[i]]);
      i := i + 1;
    }
    assert ks[i..] == [];
  }

  /** Merging the keys from `i` on is merging key `i`, then the rest. */
  lemma MergeUpdatesStep<T, E>(u: OMap<string, ToUpdate<T, E>>, ks: seq<string>, src: map<string, ToUpdate<T, E>>, i: nat)
    requires u.Valid() && i < |ks|
    requires forall j :: 0 <= j < |ks| ==> ks[j] in src
    ensures MergeUpdates(u, ks[i..], src) == MergeUpdates(MergeStep(u, ks[i], src[ks[i]]), ks[i + 1..], src)
  {
    assert ks[i..][0] == ks[i];
    assert ks[i..][1..] == ks[i + 1..];
  }

  /** The `for (const id of state.currentBatch.toDelete)` loop: each id leaves both maps. */
  method StripDeleted<U, C>(updates: OMap<string, U>, creates: OMap<string, C>, ds: seq<string>)
    returns (updates': OMap<string, U>, creates': OMap<string, C>)
    requires updates.Valid() && creates.Valid()
    ensures updates' == RemoveKeys(updates, ds) && creates' == RemoveKeys(creates, ds)
  {
    updates', creates' := updates, creates;
    var j := 0;
    while j < |ds|
      invariant 0 <= j <= |ds| && updates'.Valid() && creates'.Valid()
      invariant RemoveKeys(updates', ds[j..]) == RemoveKeys(updates, ds)
      invariant RemoveKeys(creates', ds[j..]) == RemoveKeys(creates, ds)
    {
      updates' := updates'.Delete(ds[j]);
      creates' := creates'.Delete(ds[j]);
      assert ds[j..][1..] == ds[j + 1..];
      j := j + 1;
    }
    assert ds[j..] == [];
  }

  // The reducer

  /** The reducer state the hook keeps with `useImmerReducer`. */
  class MutationReducer<T, E> {
    var toCreate: OMap<string, T>
    var toUpdate: OMap<string, ToUpdate<T, E>>
    var toDelete: OSet<string>
    var currentBatch: Option<Batch<T, E>>

    function Snapshot(): State<T, E>
      reads this
    {
      State(toCreate, toUpdate, toDelete, currentBatch)
    }

    ghost predicate Valid()
      reads this
    {
      WellFormed(Snapshot())
    }

    constructor()
      ensures Valid() && Snapshot() == Initial()
    {
      toCreate, toUpdate, toDelete, currentBatch := EmptyMap(), EmptyMap(), EmptySet(), None;
    }

    method Create(id: string, value: T)
      requires Valid()
      modifies this
      ensures Valid() && Snapshot() == CreateStep(old(Snapshot()), id, value)
    {
      toCreate := toCreate.Set(id, value);
    }

    method Update(id: string, value: T, patches: seq<Patch<E>>, apply: (T, seq<Patch<E>>) -> T)
      requires Valid()
      modifies this
      ensures Valid() && Snapshot() == UpdateStep(old(Snapshot()), id, value, patches, apply)
    {
      if currentBatch.Some? && id in currentBatch.value.toCreate.entries {
        return;
      }
      if toDelete.Has(id) || (currentBatch.Some? && currentBatch.value.toDelete.Has(id)) {
        return;
      }
      if id in toCreate.entries {
        toCreate := toCreate.Set(id, apply(toCreate.entries[id], patches));
        return;
      }
      var m := new MapGetOrSetDefault.MapRef(toUpdate);
      var entry, _ := MapGetOrSetDefault.MapGetOrSetDefault(m, id, () => ToUpdate(value, []));
      toUpdate := m.value.Set(id, ToUpdate(entry.value, entry.patches + patches));
    }

    method Delete(id: string)
      requires Valid()
      modifies this
      ensures Valid() && Snapshot() == DeleteStep(old(Snapshot()), id)
    {
      ghost var s := Snapshot();
      if currentBatch.Some? && (id in currentBatch.value.toCreate.entries || currentBatch.value.toDelete.Has(id)) {
        assert InBatchCreate(s, id) || InBatchDelete(s, id);
        return;
      }
      assert !InBatchCreate(s, id) && !InBatchDelete(s, id);
      if id in toCreate.entries {
        toCreate := toCreate.Delete(id);
        assert Snapshot() == s.(toCreate := s.toCreate.Delete(id));
        return;
      }
      if id in toUpdate.entries {
        toUpdate := toUpdate.Delete(id);
      }
      toDelete := toDelete.Add(id);
      assert Snapshot() == s.(toUpdate := toUpdate, toDelete := s.toDelete.Add(id));
    }

    method PrepareBatch()
      requires Valid()
      modifies this
      ensures Valid() && Snapshot() == PrepareBatchStep(old(Snapshot()))
    {
      if currentBatch.Some? {
        return;
      }
      currentBatch := Some(Batch(toCreate, toUpdate, toDelete, Pending));
      toCreate, toUpdate, toDelete := EmptyMap(), EmptyMap(), EmptySet();
    }

    method SetBatchState(requested: Requested)
      requires Valid()
      modifies this
      ensures Valid() && Snapshot() == SetBatchStateStep(old(Snapshot()), requested)
    {
      match requested
      case Done =>
        currentBatch := None;
      case ToPending =>
        if currentBatch.Some? && currentBatch.value.state == Errored {
          Retry();
        }
      case ToErrored =>
        if currentBatch.Some? && currentBatch.value.state == Scheduled {
          currentBatch := Some(currentBatch.value.(state := Errored));
        }
      case ToScheduled =>
        if currentBatch.Some? && currentBatch.value.state == Pending {
          currentBatch := Some(currentBatch.value.(state := Scheduled));
        }
    }

    /** The `'pending'` request on a failed batch, with its two loops. */
    method Retry()
      requires Valid() && currentBatch.Some?
      modifies this
      ensures Valid() && Snapshot() == RetryStep(old(Snapshot()))
    {
      ghost var s := Snapshot();
      var b := currentBatch.value;
      var creates := Spread(toCreate, b.toCreate);
      var updates := MergeAll(b.toUpdate, toUpdate);
      var deletes := SetOf(toDelete.items + b.toDelete.items);
      updates, creates := StripDeleted(updates, creates, deletes.items);
      var retried := Batch(creates, updates, deletes, Pending);
      assert State(EmptyMap(), EmptyMap(), EmptySet(), Some(retried)) == RetryStep(s);
      currentBatch := Some(retried);
      toCreate, toUpdate, toDelete := EmptyMap(), EmptyMap(), EmptySet();
    }

    /** `retryHandler`. */
    method RetryHandler()
      requires Valid()
      modifies this
      ensures Valid() && Snapshot() == Retried(old(Snapshot()))
    {
      if currentBatch.None? {
        return;
      }
      SetBatchState(ToPending);
    }

    /** `createHandler`: queue the record under its own id, then retry. */
    method CreateHandler(value: T, idOf: T -> string)
      requires Valid()
      modifies this
      ensures Valid() && Snapshot() == Retried(CreateStep(old(Snapshot()), idOf(value), value))
    {
      Create(idOf(value), value);
      RetryHandler();
    }

    /** `updateHandler`: an edit that produced no patches dispatches nothing. */
    method UpdateHandler(value: T, idOf: T -> string, patches: seq<Patch<E>>, apply: (T, seq<Patch<E>>) -> T)
      requires Valid()
      modifies this
      ensures Valid()
      ensures patches == [] ==> Snapshot() == old(Snapshot())
      ensures patches != [] ==> Snapshot() == Retried(UpdateStep(old(Snapshot()), idOf(value), value, patches, apply))
    {
      if |patches| > 0 {
        Update(idOf(value), value, patches, apply);
        RetryHandler();
      }
    }

    /** `deleteHandler`. */
    method DeleteHandler(id: string)
      requires Valid()
      modifies this
      ensures Valid() && Snapshot() == Retried(DeleteStep(old(Snapshot()), id))
    {
      Delete(id);
      RetryHandler();
    }
  }

  // The batch request

  /** One request of the PocketBase batch. */
  datatype Request<T> = UpdateRequest(id: string, body: T) | CreateRequest(body: T) | DeleteRequest(id: string)

  /**
   * `mutationFn`'s batch: every update (its patches, then the server
   * patches), then every create (`CREATE_RECORD_PATCH`, then the server
   * patches), then every delete, each group in its collection's order.
   */
  function BatchRequests<T, E>(b: Batch<T, E>, serverPatches: seq<Patch<E>>, apply: (T, seq<Patch<E>>) -> T)
    : (r: seq<Request<T>>)
    requires BatchValid(b)
    ensures var nu, nc, nd := |b.toUpdate.keys|, |b.toCreate.keys|, |b.toDelete.items|;
            |r| == nu + nc + nd &&
            r[..nu] == UpdateRequests(b.toUpdate, serverPatches, apply) &&
            r[nu..nu + nc] == CreateRequests(b.toCreate, serverPatches, apply) &&
            r[nu + nc..] == DeleteRequests<T>(b.toDelete)
  {
    var u, c := UpdateRequests(b.toUpdate, serverPatches, apply), CreateRequests(b.toCreate, serverPatches, apply);
    var r := u + c + DeleteRequests<T>(b.toDelete);
    assert r[..|u|] == u && r[|u|..|u| + |c|] == c;
    r
  }

  function DeleteRequests<T>(ids: OSet<string>): (r: seq<Request<T>>)
    ensures |r| == |ids.items| && forall i :: 0 <= i < |r| ==> r[i] == DeleteRequest(ids.items[i])
  {
    seq(|ids.items|, i requires 0 <= i < |ids.items| => DeleteRequest(ids.items[i]))
  }

  function UpdateRequests<T, E>(m: OMap<string, ToUpdate<T, E>>, serverPatches: seq<Patch<E>>,
                                apply: (T, seq<Patch<E>>) -> T): (r: seq<Request<T>>)
    requires m.Valid()
    ensures |r| == |m.keys|
    ensures forall i :: 0 <= i < |r| ==>
              var u := m.entries[m.keys[i]];
              r[i] == UpdateRequest(m.keys[i], apply(u.value, u.patches + serverPatches))
  {
    seq(|m.keys|, i requires 0 <= i < |m.keys| =>
      var u := m.entries[m.keys[i]];
      UpdateRequest(m.keys[i], apply(u.value, u.patches + serverPatches)))
  }

  function CreateRequests<T, E>(m: OMap<string, T>, serverPatches: seq<Patch<E>>,
                                apply: (T, seq<Patch<E>>) -> T): (r: seq<Request<T>>)
    requires m.Valid()
    ensures |r| == |m.keys|
    ensures forall i :: 0 <= i < |r| ==> r[i] == CreateRequest(apply(m.entries[m.keys[i]], CreateRecordPatch() + serverPatches))
  {
    seq(|m.keys|, i requires 0 <= i < |m.keys| => CreateRequest(apply(m.entries[m.keys[i]], CreateRecordPatch() + serverPatches)))
  }

  /** `mutationFn`'s three loops filling the batch. */
  method BuildBatch<T, E>(b: Batch<T, E>, serverPatches: seq<Patch<E>>, apply: (T, seq<Patch<E>>) -> T)
    returns (batch: seq<Request<T>>)
    requires BatchValid(b)
    ensures batch == BatchRequests(b, serverPatches, apply)
  {
    batch := [];
    var i := 0;
    while i < |b.toUpdate.keys|
      invariant 0 <= i <= |b.toUpdate.keys|
      invariant batch == UpdateRequests(b.toUpdate, serverPatches, apply)[..i]
    {
      var item := b.toUpdate.entries[b.toUpdate.keys[i]];
      batch := batch + [UpdateRequest(b.toUpdate.keys[i], apply(item.value, item.patches + serverPatches))];
      i := i + 1;
    }
    ghost var updates := batch;
    i := 0;
    while i < |b.toCreate.keys|
      invariant 0 <= i <= |b.toCreate.keys|
      invariant batch == updates + CreateRequests(b.toCreate, serverPatches, apply)[..i]
    {
      batch := batch + [CreateRequest(apply(b.toCreate.entries[b.toCreate.keys[i]], CreateRecordPatch() + serverPatches))];
      i := i + 1;
    }
    ghost var writes := batch;
    i := 0;
    while i < |b.toDelete.items|
      invariant 0 <= i <= |b.toDelete.items|
      invariant batch == writes + DeleteRequests<T>(b.toDelete)[..i]
    {
      batch := batch + [DeleteRequest(b.toDelete.items[i])];
      i := i + 1;
    }
    assert UpdateRequests(b.toUpdate, serverPatches, apply)[..|b.toUpdate.keys|] == UpdateRequests(b.toUpdate, serverPatches, apply);
    assert CreateRequests(b.toCreate, serverPatches, apply)[..|b.toCreate.keys|] == CreateRequests(b.toCreate, serverPatches, apply);
    assert DeleteRequests<T>(b.toDelete)[..i] == DeleteRequests<T>(b.toDelete);
  }
}
