/**
 * The class-based plan store: a repository of plans keyed by id with the
 * query state and the optimistic entries of writes in flight, the commands
 * that change it, and the presenter that sorts the plans for display and
 * notifies subscribers. The background tasks of each write are the methods
 * named after their completion.
 */
module PlansStore {
  import opened Wrappers
  import opened Lists
  import opened ArraySort
  import opened JsCollections
  import opened MapGetOrSetDefault
  import opened PlanCreation
  import Immer

  /** A plan record as the store holds it. */
  datatype PlanRecord = PlanRecord(id: string, user: string, character: string, order: int,
                                   progress: map<string, int>, substats: seq<string>, note: string)

  /** One field write of `update` with its new value. */
  datatype Field =
    | Order(order: int)
    | CharacterField(character: string)
    | Progress(name: string, value: int)
    | Substats(substats: seq<string>)
    | Note(note: string)

  /** The record with that one field changed. */
  function WithField(p: PlanRecord, f: Field): (r: PlanRecord)
    ensures r.id == p.id && r.user == p.user
    ensures f.Order? ==> r == p.(order := f.order)
    ensures f.CharacterField? ==> r == p.(character := f.character)
    ensures f.Progress? ==> r == p.(progress := p.progress[f.name := f.value])
    ensures f.Substats? ==> r == p.(substats := f.substats)
    ensures f.Note? ==> r == p.(note := f.note)
  {
    match f
    case Order(o) => p.(order := o)
    case CharacterField(c) => p.(character := c)
    case Progress(n, v) => p.(progress := p.progress[n := v])
    case Substats(s) => p.(substats := s)
    case Note(n) => p.(note := n)
  }

  /**
   * Whether the assignment `s[field] = value` changes the draft. A numeric or
   * text field, progress fields included, changes when the value differs from
   * the one held (or the field is absent); the substats list is passed as a
   * new array, which `Object.is` never finds equal to the one held.
   */
  predicate AssignsNewValue(p: PlanRecord, f: Field) {
    match f
    case Order(o) => o != p.order
    case CharacterField(c) => c != p.character
    case Note(n) => n != p.note
    case Progress(n, v) => n !in p.progress || p.progress[n] != v
    case Substats(_) => true
  }

  /**
   * `produce(prevState, (s) => (s[field] = value))` as written: the arrow's
   * body is the assignment itself, so the recipe returns the value it assigns.
   */
  function ProduceAsWritten(p: PlanRecord, f: Field): (r: Immer.Produced<PlanRecord, Field>)
    ensures r.Threw? <==> AssignsNewValue(p, f)
    ensures r.Returned? ==> r.returned == f
    ensures !r.Draft?
  {
    Immer.Produce(WithField(p, f), AssignsNewValue(p, f), Some(f))
  }

  /**
   * As written, `update` never stores the record it means to: a write that
   * changes the plan throws before anything is stored, and one that changes
   * nothing yields the bare field value in place of the record.
   */
  lemma UpdateAsWrittenLosesWrite(p: PlanRecord, f: Field)
    ensures WithField(p, f) != p ==> ProduceAsWritten(p, f) == Immer.Threw(Immer.RETURNED_AND_MODIFIED)
    ensures WithField(p, f) == p ==> ProduceAsWritten(p, f) != Immer.Draft(WithField(p, f))
    ensures !AssignsNewValue(p, f) ==> ProduceAsWritten(p, f) == Immer.Returned(f) && WithField(p, f) == p
  {
    match f
    case Order(o) =>
      if o == p.order {
        assert WithField(p, f) == p;
      }
    case CharacterField(c) =>
      if c == p.character {
        assert WithField(p, f) == p;
      }
    case Note(n) =>
      if n == p.note {
        assert WithField(p, f) == p;
      }
    case Progress(n, v) =>
      if n in p.progress && p.progress[n] == v {
        assert p.progress[n := v] == p.progress;
        assert WithField(p, f) == p;
      }
    case Substats(_) =>
  }

  datatype QueryState = Init | Loaded | Loading | QueryError(message: string)

  const LOADING_ERROR := "Loading error"
  const UNKNOWN_ERROR := "Unknown error"

  datatype RecordState = RecordLoading | RecordError(message: string)

  /** An optimistic entry: the record before the write, when kept, and the write's state. */
  datatype Optimistic = Optimistic(ctx: Option<PlanRecord>, state: RecordState)

  /**
   * `newCharacterPlan` of this store: nothing (it throws) without a signed-in
   * user; otherwise the default progress, no substats and an empty note.
   */
  function NewRecord(user: Option<string>, id: string, character: string, order: int): (r: Option<PlanRecord>)
    ensures r.None? <==> user.None?
    ensures r.Some? ==> r.value.id == id && r.value.user == user.value && r.value.character == character &&
                        r.value.order == order && r.value.progress == DefaultProgress() &&
                        r.value.substats == [] && r.value.note == ""
  {
    if user.None? then None else Some(PlanRecord(id, user.value, character, order, DefaultProgress(), [], ""))
  }

  /** The plans keyed by id, set in list order: a later plan with the same id replaces an earlier one. */
  function Keyed(plans: seq<PlanRecord>): (m: OMap<string, PlanRecord>)
    ensures m.Valid()
  {
    if plans == [] then EmptyMap()
    else Keyed(plans[..|plans| - 1]).Set(plans[|plans| - 1].id, plans[|plans| - 1])
  }

  /** The position of the last plan with id `k`, or -1. */
  function LastWithId(plans: seq<PlanRecord>, k: string): (r: int)
    ensures -1 <= r < |plans|
    ensures r >= 0 ==> plans[r].id == k && forall j :: r < j < |plans| ==> plans[j].id != k
    ensures r < 0 ==> forall j :: 0 <= j < |plans| ==> plans[j].id != k
  {
    if plans == [] then -1
    else if plans[|plans| - 1].id == k then |plans| - 1
    else LastWithId(plans[..|plans| - 1], k)
  }

  /** Every fetched id is a key, and its record is the last fetched plan with that id. */
  lemma {:induction false} KeyedMeaning(plans: seq<PlanRecord>, k: string)
    ensures k in Keyed(plans).entries <==> LastWithId(plans, k) >= 0
    ensures k in Keyed(plans).entries ==> Keyed(plans).entries[k] == plans[LastWithId(plans, k)]
  {
    if plans != [] {
      var n := |plans| - 1;
      KeyedMeaning(plans[..n], k);
      if plans[n].id != k && LastWithId(plans[..n], k) >= 0 {
        assert plans[..n][LastWithId(plans[..n], k)] == plans[LastWithId(plans, k)];
      }
    }
  }

  /** A plan as the presenter shows it: the record with its optimistic entry, if any. */
  datatype Shown = Shown(plan: PlanRecord, optimistic: Option<Optimistic>)

  function ShownOrder(s: Shown): int {
    s.plan.order
  }

  function Annotated(plans: seq<PlanRecord>, pending: map<string, Optimistic>): (r: seq<Shown>)
    ensures |r| == |plans|
    ensures forall i :: 0 <= i < |r| ==>
              r[i].plan == plans[i] && r[i].optimistic == if plans[i].id in pending then Some(pending[plans[i].id]) else None
  {
    if plans == [] then []
    else [Shown(plans[0], if plans[0].id in pending then Some(pending[plans[0].id]) else None)]
         + Annotated(plans[1..], pending)
  }

  /** `PlansState`: the plans keyed by id, the query state and the optimistic entries keyed by plan id. */
  class PlansState {
    var items: OMap<string, PlanRecord>
    var queryState: QueryState
    var pendingUpdate: OMap<string, Optimistic>

    ghost predicate Valid()
      reads this
    {
      items.Valid() && pendingUpdate.Valid()
    }

    constructor()
      ensures Valid() && items == EmptyMap() && queryState == Init && pendingUpdate == EmptyMap()
    {
      items := EmptyMap();
      queryState := Init;
      pendingUpdate := EmptyMap();
    }
  }

  /** What the presenter lists: the plans with their optimistic entries, by order from highest to lowest. */
  function Presented(plans: seq<PlanRecord>, pending: map<string, Optimistic>): seq<Shown> {
    SortBy(Annotated(plans, pending), Negated(ShownOrder))
  }

  /**
   * The presenter lists every plan once with its own optimistic entry, by
   * order from highest to lowest.
   */
  lemma PresentedDescending(plans: seq<PlanRecord>, pending: map<string, Optimistic>)
    ensures var r := Presented(plans, pending);
            multiset(r) == multiset(Annotated(plans, pending)) &&
            forall i, j :: 0 <= i < j < |r| ==> r[i].plan.order >= r[j].plan.order
  {
    var a := Annotated(plans, pending);
    var r := Presented(plans, pending);
    SortByDescending(a, ShownOrder);
    forall i, j | 0 <= i < j < |r|
      ensures r[i].plan.order >= r[j].plan.order
    {
      assert ShownOrder(r[i]) >= ShownOrder(r[j]);
    }
  }

  /** Whose updates a subscriber follows: the whole collection, or one plan. */
  datatype SubKey = FullCollection | PlanKey(id: string)

  /** `PlansPresentation`; callbacks are identified by number. */
  class PlansPresentation {
    const repo: PlansState
    var items: seq<Shown>
    var subscribers: OMap<SubKey, OSet<nat>>

    ghost predicate Valid()
      reads this, repo
    {
      repo.Valid() && subscribers.Valid() && forall k :: k in subscribers.entries ==> subscribers.entries[k].Valid()
    }

    constructor(repo: PlansState)
      requires repo.Valid()
      ensures Valid() && this.repo == repo && items == [] && subscribers == EmptyMap()
    {
      this.repo := repo;
      items := [];
      subscribers := EmptyMap();
    }

    /** `#update`: the repository's plans annotated and sorted in place, highest order first. */
    method Refresh()
      requires Valid()
      modifies this
      ensures Valid() && subscribers == old(subscribers)
      ensures items == Presented(repo.items.Values(), repo.pendingUpdate.entries)
    {
      var all := Annotated(repo.items.Values(), repo.pendingUpdate.entries);
      var a := new Shown[|all|](i requires 0 <= i < |all| => all[i]);
      assert a[..] == all;
      SortInPlace(a, Negated(ShownOrder));
      items := a[..];
    }

    /** The callbacks one key notifies, in subscription order. */
    function Callbacks(key: SubKey): (cbs: seq<nat>)
      requires Valid()
      reads this, repo
      ensures key !in subscribers.entries ==> cbs == []
    {
      if key in subscribers.entries then subscribers.entries[key].items else []
    }

    /** `updated(id)`: refresh, then call the callbacks of that plan, or of the whole collection without an id. */
    method Updated(id: Option<string>) returns (called: seq<nat>)
      requires Valid()
      modifies this
      ensures Valid() && subscribers == old(subscribers)
      ensures items == Presented(repo.items.Values(), repo.pendingUpdate.entries)
      ensures called == Callbacks(if id.Some? then PlanKey(id.value) else FullCollection)
    {
      Refresh();
      var key := if id.Some? then PlanKey(id.value) else FullCollection;
      called := if key in subscribers.entries then subscribers.entries[key].items else [];
    }

    /** `all()`: the listed plans in their order, each with its optimistic entry as stored now. */
    function All(): (r: seq<Shown>)
      requires Valid()
      reads this, repo
      ensures |r| == |items|
      ensures forall i :: 0 <= i < |r| ==>
                r[i].plan == items[i].plan &&
                r[i].optimistic == if items[i].plan.id in repo.pendingUpdate.entries
                                   then Some(repo.pendingUpdate.entries[items[i].plan.id]) else None
    {
      Annotated(seq(|items|, i requires 0 <= i < |items| reads this => items[i].plan), repo.pendingUpdate.entries)
    }

    /** `getById`: the record with its optimistic entry; nothing for an unknown id. */
    function GetById(id: string): (r: Option<Shown>)
      requires Valid()
      reads this, repo
      ensures r.None? <==> !repo.items.Has(id)
      ensures r.Some? ==> r.value.plan == repo.items.entries[id] &&
                          (r.value.optimistic.Some? <==> id in repo.pendingUpdate.entries)
    {
      if !repo.items.Has(id) then None
      else Some(Shown(repo.items.entries[id],
                      if id in repo.pendingUpdate.entries then Some(repo.pendingUpdate.entries[id]) else None))
    }

    /**
     * `subscribe` (key `FullCollection`) and `subscribeTo` (key `PlanKey(id)`):
     * the key's set is created on first use and `fn` is added to it.
     */
    method Subscribe(key: SubKey, fn: nat)
      requires Valid()
      modifies this
      ensures Valid() && items == old(items)
      ensures key in subscribers.entries && subscribers.entries[key].Has(fn)
      ensures key in old(subscribers.entries) ==>
                subscribers.entries[key] == old(subscribers.entries[key]).Add(fn)
      ensures forall k :: k != key ==>
                ((k in subscribers.entries <==> k in old(subscribers.entries)) &&
                 (k in subscribers.entries ==> subscribers.entries[k] == old(subscribers.entries[k])))
    {
      var (m, cbs) := GetOrSetDefault(subscribers, key, EmptySet());
      subscribers := m.Set(key, cbs.Add(fn));
    }

    /** The function `subscribe` returns: it deletes `fn` from the key's set, and nothing else. */
    method Unsubscribe(key: SubKey, fn: nat)
      requires Valid()
      modifies this
      ensures Valid() && items == old(items)
      ensures subscribers.keys == old(subscribers.keys)
      ensures key in subscribers.entries ==>
                forall j :: subscribers.entries[key].Has(j) <==> old(subscribers.entries[key]).Has(j) && j != fn
      ensures forall k :: k != key && k in subscribers.entries ==> subscribers.entries[k] == old(subscribers.entries[k])
    {
      if key in subscribers.entries {
        subscribers := subscribers.Set(key, subscribers.entries[key].Delete(fn));
      }
    }
  }

  /** `PlansCommands`: every command changes the repository, then asks the presenter to refresh. */
  class PlansCommands {
    const repo: PlansState
    const presenter: PlansPresentation

    ghost predicate Valid()
      reads this, repo, presenter
    {
      presenter.repo == repo && presenter.Valid()
    }

    constructor(repo: PlansState, presenter: PlansPresentation)
      requires presenter.repo == repo && presenter.Valid()
      ensures Valid() && this.repo == repo && this.presenter == presenter
    {
      this.repo := repo;
      this.presenter := presenter;
    }

    /**
     * `load(force)`, with `fetched` what the retried full-list request
     * resolved to (`None` when it rejected): unless forced, only a store that
     * was never loaded loads. The items are replaced by the fetched plans
     * keyed by id, or emptied with an error state.
     */
    method Load(force: bool, fetched: Option<seq<PlanRecord>>)
      requires Valid()
      modifies repo, presenter
      ensures Valid() && repo.pendingUpdate == old(repo.pendingUpdate)
      ensures !force && old(repo.queryState) != Init ==>
                repo.items == old(repo.items) && repo.queryState == old(repo.queryState)
      ensures (force || old(repo.queryState) == Init) && fetched.Some? ==>
                repo.items == Keyed(fetched.value) && repo.queryState == Loaded
      ensures (force || old(repo.queryState) == Init) && fetched.None? ==>
                repo.items == EmptyMap() && repo.queryState == QueryError(LOADING_ERROR)
    {
      if !force && repo.queryState != Init {
        return;
      }
      repo.items := EmptyMap();
      repo.queryState := Loading;
      if fetched.Some? {
        var plans := fetched.value;
        for i := 0 to |plans|
          invariant repo.items == Keyed(plans[..i]) && repo.pendingUpdate == old(repo.pendingUpdate)
          invariant Valid()
        {
          assert plans[..i + 1][..i] == plans[..i];
          repo.items := repo.items.Set(plans[i].id, plans[i]);
        }
        assert plans[..|plans|] == plans;
        repo.queryState := Loaded;
      } else {
        repo.queryState := QueryError(LOADING_ERROR);
      }
      var _ := presenter.Updated(None);
    }

    /**
     * `create(characterId)`, with `now` the clock's reading as the temporary
     * id: the new record, ordered after every stored plan, is stored with a
     * loading entry. Without a signed-in user the record cannot be built; then
     * only a loading entry already stored under that id turns into an error.
     */
    method Create(user: Option<string>, now: string, characterId: string)
      requires Valid()
      modifies repo, presenter
      ensures Valid() && repo.queryState == old(repo.queryState)
      ensures user.Some? ==>
                var r := NewRecord(user, now, characterId, old(repo.items.Size()) + 1).value;
                repo.items == old(repo.items).Set(now, r) &&
                repo.pendingUpdate == old(repo.pendingUpdate).Set(now, Optimistic(Some(r), RecordLoading))
      ensures user.None? ==> repo.items == old(repo.items)
      ensures user.None? && now in old(repo.pendingUpdate.entries) &&
              old(repo.pendingUpdate.entries[now]).state.RecordLoading? ==>
                repo.pendingUpdate ==
                  old(repo.pendingUpdate).Set(now, Optimistic(old(repo.pendingUpdate.entries[now]).ctx, RecordError(UNKNOWN_ERROR)))
      ensures user.None? && !(now in old(repo.pendingUpdate.entries) &&
              old(repo.pendingUpdate.entries[now]).state.RecordLoading?) ==>
                repo.pendingUpdate == old(repo.pendingUpdate)
    {
      var order := repo.items.Size() + 1;
      var record := NewRecord(user, now, characterId, order);
      if record.Some? {
        repo.items := repo.items.Set(now, record.value);
        repo.pendingUpdate := repo.pendingUpdate.Set(now, Optimistic(record, RecordLoading));
        var _ := presenter.Updated(None);
      } else {
        if now !in repo.pendingUpdate.entries || !repo.pendingUpdate.entries[now].state.RecordLoading? {
          return;
        }
        var pending := repo.pendingUpdate.entries[now];
        repo.pendingUpdate := repo.pendingUpdate.Set(now, Optimistic(pending.ctx, RecordError(UNKNOWN_ERROR)));
        var _ := presenter.Updated(None);
      }
    }

    /** The create task's end: the temporary record and entry give way to the created plan under its own id. */
    method CreateDone(id: string, created: PlanRecord)
      requires Valid()
      modifies repo, presenter
      ensures Valid() && repo.queryState == old(repo.queryState)
      ensures repo.items == old(repo.items).Delete(id).Set(created.id, created)
      ensures repo.pendingUpdate == old(repo.pendingUpdate).Delete(id)
    {
      repo.items := repo.items.Delete(id);
      repo.pendingUpdate := repo.pendingUpdate.Delete(id);
      repo.items := repo.items.Set(created.id, created);
      var _ := presenter.Updated(None);
    }

    /**
     * `update(planId, field, value)`: nothing for an unknown plan. Otherwise
     * the plan gets the new field value, and a loading entry is stored unless
     * one already is; a new entry keeps the context of an errored one, or
     * else the record before the write.
     */
    method Update(planId: string, f: Field)
      requires Valid()
      modifies repo, presenter
      ensures Valid() && repo.queryState == old(repo.queryState)
      ensures !old(repo.items).Has(planId) ==>
                repo.items == old(repo.items) && repo.pendingUpdate == old(repo.pendingUpdate)
      ensures old(repo.items).Has(planId) ==>
                repo.items == old(repo.items).Set(planId, WithField(old(repo.items.entries[planId]), f))
      ensures old(repo.items).Has(planId) && planId in old(repo.pendingUpdate.entries) &&
              old(repo.pendingUpdate.entries[planId]).state.RecordLoading? ==>
                repo.pendingUpdate == old(repo.pendingUpdate)
      ensures old(repo.items).Has(planId) && planId !in old(repo.pendingUpdate.entries) ==>
                repo.pendingUpdate ==
                  old(repo.pendingUpdate).Set(planId, Optimistic(Some(old(repo.items.entries[planId])), RecordLoading))
      ensures old(repo.items).Has(planId) && planId in old(repo.pendingUpdate.entries) &&
              old(repo.pendingUpdate.entries[planId]).state.RecordError? ==>
                var prior := old(repo.pendingUpdate.entries[planId]);
                repo.pendingUpdate ==
                  old(repo.pendingUpdate).Set(planId, Optimistic(
                    if prior.ctx.Some? then prior.ctx else Some(old(repo.items.entries[planId])), RecordLoading))
    {
      if !repo.items.Has(planId) {
        return;
      }
      var prevState := repo.items.entries[planId];
      var plan := WithField(prevState, f);
      if planId !in repo.pendingUpdate.entries || repo.pendingUpdate.entries[planId].state.RecordError? {
        var ctx := if planId in repo.pendingUpdate.entries && repo.pendingUpdate.entries[planId].ctx.Some?
                   then repo.pendingUpdate.entries[planId].ctx else Some(prevState);
        repo.pendingUpdate := repo.pendingUpdate.Set(planId, Optimistic(ctx, RecordLoading));
      }
      repo.items := repo.items.Set(planId, plan);
      var _ := presenter.Updated(None);
    }

    /**
     * `update(planId, field, value)` as written. For a write that changes the
     * plan the recipe throws before the `try`: the call rejects with immer's
     * error and nothing is stored. For a write of the value already held the
     * pending entry is handled as in `Update`, and the source then stores the
     * bare value in place of the record; the items here hold records only, so
     * they are left as they were.
     */
    method UpdateAsWritten(planId: string, f: Field) returns (error: Option<string>)
      requires Valid()
      modifies repo, presenter
      ensures Valid() && repo.queryState == old(repo.queryState)
      ensures repo.items == old(repo.items)
      ensures !old(repo.items).Has(planId) ==> error.None? && repo.pendingUpdate == old(repo.pendingUpdate)
      ensures old(repo.items).Has(planId) && AssignsNewValue(old(repo.items.entries[planId]), f) ==>
                error == Some(Immer.RETURNED_AND_MODIFIED) && repo.pendingUpdate == old(repo.pendingUpdate)
      ensures old(repo.items).Has(planId) && !AssignsNewValue(old(repo.items.entries[planId]), f) ==>
                error.None? &&
                var prior := old(repo.pendingUpdate.entries);
                repo.pendingUpdate ==
                  if planId in prior && prior[planId].state.RecordLoading? then old(repo.pendingUpdate)
                  else old(repo.pendingUpdate).Set(planId, Optimistic(
                    if planId in prior && prior[planId].ctx.Some? then prior[planId].ctx
                    else Some(old(repo.items.entries[planId])), RecordLoading))
    {
      if !repo.items.Has(planId) {
        return None;
      }
      var prevState := repo.items.entries[planId];
      var produced := ProduceAsWritten(prevState, f);
      if produced.Threw? {
        return Some(produced.message);
      }
      if planId !in repo.pendingUpdate.entries || repo.pendingUpdate.entries[planId].state.RecordError? {
        var ctx := if planId in repo.pendingUpdate.entries && repo.pendingUpdate.entries[planId].ctx.Some?
                   then repo.pendingUpdate.entries[planId].ctx else Some(prevState);
        repo.pendingUpdate := repo.pendingUpdate.Set(planId, Optimistic(ctx, RecordLoading));
      }
      var _ := presenter.Updated(None);
      error := None;
    }

    /** The update task's end: the sent record is stored again, now last in iteration order, and its entry dropped. */
    method UpdateDone(sent: PlanRecord)
      requires Valid()
      modifies repo, presenter
      ensures Valid() && repo.queryState == old(repo.queryState)
      ensures repo.items == old(repo.items).Delete(sent.id).Set(sent.id, sent)
      ensures repo.pendingUpdate == old(repo.pendingUpdate).Delete(sent.id)
    {
      repo.items := repo.items.Delete(sent.id);
      repo.pendingUpdate := repo.pendingUpdate.Delete(sent.id);
      repo.items := repo.items.Set(sent.id, sent);
      var _ := presenter.Updated(Some(sent.id));
    }

    /** `delete(plan)`: a loading entry without context is stored and the plan leaves the items at once. */
    method Delete(plan: PlanRecord)
      requires Valid()
      modifies repo, presenter
      ensures Valid() && repo.queryState == old(repo.queryState)
      ensures repo.items == old(repo.items).Delete(plan.id)
      ensures repo.pendingUpdate == old(repo.pendingUpdate).Set(plan.id, Optimistic(None, RecordLoading))
    {
      repo.pendingUpdate := repo.pendingUpdate.Set(plan.id, Optimistic(None, RecordLoading));
      repo.items := repo.items.Delete(plan.id);
      var _ := presenter.Updated(None);
    }

    /** The delete task's end: the plan and its entry are gone. */
    method DeleteDone(id: string)
      requires Valid()
      modifies repo, presenter
      ensures Valid() && repo.queryState == old(repo.queryState)
      ensures repo.items == old(repo.items).Delete(id)
      ensures repo.pendingUpdate == old(repo.pendingUpdate).Delete(id)
    {
      repo.items := repo.items.Delete(id);
      repo.pendingUpdate := repo.pendingUpdate.Delete(id);
      var _ := presenter.Updated(None);
    }

    /** The cancel action of a failed create: the temporary record and its entry are dropped. */
    method CancelCreate(id: string)
      requires Valid()
      modifies repo, presenter
      ensures Valid() && repo.queryState == old(repo.queryState)
      ensures repo.items == old(repo.items).Delete(id)
      ensures repo.pendingUpdate == old(repo.pendingUpdate).Delete(id)
    {
      repo.items := repo.items.Delete(id);
      repo.pendingUpdate := repo.pendingUpdate.Delete(id);
      var _ := presenter.Updated(None);
    }

    /** The retry action of a failed create: the loading entry it replaced is stored again. */
    method RetryCreate(id: string, loading: Optimistic)
      requires Valid()
      modifies repo, presenter
      ensures Valid() && repo.queryState == old(repo.queryState) && repo.items == old(repo.items)
      ensures repo.pendingUpdate == old(repo.pendingUpdate).Set(id, loading)
    {
      repo.pendingUpdate := repo.pendingUpdate.Set(id, loading);
      var _ := presenter.Updated(None);
    }
  }

  /**
   * A plan changed by `update` keeps its key and position, and the
   * presenter still shows it exactly once, under its id.
   */
  lemma UpdateKeepsPlan(items: OMap<string, PlanRecord>, planId: string, f: Field)
    requires items.Valid() && items.Has(planId) && items.entries[planId].id == planId
    ensures var r := items.Set(planId, WithField(items.entries[planId], f));
            r.keys == items.keys && r.entries[planId].id == planId &&
            multiset(r.Values())[r.entries[planId]] >= 1
  {
    var r := items.Set(planId, WithField(items.entries[planId], f));
    var i :| 0 <= i < |items.keys| && items.keys[i] == planId;
    assert r.Values()[i] == r.entries[planId];
  }

  /** Subscribing `fn` and then calling the returned function leaves no trace of `fn` under that key. */
  method SubscribeThenUnsubscribe(p: PlansPresentation, key: SubKey, fn: nat)
    requires p.Valid()
    modifies p
    ensures p.Valid()
    ensures key in p.subscribers.entries && !p.subscribers.entries[key].Has(fn)
    ensures key in old(p.subscribers.entries) ==>
              forall j :: j != fn ==> (p.subscribers.entries[key].Has(j) <==> old(p.subscribers.entries[key]).Has(j))
  {
    p.Subscribe(key, fn);
    p.Unsubscribe(key, fn);
  }
}
