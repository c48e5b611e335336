/**
 * The atom-based map of builds waiting to be created, keyed by a temporary
 * id. An entry moves from pending to sent when its create starts, is deleted
 * when the create succeeds, becomes failed when the retries run out, and the
 * manual retry sets it back to pending.
 */
module PendingPlansMap {
  import opened Wrappers
  import opened JsCollections
  import opened PlanCreation
  import Lists

  datatype SendState = Pending | Sent | Failed

  datatype PendingCharacter = PendingCharacter(id: string, characterId: string, order: int, state: SendState)

  /** The map with entry `id`'s state replaced, when there is such an entry (`if (pp) pp.state = ...`). */
  function WithState(m: OMap<string, PendingCharacter>, id: string, st: SendState): (r: OMap<string, PendingCharacter>)
    requires m.Valid()
    ensures r.Valid() && r.keys == m.keys
    ensures forall k :: k in r.entries <==> k in m.entries
    ensures forall k :: k in r.entries ==> r.entries[k] == if k == id then m.entries[k].(state := st) else m.entries[k]
  {
    if m.Has(id) then m.Set(id, m.entries[id].(state := st)) else m
  }

  /**
   * The ids a pass of the subscriber starts among the first `n` entries, in
   * iteration order: the pending ones. With nobody signed in the pass breaks
   * at the first pending entry, so it starts none.
   */
  function ToSendUpTo(vs: seq<PendingCharacter>, n: nat, signedIn: bool): (r: seq<string>)
    requires n <= |vs|
    ensures !signedIn ==> r == []
  {
    if n == 0 || !signedIn then []
    else ToSendUpTo(vs, n - 1, signedIn) + (if vs[n - 1].state.Pending? then [vs[n - 1].id] else [])
  }

  function ToSend(vs: seq<PendingCharacter>, signedIn: bool): seq<string> {
    ToSendUpTo(vs, |vs|, signedIn)
  }

  /** Signed in, a pass starts exactly the pending entries. */
  lemma {:induction false} ToSendMeaning(vs: seq<PendingCharacter>, n: nat, id: string)
    requires n <= |vs|
    ensures id in ToSendUpTo(vs, n, true) <==> exists i :: 0 <= i < n && vs[i].id == id && vs[i].state.Pending?
  {
    if n > 0 {
      ToSendMeaning(vs, n - 1, id);
      if exists i :: 0 <= i < n && vs[i].id == id && vs[i].state.Pending? {
        var i :| 0 <= i < n && vs[i].id == id && vs[i].state.Pending?;
        if i < n - 1 {
          assert id in ToSendUpTo(vs, n - 1, true);
        }
      }
    }
  }

  /** The entries after a pass that marked the `started` ids as sent. */
  function MarkedSent(m: map<string, PendingCharacter>, started: seq<string>): (r: map<string, PendingCharacter>)
    ensures r.Keys == m.Keys
  {
    map k | k in m :: if k in started then m[k].(state := Sent) else m[k]
  }

  /** Marking one more id sent, in a map already marked, is marking the longer list. */
  lemma MarkOneMore(m0: OMap<string, PendingCharacter>, m: OMap<string, PendingCharacter>, started: seq<string>, id: string)
    requires m.Valid() && m.entries == MarkedSent(m0.entries, started) && id in m0.entries
    ensures WithState(m, id, Sent).entries == MarkedSent(m0.entries, started + [id])
  {
    var r := WithState(m, id, Sent);
    var e := MarkedSent(m0.entries, started + [id]);
    forall k | k in r.entries
      ensures r.entries[k] == e[k]
    {
      assert k in started + [id] <==> k in started || k == id;
    }
  }

  /** The entries of a snapshot carry distinct ids, one per key. */
  lemma SnapshotIdsDistinct(m: OMap<string, PendingCharacter>)
    requires m.Valid() && forall k :: k in m.entries ==> m.entries[k].id == k
    ensures var vs := m.Values(); forall i, j :: 0 <= i < j < |vs| ==> vs[i].id != vs[j].id
  {
    var vs := m.Values();
    forall i, j | 0 <= i < j < |vs|
      ensures vs[i].id != vs[j].id
    {
      assert vs[i].id == m.keys[i] && vs[j].id == m.keys[j];
    }
  }

  lemma MarkedNone(m: map<string, PendingCharacter>)
    ensures MarkedSent(m, []) == m
  {
  }

  /**
   * The snapshot `m0` after a pass over its first `n` entries: each pending
   * one marked sent in turn. With nobody signed in nothing is marked.
   */
  function MarkedUpTo(m0: OMap<string, PendingCharacter>, n: nat, signedIn: bool): (r: OMap<string, PendingCharacter>)
    requires m0.Valid() && n <= |m0.keys|
    ensures r.Valid() && r.keys == m0.keys
    ensures !signedIn ==> r == m0
  {
    if n == 0 || !signedIn then m0
    else
      var prev := MarkedUpTo(m0, n - 1, signedIn);
      var p := m0.Values()[n - 1];
      if p.state.Pending? then WithState(prev, p.id, Sent) else prev
  }

  /** The pass's entries are the snapshot's with exactly the started ids marked sent. */
  lemma {:induction false} MarkedUpToEntries(m0: OMap<string, PendingCharacter>, n: nat, signedIn: bool)
    requires m0.Valid() && forall k :: k in m0.entries ==> m0.entries[k].id == k
    requires n <= |m0.keys|
    ensures MarkedUpTo(m0, n, signedIn).entries == MarkedSent(m0.entries, ToSendUpTo(m0.Values(), n, signedIn))
  {
    if n == 0 || !signedIn {
      MarkedUpToNone(m0, n, signedIn);
    } else {
      MarkedUpToEntries(m0, n - 1, signedIn);
      MarkedUpToStep(m0, n, signedIn);
    }
  }

  /** Before the first entry, or with nobody signed in, nothing is marked. */
  lemma MarkedUpToNone(m0: OMap<string, PendingCharacter>, n: nat, signedIn: bool)
    requires m0.Valid() && n <= |m0.keys| && (n == 0 || !signedIn)
    ensures MarkedUpTo(m0, n, signedIn).entries == MarkedSent(m0.entries, ToSendUpTo(m0.Values(), n, signedIn))
  {
    MarkedNone(m0.entries);
  }

  /** One entry further, signed in: the inductive step of `MarkedUpToEntries`. */
  lemma MarkedUpToStep(m0: OMap<string, PendingCharacter>, n: nat, signedIn: bool)
    requires m0.Valid() && forall k :: k in m0.entries ==> m0.entries[k].id == k
    requires 0 < n <= |m0.keys| && signedIn
    requires MarkedUpTo(m0, n - 1, signedIn).entries == MarkedSent(m0.entries, ToSendUpTo(m0.Values(), n - 1, signedIn))
    ensures MarkedUpTo(m0, n, signedIn).entries == MarkedSent(m0.entries, ToSendUpTo(m0.Values(), n, signedIn))
  {
    var prev := MarkedUpTo(m0, n - 1, signedIn);
    var before := ToSendUpTo(m0.Values(), n - 1, signedIn);
    var vs := m0.Values();
    var p := vs[n - 1];
    if p.state.Pending? {
      assert p == m0.entries[m0.keys[n - 1]] && p.id in m0.entries;
      MarkOneMore(m0, prev, before, p.id);
    }
  }

  /** The ids a pass starts are distinct. */
  lemma StartsDistinct(m0: OMap<string, PendingCharacter>, signedIn: bool)
    requires m0.Valid() && forall k :: k in m0.entries ==> m0.entries[k].id == k
    ensures Lists.Distinct(ToSend(m0.Values(), signedIn))
  {
    SnapshotIdsDistinct(m0);
    ToSendDistinct(m0.Values(), |m0.keys|, signedIn);
  }

  /**
   * The subscriber's pass over the entries as they were when it began: each
   * pending entry is marked sent in `m`, in order, and its id started; with
   * nobody signed in the pass breaks at the first pending entry.
   */
  method MarkPending(m0: OMap<string, PendingCharacter>, signedIn: bool)
    returns (started: seq<string>, m: OMap<string, PendingCharacter>)
    requires m0.Valid() && forall k :: k in m0.entries ==> m0.entries[k].id == k
    ensures started == ToSend(m0.Values(), signedIn)
    ensures Lists.Distinct(started)
    ensures m.Valid() && m.keys == m0.keys && m.entries == MarkedSent(m0.entries, started)
  {
    var vs := m0.Values();
    m := m0;
    started := [];
    for i := 0 to |vs|
      invariant m == MarkedUpTo(m0, i, signedIn)
      invariant started == ToSendUpTo(vs, i, signedIn)
    {
      var p := vs[i];
      if !p.state.Pending? {
        continue;
      }
      if !signedIn {
        break;
      }
      m := WithState(m, p.id, Sent);
      started := started + [p.id];
    }
    MarkedUpToEntries(m0, |vs|, signedIn);
    StartsDistinct(m0, signedIn);
  }

  /** Each pending entry is started once: the ids a pass starts are distinct. */
  lemma {:induction false} ToSendDistinct(vs: seq<PendingCharacter>, n: nat, signedIn: bool)
    requires n <= |vs| && forall i, j :: 0 <= i < j < |vs| ==> vs[i].id != vs[j].id
    ensures Lists.Distinct(ToSendUpTo(vs, n, signedIn))
  {
    if n > 0 && signedIn {
      ToSendDistinct(vs, n - 1, signedIn);
      var before := ToSendUpTo(vs, n - 1, signedIn);
      if vs[n - 1].state.Pending? {
        ToSendMeaning(vs, n - 1, vs[n - 1].id);
        assert vs[n - 1].id !in before;
      }
    }
  }

  // ---- The subscriber as written: its own writes notify it again ----

  /** The entries not yet sent, in key order. */
  function Unsent(ks: seq<string>, e: map<string, PendingCharacter>): (n: nat)
    requires forall k :: k in ks ==> k in e
    ensures n <= |ks|
  {
    if ks == [] then 0 else (if e[ks[0]].state.Sent? then 0 else 1) + Unsent(ks[1..], e)
  }

  /** Marking an entry sent never raises the count of unsent entries, and lowers it when the entry was not sent. */
  lemma {:induction false} UnsentMark(ks: seq<string>, e: map<string, PendingCharacter>, id: string)
    requires forall k :: k in ks ==> k in e
    requires id in e
    ensures Unsent(ks, e[id := e[id].(state := Sent)]) <= Unsent(ks, e)
    ensures id in ks && !e[id].state.Sent? ==> Unsent(ks, e[id := e[id].(state := Sent)]) < Unsent(ks, e)
  {
    if ks != [] {
      UnsentMark(ks[1..], e, id);
    }
  }

  /** A write that changed the map marked an unsent entry sent, so fewer entries are unsent. */
  lemma MarkChanged(m: OMap<string, PendingCharacter>, id: string)
    requires m.Valid()
    ensures Unsent(WithState(m, id, Sent).keys, WithState(m, id, Sent).entries) <= Unsent(m.keys, m.entries)
    ensures WithState(m, id, Sent) != m ==>
              Unsent(WithState(m, id, Sent).keys, WithState(m, id, Sent).entries) < Unsent(m.keys, m.entries)
  {
    if m.Has(id) {
      UnsentMark(m.keys, m.entries, id);
      if !m.entries[id].state.Sent? {
        assert id in m.keys;
      } else {
        assert m.entries[id].(state := Sent) == m.entries[id];
        assert m.entries[id := m.entries[id]] == m.entries;
      }
    }
  }

  /**
   * The subscriber called with the map `cur` (jotai calls it synchronously
   * from inside every `store.set` that changes the map): a pass over a
   * snapshot of `cur`. Yields the ids whose create starts, in order, and the
   * map at the end.
   */
  function Notified(cur: OMap<string, PendingCharacter>, signedIn: bool): (r: (seq<string>, OMap<string, PendingCharacter>))
    requires cur.Valid()
    ensures r.1.Valid() && r.1.keys == cur.keys
    ensures Unsent(r.1.keys, r.1.entries) <= Unsent(cur.keys, cur.entries)
    decreases Unsent(cur.keys, cur.entries), |cur.keys| + 1
  {
    PassFrom(cur.Values(), 0, cur, signedIn)
  }

  /**
   * The rest of a pass from snapshot entry `i`, with `cur` the live map:
   * the state test reads the snapshot, the write marking an entry sent runs
   * the subscriber again (when it changes the map) before that entry's
   * create starts.
   */
  function PassFrom(vs: seq<PendingCharacter>, i: nat, cur: OMap<string, PendingCharacter>, signedIn: bool)
    : (r: (seq<string>, OMap<string, PendingCharacter>))
    requires cur.Valid() && i <= |vs|
    ensures r.1.Valid() && r.1.keys == cur.keys
    ensures Unsent(r.1.keys, r.1.entries) <= Unsent(cur.keys, cur.entries)
    decreases Unsent(cur.keys, cur.entries), |vs| - i
  {
    if i == |vs| then ([], cur)
    else if !vs[i].state.Pending? then PassFrom(vs, i + 1, cur, signedIn)
    else if !signedIn then ([], cur)
    else
      var next := WithState(cur, vs[i].id, Sent);
      MarkChanged(cur, vs[i].id);
      var inner := if next != cur then Notified(next, signedIn) else ([], next);
      var rest := PassFrom(vs, i + 1, inner.1, signedIn);
      (inner.0 + [vs[i].id] + rest.0, rest.1)
  }

  lemma Regroup(a: seq<string>, b: seq<string>, c: seq<string>)
    ensures a + (b + c) == (a + b) + c
  {
  }

  lemma PassSkip(vs: seq<PendingCharacter>, i: nat, cur: OMap<string, PendingCharacter>, signedIn: bool)
    requires cur.Valid() && i < |vs| && !vs[i].state.Pending?
    ensures PassFrom(vs, i, cur, signedIn) == PassFrom(vs, i + 1, cur, signedIn)
  {
  }

  /** A pending entry of the snapshot: the re-entered subscriber's starts, then this entry's, then the rest of the pass. */
  lemma PassSend(vs: seq<PendingCharacter>, i: nat, cur: OMap<string, PendingCharacter>,
                 inner: (seq<string>, OMap<string, PendingCharacter>))
    requires cur.Valid() && i < |vs| && vs[i].state.Pending?
    requires var next := WithState(cur, vs[i].id, Sent);
      inner == if next != cur then Notified(next, true) else ([], next)
    ensures inner.1.Valid()
    ensures PassFrom(vs, i, cur, true) ==
              (inner.0 + [vs[i].id] + PassFrom(vs, i + 1, inner.1, true).0, PassFrom(vs, i + 1, inner.1, true).1)
  {
  }

  /**
   * The subscriber's loop invariant: the pass begun on `p0` has started
   * `started` and reached snapshot entry `i` with the live map `cur`, and
   * finishing from there completes the whole notification.
   */
  ghost predicate PassInv(p0: OMap<string, PendingCharacter>, vs: seq<PendingCharacter>, i: nat,
                          cur: OMap<string, PendingCharacter>, started: seq<string>, signedIn: bool)
  {
    p0.Valid() && cur.Valid() && i <= |vs| && cur.keys == p0.keys &&
    Unsent(cur.keys, cur.entries) <= Unsent(p0.keys, p0.entries) &&
    Notified(p0, signedIn).0 == started + PassFrom(vs, i, cur, signedIn).0 &&
    Notified(p0, signedIn).1 == PassFrom(vs, i, cur, signedIn).1
  }

  lemma PassInvStart(p0: OMap<string, PendingCharacter>, signedIn: bool)
    requires p0.Valid()
    ensures PassInv(p0, p0.Values(), 0, p0, [], signedIn)
  {
    assert [] + PassFrom(p0.Values(), 0, p0, signedIn).0 == PassFrom(p0.Values(), 0, p0, signedIn).0;
  }

  /** At the end of the snapshot, or at a pending entry with nobody signed in, the pass is complete. */
  lemma PassInvStop(p0: OMap<string, PendingCharacter>, vs: seq<PendingCharacter>, i: nat,
                    cur: OMap<string, PendingCharacter>, started: seq<string>, signedIn: bool)
    requires PassInv(p0, vs, i, cur, started, signedIn)
    requires i == |vs| || (vs[i].state.Pending? && !signedIn)
    ensures (started, cur) == Notified(p0, signedIn)
  {
    assert PassFrom(vs, i, cur, signedIn) == ([], cur);
    assert started + [] == started;
  }

  /** A snapshot entry that is not pending is passed over. */
  lemma SkipKeeps(p0: OMap<string, PendingCharacter>, vs: seq<PendingCharacter>, i: nat,
                  cur: OMap<string, PendingCharacter>, started: seq<string>, signedIn: bool)
    requires PassInv(p0, vs, i, cur, started, signedIn) && i < |vs| && !vs[i].state.Pending?
    ensures PassInv(p0, vs, i + 1, cur, started, signedIn)
  {
    PassSkip(vs, i, cur, signedIn);
  }

  /** The subscriber's loop invariant survives one pending entry of the snapshot. */
  lemma SendKeeps(p0: OMap<string, PendingCharacter>, vs: seq<PendingCharacter>, i: nat,
                  before: OMap<string, PendingCharacter>, inner: seq<string>, after: OMap<string, PendingCharacter>,
                  started: seq<string>)
    requires PassInv(p0, vs, i, before, started, true) && i < |vs| && vs[i].state.Pending?
    requires var next := WithState(before, vs[i].id, Sent);
      (inner, after) == if next != before then Notified(next, true) else ([], next)
    ensures PassInv(p0, vs, i + 1, after, started + (inner + [vs[i].id]), true)
  {
    MarkChanged(before, vs[i].id);
    PassSend(vs, i, before, (inner, after));
    Regroup(started, inner + [vs[i].id], PassFrom(vs, i + 1, after, true).0);
  }

  /** Two fresh entries `a` and `b`, both pending. */
  function TwoPending(): (m: OMap<string, PendingCharacter>)
    ensures m.Valid()
  {
    OMap(["a", "b"], map["a" := PendingCharacter("a", "c1", 1, Pending), "b" := PendingCharacter("b", "c2", 2, Pending)])
  }

  /**
   * With two pending entries the second is created twice: marking `a` sent
   * re-enters the subscriber, which starts `b`; the outer pass then still
   * sees `b` pending in its snapshot and starts it again.
   */
  lemma SecondPendingSentTwice()
    ensures Notified(TwoPending(), true).0 == ["b", "a", "b"]
  {
    var m := TwoPending();
    var m1 := WithState(m, "a", Sent);
    var m2 := WithState(m1, "b", Sent);
    ReenteredPass(m1, m2);
    OuterPassRest(m, m2);
    var vs := m.Values();
    assert vs[0] == m.entries["a"] && vs[0].state.Pending?;
    assert m1.entries["a"] != m.entries["a"];
    PassSend(vs, 0, m, (["b"], m2));
    assert vs[0].id == "a" && ["b"] + ["a"] + ["b"] == ["b", "a", "b"];
  }

  /** The subscriber re-entered after `a` is marked: it finds `b` pending, marks it and starts it. */
  lemma ReenteredPass(m1: OMap<string, PendingCharacter>, m2: OMap<string, PendingCharacter>)
    requires m1 == WithState(TwoPending(), "a", Sent) && m2 == WithState(m1, "b", Sent)
    ensures Notified(m1, true) == (["b"], m2)
  {
    var vs1 := m1.Values();
    assert vs1[0].state.Sent? && vs1[1] == m1.entries["b"] && vs1[1].state.Pending?;
    PassSkip(vs1, 0, m1, true);
    assert m2.entries["b"] != m1.entries["b"];
    SettledPass(m2);
    PassSend(vs1, 1, m1, ([], m2));
    assert PassFrom(vs1, 2, m2, true) == ([], m2);
    assert vs1[1].id == "b" && [] + ["b"] + [] == ["b"];
  }

  /** Once both entries are sent, a further notification starts nothing. */
  lemma SettledPass(m2: OMap<string, PendingCharacter>)
    requires m2 == WithState(WithState(TwoPending(), "a", Sent), "b", Sent)
    ensures Notified(m2, true) == ([], m2)
  {
    var vs2 := m2.Values();
    assert vs2[0].state.Sent? && vs2[1].state.Sent?;
    PassSkip(vs2, 0, m2, true);
    PassSkip(vs2, 1, m2, true);
  }

  /** Back in the outer pass, `b` is still pending in its snapshot: the write changes nothing and `b` starts again. */
  lemma OuterPassRest(m: OMap<string, PendingCharacter>, m2: OMap<string, PendingCharacter>)
    requires m == TwoPending() && m2 == WithState(WithState(m, "a", Sent), "b", Sent)
    ensures PassFrom(m.Values(), 1, m2, true) == (["b"], m2)
  {
    var vs := m.Values();
    assert vs[1] == m.entries["b"] && vs[1].state.Pending?;
    assert m2.entries["b"].state.Sent?;
    assert m2.entries["b"].(state := Sent) == m2.entries["b"];
    assert m2.entries["b" := m2.entries["b"]] == m2.entries;
    assert WithState(m2, "b", Sent) == m2;
    PassSend(vs, 1, m2, ([], m2));
    assert PassFrom(vs, 2, m2, true) == ([], m2);
    assert vs[1].id == "b" && [] + ["b"] + [] == ["b"];
  }

  /** `pendingCharacterPlansMapAtom`. */
  class PendingPlans {
    var plans: OMap<string, PendingCharacter>

    /** The map is well formed and every entry is stored under its own id. */
    ghost predicate Valid()
      reads this
    {
      plans.Valid() && forall k :: k in plans.entries ==> plans.entries[k].id == k
    }

    constructor()
      ensures Valid() && plans == EmptyMap()
    {
      plans := EmptyMap();
    }

    /**
     * `addNewCharacterPlanAtom` with `now` the temporary id: ordered after the
     * committed plans and the entries already in the map, in state pending.
     */
    method Add(now: string, characterId: string, committedCount: nat)
      requires Valid()
      modifies this
      ensures Valid()
      ensures plans == old(plans).Set(now, PendingCharacter(now, characterId, committedCount + old(plans).Size() + 1, Pending))
    {
      plans := plans.Set(now, PendingCharacter(now, characterId, committedCount + plans.Size() + 1, Pending));
    }

    /** One state write of the subscriber or of the retry action. */
    method SetState(id: string, st: SendState)
      requires Valid()
      modifies this
      ensures Valid()
      ensures plans == WithState(old(plans), id, st)
    {
      plans := WithState(plans, id, st);
    }

    /**
     * The subscriber as evidently intended: one pass over the entries in
     * which the pass's own writes do not run it again. The pending entries
     * are marked sent in order and each one's create starts exactly once;
     * no other entry changes.
     */
    method Process(signedIn: bool) returns (started: seq<string>)
      requires Valid()
      modifies this
      ensures Valid()
      ensures started == ToSend(old(plans).Values(), signedIn)
      ensures Lists.Distinct(started)
      ensures plans.keys == old(plans).keys
      ensures plans.entries == MarkedSent(old(plans).entries, started)
    {
      started, plans := MarkPending(plans, signedIn);
    }

    /**
     * The subscriber as written: a loop over a snapshot of the map in which
     * each write marking an entry sent runs the subscriber again, before that
     * entry's create starts, whenever the write changed the map.
     */
    method Notify(signedIn: bool) returns (started: seq<string>)
      requires Valid()
      modifies this
      ensures Valid()
      ensures started == Notified(old(plans), signedIn).0
      ensures plans == Notified(old(plans), signedIn).1
      decreases Unsent(plans.keys, plans.entries), 1
    {
      var vs := plans.Values();
      ghost var p0 := plans;
      started := [];
      var i := 0;
      PassInvStart(p0, signedIn);
      while i < |vs|
        invariant Valid() && PassInv(p0, vs, i, plans, started, signedIn)
      {
        var p := vs[i];
        if !p.state.Pending? {
          SkipKeeps(p0, vs, i, plans, started, signedIn);
          i := i + 1;
          continue;
        }
        if !signedIn {
          break;
        }
        ghost var before := plans;
        var inner := MarkSent(p.id);
        SendKeeps(p0, vs, i, before, inner, plans, started);
        started := started + (inner + [p.id]);
        i := i + 1;
      }
      PassInvStop(p0, vs, i, plans, started, signedIn);
    }

    /**
     * `store.set` marking entry `id` sent: when the write changed the map, the
     * subscriber runs again before the set returns; yields the ids it started.
     */
    method MarkSent(id: string) returns (inner: seq<string>)
      requires Valid()
      modifies this
      ensures Valid()
      ensures var next := WithState(old(plans), id, Sent);
        (inner, plans) == if next != old(plans) then Notified(next, true) else ([], next)
      decreases Unsent(plans.keys, plans.entries), 0
    {
      MarkChanged(plans, id);
      var before := plans;
      SetState(id, Sent);
      inner := [];
      if plans != before {
        inner := Notify(true);
      }
    }

    /**
     * The end of one create run for entry `id`, request `i` settling as
     * `attempt(i)`: every failure is retried, a creation deletes the entry and
     * yields the created plan's id, and running out of retries marks it failed.
     */
    method Settle(id: string, attempt: nat -> Attempt, i: nat, retries: nat) returns (created: Option<string>)
      requires Valid() && retries <= MAX_RETRIES
      modifies this
      ensures Valid()
      ensures TryCreate(attempt, false, i, retries).0.Ready? ==>
                created == Some(TryCreate(attempt, false, i, retries).0.id) && plans == old(plans).Delete(id)
      ensures !TryCreate(attempt, false, i, retries).0.Ready? ==>
                created == None && plans == WithState(old(plans), id, Failed)
    {
      var end := TryCreate(attempt, false, i, retries).0;
      TryCreateOutcome(attempt, false, i, retries);
      if end.Ready? {
        plans := plans.Delete(id);
        created := Some(end.id);
      } else {
        plans := WithState(plans, id, Failed);
        created := None;
      }
    }

    /** The toast's retry action: a failed entry goes back to pending, and the next pass sends it again. */
    method RetryAction(id: string)
      requires Valid()
      modifies this
      ensures Valid()
      ensures plans == WithState(old(plans), id, Pending)
    {
      plans := WithState(plans, id, Pending);
    }
  }

  /**
   * After a failed create and the retry action, a signed-in pass starts that
   * entry again.
   */
  lemma RetriedEntryIsResent(m: OMap<string, PendingCharacter>, id: string)
    requires m.Valid() && m.Has(id) && m.entries[id].id == id
    ensures id in ToSend(WithState(WithState(m, id, Failed), id, Pending).Values(), true)
  {
    var r := WithState(WithState(m, id, Failed), id, Pending);
    var vs := r.Values();
    var i :| 0 <= i < |m.keys| && m.keys[i] == id;
    assert vs[i] == r.entries[id];
    ToSendMeaning(vs, |vs|, id);
  }
}
