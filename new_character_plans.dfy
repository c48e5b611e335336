/**
 * The store of new builds waiting to be created on the server. Each pending
 * build is an object the store compares by reference: `planReady` removes
 * that object, and the set of objects already sent keeps a build from being
 * sent twice when the store changes again.
 */
module NewCharacterPlansStore {
  import opened Wrappers
  import opened Lists
  import opened PlanCreation

  /** A pending build. Its id is `String(n)` for the counter value `n` it was created with. */
  class PendingCharacter {
    const id: nat
    const characterId: string
    const order: int

    constructor(id: nat, characterId: string, order: int)
      ensures this.id == id && this.characterId == characterId && this.order == order
    {
      this.id := id;
      this.characterId := characterId;
      this.order := order;
    }
  }

  function IsNot(p: PendingCharacter): PendingCharacter -> bool {
    (q: PendingCharacter) => q != p
  }

  /** The list without that object, the others in order. */
  function Without(s: seq<PendingCharacter>, p: PendingCharacter): (r: seq<PendingCharacter>)
    ensures |r| <= |s|
    ensures forall i :: 0 <= i < |r| ==> r[i] in s && r[i] != p
    ensures forall i :: 0 <= i < |s| && s[i] != p ==> s[i] in r
  {
    Lists.Filter(s, IsNot(p))
  }

  /** Removing an object just appended, and not listed before, gives back the list. */
  lemma {:induction false} WithoutUndoesAppend(s: seq<PendingCharacter>, p: PendingCharacter)
    requires p !in s
    ensures Without(s + [p], p) == s
  {
    if s == [] {
      assert [p][1..] == [];
    } else {
      assert (s + [p])[0] == s[0] && (s + [p])[1..] == s[1..] + [p];
      WithoutUndoesAppend(s[1..], p);
      assert s == [s[0]] + s[1..];
    }
  }

  /**
   * The builds one run of `createPlans` starts, in list order: those not sent
   * yet, each added to `sent` as it starts; with nobody signed in the run
   * stops at the first unsent build and starts none.
   */
  function ToStart(plans: seq<PendingCharacter>, sent: set<PendingCharacter>, signedIn: bool): seq<PendingCharacter> {
    if plans == [] then []
    else if plans[0] in sent then ToStart(plans[1..], sent, signedIn)
    else if !signedIn then []
    else [plans[0]] + ToStart(plans[1..], sent + {plans[0]}, signedIn)
  }

  /**
   * Signed in, a run starts exactly the listed builds not sent before, each
   * once; signed out it starts none.
   */
  lemma {:induction false} ToStartMeaning(plans: seq<PendingCharacter>, sent: set<PendingCharacter>, signedIn: bool,
                                          p: PendingCharacter)
    ensures !signedIn ==> ToStart(plans, sent, signedIn) == []
    ensures signedIn ==> (p in ToStart(plans, sent, signedIn) <==> p in plans && p !in sent)
    ensures forall i, j :: 0 <= i < j < |ToStart(plans, sent, signedIn)| ==>
              ToStart(plans, sent, signedIn)[i] != ToStart(plans, sent, signedIn)[j]
    ensures forall q :: q in ToStart(plans, sent, signedIn) ==> q !in sent
  {
    if plans != [] {
      var rest := plans[1..];
      if plans[0] in sent {
        ToStartMeaning(rest, sent, signedIn, p);
        assert p in plans <==> p == plans[0] || p in rest;
      } else if signedIn {
        var s2 := sent + {plans[0]};
        ToStartMeaning(rest, s2, signedIn, p);
        var t := ToStart(rest, s2, signedIn);
        assert p in plans <==> p == plans[0] || p in rest;
        assert ToStart(plans, sent, signedIn) == [plans[0]] + t;
        forall q | q in t
          ensures q != plans[0] && q !in sent
        {
          ToStartMeaning(rest, s2, signedIn, q);
        }
      }
    }
  }

  /** `newCharacterPlans`: the pending builds, the objects already sent, and the id counter. */
  class NewCharacterPlans {
    var characterPlans: seq<PendingCharacter>
    var sentPlans: set<PendingCharacter>
    var latestId: nat

    constructor()
      ensures characterPlans == [] && sentPlans == {} && latestId == 0
    {
      characterPlans := [];
      sentPlans := {};
      latestId := 0;
    }

    /** `addNew`: the next id, ordered after the page's builds and the builds already pending. */
    method AddNew(characterId: string, itemsCount: int) returns (p: PendingCharacter)
      modifies this
      ensures fresh(p)
      ensures latestId == old(latestId) + 1
      ensures characterPlans == old(characterPlans) + [p]
      ensures p.id == latestId && p.characterId == characterId && p.order == itemsCount + |old(characterPlans)| + 1
      ensures sentPlans == old(sentPlans)
    {
      var newId := latestId + 1;
      p := new PendingCharacter(newId, characterId, itemsCount + |characterPlans| + 1);
      latestId := newId;
      characterPlans := characterPlans + [p];
    }

    /** `planReady`: that object leaves the list and the sent set; the others keep their order. */
    method PlanReady(p: PendingCharacter)
      modifies this
      ensures sentPlans == old(sentPlans) - {p}
      ensures characterPlans == Without(old(characterPlans), p)
      ensures latestId == old(latestId)
    {
      sentPlans := sentPlans - {p};
      characterPlans := Lists.Filter(characterPlans, IsNot(p));
    }

    /** The sign-out subscription: the counter and the list are reset; the sent set is kept. */
    method SignedOut()
      modifies this
      ensures latestId == 0 && characterPlans == [] && sentPlans == old(sentPlans)
    {
      latestId := 0;
      characterPlans := [];
    }

    /**
     * `createPlans`: walk the list, skip the builds already sent, stop at the
     * first other one when nobody is signed in, else mark it sent and start
     * its create. Returns the builds whose create it started.
     */
    method CreatePlans(signedIn: bool) returns (started: seq<PendingCharacter>)
      modifies this
      ensures started == ToStart(old(characterPlans), old(sentPlans), signedIn)
      ensures sentPlans == old(sentPlans) + set p | p in started
      ensures characterPlans == old(characterPlans) && latestId == old(latestId)
    {
      started := [];
      var i := 0;
      while i < |characterPlans|
        invariant 0 <= i <= |characterPlans|
        invariant characterPlans == old(characterPlans) && latestId == old(latestId)
        invariant sentPlans == old(sentPlans) + set p | p in started
        invariant started + ToStart(characterPlans[i..], sentPlans, signedIn)
                  == ToStart(old(characterPlans), old(sentPlans), signedIn)
      {
        var p := characterPlans[i];
        assert characterPlans[i..] == [p] + characterPlans[i + 1..];
        if p in sentPlans {
          i := i + 1;
          continue;
        }
        if !signedIn {
          return;
        }
        sentPlans := sentPlans + {p};
        started := started + [p];
        i := i + 1;
      }
    }
  }

  /**
   * One run of `try_create` for a started build, request `i` settling as
   * `attempt(i)` and `retries` retries spent (0 at the start and after the
   * manual retry): a creation marks the build ready; any other end, a
   * non-response error or a run out of retries, leaves the store as it was.
   */
  method RunCreate(store: NewCharacterPlans, p: PendingCharacter, attempt: nat -> Attempt, i: nat, retries: nat)
    returns (end: CreateEnd)
    requires retries <= MAX_RETRIES
    modifies store
    ensures end == TryCreate(attempt, true, i, retries).0
    ensures end.Ready? ==> store.characterPlans == Without(old(store.characterPlans), p) &&
                           store.sentPlans == old(store.sentPlans) - {p}
    ensures !end.Ready? ==> store.characterPlans == old(store.characterPlans) &&
                            store.sentPlans == old(store.sentPlans)
    ensures store.latestId == old(store.latestId)
  {
    end := TryCreate(attempt, true, i, retries).0;
    if end.Ready? {
      store.PlanReady(p);
    }
  }

  /** Adding a build and then marking it ready leaves the list as it was. */
  method AddThenReady(store: NewCharacterPlans, characterId: string, itemsCount: int)
    modifies store
    ensures store.characterPlans == old(store.characterPlans)
    ensures store.latestId == old(store.latestId) + 1
  {
    var p := store.AddNew(characterId, itemsCount);
    WithoutUndoesAppend(old(store.characterPlans), p);
    store.PlanReady(p);
  }
}
