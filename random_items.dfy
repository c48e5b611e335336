/**
 * `getRandomItems` of the home page: draws random positions of an array until
 * it holds `count` items that pass the filter or every position is picked.
 * `Math.random` is an oracle `draw`: the k-th draw lands on position
 * `draw(k) % n` of an array of length n. The loop is modelled with a bound
 * on the number of draws, because as written it need not end.
 */
module RandomItems {
  import opened Wrappers
  import opened Lists

  /** Whether an item passes the optional filter. */
  predicate Passes<T>(filter: Option<T -> bool>, x: T) {
    filter.None? || filter.value(x)
  }

  /** The result so far and the picked positions, in the order a JS `Set` keeps them. */
  datatype State<T> = State(result: seq<T>, picked: seq<nat>)

  /** The loop condition: `picked.size` is the length of the duplicate-free `picked`. */
  predicate Looping<T>(items: seq<T>, count: nat, st: State<T>) {
    |st.result| < count && |st.picked| < |items|
  }

  /** One iteration: an unpicked position whose item passes is picked and its item pushed. */
  function Step<T>(items: seq<T>, filter: Option<T -> bool>, draw: nat -> nat, k: nat, st: State<T>): State<T>
    requires |items| > 0
  {
    var i := draw(k) % |items|;
    if i !in st.picked && Passes(filter, items[i]) then State(st.result + [items[i]], st.picked + [i])
    else st
  }

  /** The state after the loop from draw `k` on, stopping after `fuel` draws at the latest. */
  function Run<T>(items: seq<T>, count: nat, filter: Option<T -> bool>, draw: nat -> nat, k: nat, fuel: nat,
                  st: State<T>): State<T>
    decreases fuel
  {
    if fuel == 0 || !Looping(items, count, st) then st
    else Run(items, count, filter, draw, k + 1, fuel - 1, Step(items, filter, draw, k, st))
  }

  /** The loop's invariant: every picked position is in range, picked once, and its item passes and is pushed. */
  ghost predicate Inv<T>(items: seq<T>, count: nat, filter: Option<T -> bool>, st: State<T>) {
    |st.result| == |st.picked| && |st.result| <= count && Distinct(st.picked) &&
    forall j :: 0 <= j < |st.picked| ==>
      st.picked[j] < |items| && st.result[j] == items[st.picked[j]] && Passes(filter, st.result[j])
  }

  lemma StepKeepsInv<T>(items: seq<T>, count: nat, filter: Option<T -> bool>, draw: nat -> nat, k: nat, st: State<T>)
    requires Inv(items, count, filter, st) && Looping(items, count, st)
    ensures Inv(items, count, filter, Step(items, filter, draw, k, st))
  {
  }

  lemma {:induction false} RunKeepsInv<T>(items: seq<T>, count: nat, filter: Option<T -> bool>, draw: nat -> nat,
                                          k: nat, fuel: nat, st: State<T>)
    requires Inv(items, count, filter, st)
    ensures Inv(items, count, filter, Run(items, count, filter, draw, k, fuel, st))
    decreases fuel
  {
    if fuel > 0 && Looping(items, count, st) {
      StepKeepsInv(items, count, filter, draw, k, st);
      RunKeepsInv(items, count, filter, draw, k + 1, fuel - 1, Step(items, filter, draw, k, st));
    }
  }

  /**
   * The loop as written, stopped after `fuel` draws; `finished` says whether
   * the loop condition turned false within them.
   */
  method GetRandomItems<T>(items: seq<T>, count: nat, filter: Option<T -> bool>, draw: nat -> nat, fuel: nat)
    returns (result: seq<T>, finished: bool)
    ensures var st := Run(items, count, filter, draw, 0, fuel, State([], []));
            result == st.result && finished == !Looping(items, count, st)
  {
    result := [];
    var picked: seq<nat> := [];
    var k := 0;
    while k < fuel && |result| < count && |picked| < |items|
      invariant k <= fuel
      invariant Run(items, count, filter, draw, 0, fuel, State([], []))
                == Run(items, count, filter, draw, k, fuel - k, State(result, picked))
      decreases fuel - k
    {
      var i := draw(k) % |items|;
      if i !in picked && Passes(filter, items[i]) {
        picked := picked + [i];
        result := result + [items[i]];
      }
      k := k + 1;
    }
    finished := !(|result| < count && |picked| < |items|);
  }

  /**
   * What the loop promises whenever it ends: at most `count` items and at most
   * one per position, so no more than the array holds, each passing the filter.
   */
  lemma RandomItemsMeaning<T>(items: seq<T>, count: nat, filter: Option<T -> bool>, draw: nat -> nat, fuel: nat)
    ensures var st := Run(items, count, filter, draw, 0, fuel, State([], []));
            |st.result| == |st.picked| && |st.result| <= count && |st.result| <= |items| && Distinct(st.picked) &&
            (forall j :: 0 <= j < |st.result| ==>
               st.picked[j] < |items| && st.result[j] == items[st.picked[j]] && Passes(filter, st.result[j]))
  {
    var st := Run(items, count, filter, draw, 0, fuel, State([], []));
    RunKeepsInv(items, count, filter, draw, 0, fuel, State([], []));
    DistinctBelow(st.picked, |items|);
  }

  /** The positions whose items pass the filter. */
  function PassingPositions<T>(items: seq<T>, filter: Option<T -> bool>): (r: set<nat>)
    ensures forall i: nat :: i in r <==> i < |items| && Passes(filter, items[i])
  {
    set i: nat | i < |items| && Passes(filter, items[i])
  }

  /** A duplicate-free sequence drawn from a set is no longer than the set is large. */
  lemma {:induction false} DistinctWithin(s: seq<nat>, bound: set<nat>)
    requires Distinct(s) && forall j :: 0 <= j < |s| ==> s[j] in bound
    ensures |s| <= |bound|
    decreases |s|
  {
    if s != [] {
      var last := s[|s| - 1];
      var init := s[..|s| - 1];
      assert forall j :: 0 <= j < |init| ==> init[j] != last;
      DistinctWithin(init, bound - {last});
    }
  }

  /** The positions below `n`. */
  function Below(n: nat): (r: set<nat>)
    ensures forall i: nat :: i in r <==> i < n
    ensures |r| == n
  {
    if n == 0 then {} else Below(n - 1) + {n - 1}
  }

  /** A duplicate-free sequence of positions below `n` has at most `n` entries. */
  lemma DistinctBelow(s: seq<nat>, n: nat)
    requires Distinct(s) && forall j :: 0 <= j < |s| ==> s[j] < n
    ensures |s| <= n
  {
    DistinctWithin(s, Below(n));
  }

  /**
   * The loop never ends when fewer items pass the filter than `count` asks for
   * and than the array holds: however many draws and whatever they land on,
   * the loop condition still holds.
   */
  lemma {:induction false} StuckWhenTooFewPass<T>(items: seq<T>, count: nat, filter: Option<T -> bool>,
                                                  draw: nat -> nat, fuel: nat)
    requires |PassingPositions(items, filter)| < count && |PassingPositions(items, filter)| < |items|
    ensures Looping(items, count, Run(items, count, filter, draw, 0, fuel, State([], [])))
  {
    var st := Run(items, count, filter, draw, 0, fuel, State([], []));
    RunKeepsInv(items, count, filter, draw, 0, fuel, State([], []));
    DistinctWithin(st.picked, PassingPositions(items, filter));
  }

  /** Two weapons of which only the first passes, and two asked for: no number of draws ends the loop. */
  lemma HomePageWeaponsStuck(draw: nat -> nat, fuel: nat)
    ensures var filter := Some((w: int) => w == 1);
            Looping([1, 2], 2, Run([1, 2], 2, filter, draw, 0, fuel, State([], [])))
  {
    var filter := Some((w: int) => w == 1);
    assert PassingPositions([1, 2], filter) == {0} by {
      assert Passes(filter, [1, 2][0]) && !Passes(filter, [1, 2][1]);
    }
    StuckWhenTooFewPass([1, 2], 2, filter, draw, fuel);
  }

  /**
   * The evidently intended loop: each draw takes one of the positions not yet
   * tried, so it ends after at most n draws, with `count` items or with
   * every item that passes.
   */
  method PickRandomItems<T>(items: seq<T>, count: nat, filter: Option<T -> bool>, draw: nat -> nat)
    returns (result: seq<T>, picked: seq<nat>)
    ensures |result| == |picked| && |result| <= count && Distinct(picked)
    ensures forall j :: 0 <= j < |picked| ==>
              picked[j] < |items| && result[j] == items[picked[j]] && Passes(filter, result[j])
    ensures |result| == count || forall i :: i in PassingPositions(items, filter) ==> i in picked
  {
    result := [];
    picked := [];
    var untried: seq<nat> := seq(|items|, i requires 0 <= i < |items| => i);
    var k := 0;
    assert forall i :: i in PassingPositions(items, filter) ==> untried[i] == i;
    while |result| < count && |untried| > 0
      invariant |result| == |picked| && |result| <= count && Distinct(picked) && Distinct(untried)
      invariant forall j :: 0 <= j < |picked| ==>
                  picked[j] < |items| && result[j] == items[picked[j]] && Passes(filter, result[j])
      invariant forall j :: 0 <= j < |untried| ==> untried[j] < |items| && untried[j] !in picked
      invariant forall i :: i in PassingPositions(items, filter) ==> i in picked || i in untried
      decreases |untried|
    {
      var j := draw(k) % |untried|;
      var i := untried[j];
      untried := RemoveAt(untried, j);
      if Passes(filter, items[i]) {
        picked := picked + [i];
        result := result + [items[i]];
      }
      k := k + 1;
    }
  }
}
