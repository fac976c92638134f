/** Paying the allocations of a target channel from a guarantee that a source channel holds for it. */
module Claim {
  import opened Waterfall
  import opened Transfer

  /** The number of guarantee allocations in the exit format. */
  const GUARANTEE := 2

  datatype ClaimError = NoSuchAllocation | NotAGuarantee | BadGuaranteeData

  datatype ClaimResult =
    | Claimed(newSourceAllocations: seq<Allocation>, newTargetAllocations: seq<Allocation>,
              exitAllocations: seq<Allocation>, totalPayouts: nat)
    | Failed(error: ClaimError)

  /** The first allocation to the given destination, -1 if there is none. */
  function FindDestination(allocations: seq<Allocation>, destination: nat): (k: int)
    ensures -1 <= k < |allocations|
    ensures k >= 0 ==> allocations[k].destination == destination
    ensures forall i :: 0 <= i < (if k < 0 then |allocations| else k) ==> allocations[i].destination != destination
  {
    if allocations == [] then -1
    else if allocations[0].destination == destination then 0
    else
      var k := FindDestination(allocations[1..], destination);
      assert forall i :: 0 < i < |allocations| ==> allocations[i] == allocations[1..][i - 1];
      if k < 0 then -1 else k + 1
  }

  /** What each target has been paid so far, the funds left, and how many indices have been used. */
  datatype Progress = Progress(paid: seq<nat>, surplus: nat, k: nat)

  predicate Pays(indices: seq<int>, k: nat, i: nat) {
    indices == [] || (k < |indices| && indices[k] == i)
  }

  /** One guaranteed destination takes what it needs of the funds, whether it is to be paid now or not. */
  function ClaimStep(targets: seq<Allocation>, indices: seq<int>, destination: nat, st: Progress): (r: Progress)
    requires Within(st.paid, Amounts(targets))
    ensures Within(r.paid, Amounts(targets)) && Sum(r.paid) + r.surplus <= Sum(st.paid) + st.surplus
    ensures r.surplus <= st.surplus
  {
    var i := FindDestination(targets, destination);
    if st.surplus == 0 || i < 0 then st
    else
      var affords := Min(targets[i].amount - st.paid[i], st.surplus);
      if Pays(indices, st.k, i) then
        SumUpdate(st.paid, i, st.paid[i] + affords);
        Progress(st.paid[i := st.paid[i] + affords], st.surplus - affords, st.k + 1)
      else
        st.(surplus := st.surplus - affords)
  }

  function ClaimAll(targets: seq<Allocation>, indices: seq<int>, destinations: seq<nat>, st: Progress): (r: Progress)
    requires Within(st.paid, Amounts(targets))
    ensures Within(r.paid, Amounts(targets)) && Sum(r.paid) + r.surplus <= Sum(st.paid) + st.surplus
  {
    if destinations == [] then st
    else
      var last := |destinations| - 1;
      ClaimStep(targets, indices, destinations[last], ClaimAll(targets, indices, destinations[..last], st))
  }

  function Zeros(n: nat): (r: seq<nat>)
    ensures |r| == n && (forall i :: 0 <= i < n ==> r[i] == 0) && Sum(r) == 0
  {
    var r := seq(n, i => 0);
    SumOfZeros(r);
    r
  }

  /** The funds that the source allocation at idx has. */
  function Funds(holdings: nat, sources: seq<Allocation>, idx: nat): (f: nat)
    requires idx < |sources|
    ensures f <= sources[idx].amount
  {
    AffordsSpends(holdings, Amounts(sources));
    Affords(holdings, Amounts(sources))[idx]
  }

  /** The source and target allocations and the exits, once the targets have been paid. */
  function PaidOut(sources: seq<Allocation>, targets: seq<Allocation>, idx: nat, paid: seq<nat>): ClaimResult
    requires idx < |sources| && Within(paid, Amounts(targets)) && Sum(paid) <= sources[idx].amount
  {
    Claimed(sources[idx := sources[idx].(amount := sources[idx].amount - Sum(paid))],
            WithAmounts(targets, Minus(Amounts(targets), paid)),
            WithAmounts(targets, paid),
            Sum(paid))
  }

  function Claiming(holdings: nat, sources: seq<Allocation>, targets: seq<Allocation>, idx: int, indices: seq<int>)
    : ClaimResult
  {
    if !(0 <= idx < |sources|) then Failed(NoSuchAllocation)
    else if sources[idx].allocationType != GUARANTEE then Failed(NotAGuarantee)
    else if !sources[idx].metadata.Guarantees? then Failed(BadGuaranteeData)
    else
      var st := Progress(Zeros(|targets|), Funds(holdings, sources, idx), 0);
      PaidOut(sources, targets, idx, ClaimAll(targets, indices, sources[idx].metadata.destinations, st).paid)
  }

  // ----- the computation as it is written -----

  /** What the allocations before idx leave of the holdings; no funds are left where this stops early. */
  method ComputeFunds(holdings: nat, sources: seq<Allocation>, idx: nat) returns (funds: nat)
    requires idx < |sources|
    ensures funds == Funds(holdings, sources, idx)
    ensures funds == ShareAt(holdings, Amounts(sources), idx)
  {
    AffordsAt(holdings, Amounts(sources), idx);
    var sourceSurplus := holdings;
    var i := 0;
    ghost var w := Affords(holdings, Amounts(sources));
    assert w[0..] == w && Amounts(sources)[0..] == Amounts(sources);
    while i < idx
      invariant i <= idx
      invariant Affords(sourceSurplus, Amounts(sources)[i..]) == w[i..]
    {
      if sourceSurplus == 0 {
        break;
      }
      NextAfforded(sourceSurplus, Amounts(sources), w, i);
      var affordsForDestination := Min(sources[i].amount, sourceSurplus);
      sourceSurplus := sourceSurplus - affordsForDestination;
      i := i + 1;
    }
    if i < idx {
      NothingLeft(Amounts(sources)[i..]);
      assert w[idx] == w[i..][idx - i];
    } else {
      NextAfforded(sourceSurplus, Amounts(sources), w, idx);
    }
    funds := Min(sourceSurplus, sources[idx].amount);
  }

  method ComputeClaim(holdings: nat, sources: seq<Allocation>, targets: seq<Allocation>, idx: int, indices: seq<int>)
    returns (result: ClaimResult)
    ensures result == Claiming(holdings, sources, targets, idx, indices)
    ensures result == Failed(NoSuchAllocation) <==> !(0 <= idx < |sources|)
    ensures result == Failed(NotAGuarantee) <==> 0 <= idx < |sources| && sources[idx].allocationType != 2
    ensures result == Failed(BadGuaranteeData)
            <==> && 0 <= idx < |sources| && sources[idx].allocationType == 2
                 && !sources[idx].metadata.Guarantees?
    ensures result.Claimed?
            <==> && 0 <= idx < |sources| && sources[idx].allocationType == 2
                 && sources[idx].metadata.Guarantees?
  {
    hide Affords, Sum, ClaimStep, ClaimAll, PaidOut, Funds, Within, Reflects, FindDestination;
    if !(0 <= idx < |sources|) {
      return Failed(NoSuchAllocation);
    }
    var totalPayouts: nat := 0;
    var k := 0;
    var newSource, newTarget := sources, targets;
    var exits := new Allocation[|targets|](i requires 0 <= i < |targets| => targets[i].(amount := 0));
    var targetSurplus := ComputeFunds(holdings, sources, idx);
    if sources[idx].allocationType != GUARANTEE {
      return Failed(NotAGuarantee);
    }
    if !sources[idx].metadata.Guarantees? {
      return Failed(BadGuaranteeData);
    }
    var destinations := sources[idx].metadata.destinations;
    ghost var start := Progress(Zeros(|targets|), targetSurplus, 0);
    ghost var st := start;
    NothingPaid(sources, targets, idx, exits[..]);
    NothingClaimed(targets, indices, destinations, start);
    var j := 0;
    while j < |destinations|
      invariant j <= |destinations|
      invariant Within(st.paid, Amounts(targets)) && Sum(st.paid) + st.surplus <= sources[idx].amount
      invariant st == ClaimAll(targets, indices, destinations[..j], start)
      invariant st.surplus == targetSurplus && st.k == k
      invariant Reflects(sources, targets, idx, st.paid, newSource, newTarget, exits[..], totalPayouts)
    {
      if targetSurplus == 0 {
        break;
      }
      ghost var next := ClaimStep(targets, indices, destinations[j], st);
      NextDestination(targets, indices, destinations, start, j);
      ReflectsLengths(sources, targets, idx, st.paid, newSource, newTarget, exits[..], totalPayouts);
      var i := 0;
      while i < |newTarget|
        invariant i <= |targets| == |newTarget|
        invariant forall q :: 0 <= q < i ==> targets[q].destination != destinations[j]
        invariant st.surplus == targetSurplus && st.k == k
        invariant Reflects(sources, targets, idx, st.paid, newSource, newTarget, exits[..], totalPayouts)
      {
        if targetSurplus == 0 {
          break;
        }
        ReflectsAt(sources, targets, idx, st.paid, newSource, newTarget, exits[..], totalPayouts, i);
        if destinations[j] == newTarget[i].destination {
          var affordsForDestination := Min(newTarget[i].amount, targetSurplus);
          StepFinds(targets, indices, destinations[j], st, i);
          targetSurplus := targetSurplus - affordsForDestination;
          if |indices| == 0 || (k < |indices| && indices[k] == i) {
            PayNext(sources, targets, idx, st.paid, newSource, newTarget, exits[..], totalPayouts, i, affordsForDestination);
            ghost var exitsBefore := exits[..];
            newTarget := newTarget[i := newTarget[i].(amount := newTarget[i].amount - affordsForDestination)];
            newSource := newSource[idx := newSource[idx].(amount := newSource[idx].amount - affordsForDestination)];
            exits[i] := exits[i].(amount := exits[i].amount + affordsForDestination);
            assert exits[..] == exitsBefore[i := exitsBefore[i].(amount := exitsBefore[i].amount + affordsForDestination)];
            totalPayouts := totalPayouts + affordsForDestination;
            k := k + 1;
          }
          break;
        }
        i := i + 1;
      }
      if i == |newTarget| {
        StepMisses(targets, indices, destinations[j], st);
      }
      j := j + 1;
      st := next;
    }
    if j < |destinations| {
      IdleWithoutFunds(targets, indices, destinations, start, j);
    }
    assert destinations[..|destinations|] == destinations;
    result := Claimed(newSource, newTarget, exits[..], totalPayouts);
    AllPaidOut(sources, targets, idx, st.paid, result);
  }

  /** The variables of the computation, once the targets have been paid. */
  ghost predicate Reflects(sources: seq<Allocation>, targets: seq<Allocation>, idx: nat, paid: seq<nat>,
                           newSource: seq<Allocation>, newTarget: seq<Allocation>, exits: seq<Allocation>,
                           totalPayouts: nat)
    requires idx < |sources| && Within(paid, Amounts(targets)) && Sum(paid) <= sources[idx].amount
  {
    Claimed(newSource, newTarget, exits, totalPayouts) == PaidOut(sources, targets, idx, paid)
  }

  lemma NothingPaid(sources: seq<Allocation>, targets: seq<Allocation>, idx: nat, exits: seq<Allocation>)
    requires idx < |sources| && |exits| == |targets|
    requires forall i :: 0 <= i < |targets| ==> exits[i] == targets[i].(amount := 0)
    ensures Within(Zeros(|targets|), Amounts(targets))
    ensures Reflects(sources, targets, idx, Zeros(|targets|), sources, targets, exits, 0)
  {
    assert exits == WithAmounts(targets, Zeros(|targets|));
    assert targets == WithAmounts(targets, Minus(Amounts(targets), Zeros(|targets|)));
  }

  lemma ReflectsLengths(sources: seq<Allocation>, targets: seq<Allocation>, idx: nat, paid: seq<nat>,
                        newSource: seq<Allocation>, newTarget: seq<Allocation>, exits: seq<Allocation>,
                        totalPayouts: nat)
    requires idx < |sources| && Within(paid, Amounts(targets)) && Sum(paid) <= sources[idx].amount
    requires Reflects(sources, targets, idx, paid, newSource, newTarget, exits, totalPayouts)
    ensures |newTarget| == |exits| == |targets| && |newSource| == |sources|
  {
  }

  lemma ReflectsAt(sources: seq<Allocation>, targets: seq<Allocation>, idx: nat, paid: seq<nat>,
                   newSource: seq<Allocation>, newTarget: seq<Allocation>, exits: seq<Allocation>,
                   totalPayouts: nat, i: nat)
    requires idx < |sources| && Within(paid, Amounts(targets)) && Sum(paid) <= sources[idx].amount && i < |targets|
    requires Reflects(sources, targets, idx, paid, newSource, newTarget, exits, totalPayouts)
    ensures |newTarget| == |exits| == |targets| && |newSource| == |sources|
    ensures newTarget[i] == targets[i].(amount := targets[i].amount - paid[i])
    ensures newSource[idx].amount == sources[idx].amount - Sum(paid)
    ensures exits[i] == targets[i].(amount := paid[i])
  {
  }

  lemma PayNext(sources: seq<Allocation>, targets: seq<Allocation>, idx: nat, paid: seq<nat>,
                newSource: seq<Allocation>, newTarget: seq<Allocation>, exits: seq<Allocation>,
                totalPayouts: nat, i: nat, affords: nat)
    requires idx < |sources| && Within(paid, Amounts(targets)) && i < |targets|
    requires affords <= targets[i].amount - paid[i] && Sum(paid) + affords <= sources[idx].amount
    requires Reflects(sources, targets, idx, paid, newSource, newTarget, exits, totalPayouts)
    ensures |newTarget| == |exits| == |targets| && |newSource| == |sources|
    ensures affords <= newTarget[i].amount && affords <= newSource[idx].amount
    ensures var paid' := paid[i := paid[i] + affords];
            && Within(paid', Amounts(targets)) && Sum(paid') == Sum(paid) + affords
            && Reflects(sources, targets, idx, paid',
                        newSource[idx := newSource[idx].(amount := newSource[idx].amount - affords)],
                        newTarget[i := newTarget[i].(amount := newTarget[i].amount - affords)],
                        exits[i := exits[i].(amount := exits[i].amount + affords)],
                        totalPayouts + affords)
  {
    hide Amounts, WithAmounts, Minus, Sum;
    var paid' := paid[i := paid[i] + affords];
    SumUpdate(paid, i, paid[i] + affords);
    assert WithAmounts(targets, paid') == exits[i := exits[i].(amount := exits[i].amount + affords)];
    assert WithAmounts(targets, Minus(Amounts(targets), paid'))
        == newTarget[i := newTarget[i].(amount := newTarget[i].amount - affords)];
  }

  lemma StepFinds(targets: seq<Allocation>, indices: seq<int>, destination: nat, st: Progress, i: nat)
    requires Within(st.paid, Amounts(targets)) && st.surplus > 0
    requires i < |targets| && targets[i].destination == destination
    requires forall q :: 0 <= q < i ==> targets[q].destination != destination
    ensures var affords := Min(targets[i].amount - st.paid[i], st.surplus);
            ClaimStep(targets, indices, destination, st)
            == if Pays(indices, st.k, i)
               then Progress(st.paid[i := st.paid[i] + affords], st.surplus - affords, st.k + 1)
               else st.(surplus := st.surplus - affords)
  {
    assert FindDestination(targets, destination) == i;
  }

  lemma StepMisses(targets: seq<Allocation>, indices: seq<int>, destination: nat, st: Progress)
    requires Within(st.paid, Amounts(targets))
    requires forall q :: 0 <= q < |targets| ==> targets[q].destination != destination
    ensures ClaimStep(targets, indices, destination, st) == st
  {
  }

  lemma NothingClaimed(targets: seq<Allocation>, indices: seq<int>, destinations: seq<nat>, st: Progress)
    requires Within(st.paid, Amounts(targets))
    ensures ClaimAll(targets, indices, destinations[..0], st) == st
  {
  }

  lemma NextDestination(targets: seq<Allocation>, indices: seq<int>, destinations: seq<nat>, st: Progress, j: nat)
    requires Within(st.paid, Amounts(targets)) && j < |destinations|
    ensures ClaimAll(targets, indices, destinations[..j + 1], st)
            == ClaimStep(targets, indices, destinations[j], ClaimAll(targets, indices, destinations[..j], st))
  {
    assert destinations[..j + 1][..j] == destinations[..j];
  }

  lemma {:induction false} IdleWithoutFunds(targets: seq<Allocation>, indices: seq<int>, destinations: seq<nat>,
                                            st: Progress, j: nat)
    requires Within(st.paid, Amounts(targets)) && j <= |destinations|
    requires ClaimAll(targets, indices, destinations[..j], st).surplus == 0
    ensures ClaimAll(targets, indices, destinations, st) == ClaimAll(targets, indices, destinations[..j], st)
  {
    if j < |destinations| {
      var init := destinations[..|destinations| - 1];
      assert init[..j] == destinations[..j];
      IdleWithoutFunds(targets, indices, init, st, j);
    } else {
      assert destinations[..j] == destinations;
    }
  }

  lemma AllPaidOut(sources: seq<Allocation>, targets: seq<Allocation>, idx: nat, paid: seq<nat>, result: ClaimResult)
    requires idx < |sources| && Within(paid, Amounts(targets)) && Sum(paid) <= sources[idx].amount && result.Claimed?
    requires Reflects(sources, targets, idx, paid, result.newSourceAllocations, result.newTargetAllocations,
                      result.exitAllocations, result.totalPayouts)
    ensures result == PaidOut(sources, targets, idx, paid)
  {
  }
}
