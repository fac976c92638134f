/** Why the grouping of partial claims does not matter. */
module PartialClaims {
  import opened Lists
  import opened Waterfall
  import opened Transfer
  import opened PartialTransfers
  import opened Claim
  import opened ClaimRefinement

  /** Indices of matched targets, listed as the guarantee orders them. */
  ghost predicate InGuaranteeOrder(m: seq<nat>, indices: seq<int>) {
    && indices != [] && Ascending(Translate(m, indices))
    && forall k :: 0 <= k < |indices| ==> indices[k] in m
  }

  lemma TranslateUnion(m: seq<nat>, first: seq<int>, second: seq<int>, both: seq<int>)
    requires InGuaranteeOrder(m, first) && InGuaranteeOrder(m, second) && InGuaranteeOrder(m, both)
    requires Union(both, first, second)
    ensures Increasing(Translate(m, first)) && Increasing(Translate(m, second)) && Increasing(Translate(m, both))
    ensures Union(Translate(m, both), Translate(m, first), Translate(m, second))
  {
    hide Ascending, PositionIn;
    forall x ensures x in Translate(m, both) <==> x in Translate(m, first) || x in Translate(m, second) {
      TranslateMembers(m, first, x);
      TranslateMembers(m, second, x);
      TranslateMembers(m, both, x);
    }
  }

  lemma TranslateMembers(m: seq<nat>, indices: seq<int>, x: int)
    ensures x in Translate(m, indices) <==> exists i :: i in indices && PositionIn(m, i) == x
  {
    hide PositionIn;
    if x in Translate(m, indices) {
      var k :| 0 <= k < |indices| && Translate(m, indices)[k] == x;
      assert indices[k] in indices;
    }
    if i :| i in indices && PositionIn(m, i) == x {
      var k :| 0 <= k < |indices| && indices[k] == i;
      assert Translate(m, indices)[k] == x;
    }
  }

  function LessSource(sources: seq<Allocation>, idx: nat, x: nat): seq<Allocation>
    requires idx < |sources| && x <= sources[idx].amount
  {
    sources[idx := sources[idx].(amount := sources[idx].amount - x)]
  }

  function LessTargets(targets: seq<Allocation>, paid: seq<nat>): seq<Allocation>
    requires Within(paid, Amounts(targets))
  {
    WithAmounts(targets, Minus(Amounts(targets), paid))
  }

  /** Once x of its funds has been paid, a guarantee has the rest. */
  lemma FundsAfter(holdings: nat, sources: seq<Allocation>, idx: nat, x: nat)
    requires idx < |sources| && x <= Funds(holdings, sources, idx)
    ensures x <= holdings && idx < |LessSource(sources, idx, x)|
    ensures Funds(holdings - x, LessSource(sources, idx, x), idx) == Funds(holdings, sources, idx) - x
    ensures LessSource(sources, idx, x)[idx] == sources[idx].(amount := sources[idx].amount - x)
  {
    var amounts, paid := Amounts(sources), Zeros(|sources|)[idx := x];
    SumUpdate(Zeros(|sources|), idx, x);
    hide Affords, Sum;
    AffordsResidual(holdings, amounts, paid);
    assert Minus(amounts, paid) == Amounts(LessSource(sources, idx, x));
  }

  ghost predicate SameDestinations(targets: seq<Allocation>, others: seq<Allocation>) {
    |targets| == |others| && forall i :: 0 <= i < |targets| ==> targets[i].destination == others[i].destination
  }

  lemma {:induction false} MatchedAlike(targets: seq<Allocation>, others: seq<Allocation>, destinations: seq<nat>)
    requires SameDestinations(targets, others)
    ensures Matched(targets, destinations) == Matched(others, destinations)
  {
    if destinations != [] {
      MatchedAlike(targets, others, destinations[..|destinations| - 1]);
      FindAlike(targets, others, destinations[|destinations| - 1]);
    }
  }

  lemma FindAlike(targets: seq<Allocation>, others: seq<Allocation>, destination: nat)
    requires SameDestinations(targets, others)
    ensures FindDestination(targets, destination) == FindDestination(others, destination)
  {
    var i, j := FindDestination(targets, destination), FindDestination(others, destination);
    assert i >= 0 ==> others[i].destination == destination;
    assert j >= 0 ==> targets[j].destination == destination;
  }

  /** The holdings, the sources and the targets after a claim. */
  function AfterClaim(holdings: nat, sources: seq<Allocation>, targets: seq<Allocation>, idx: nat, indices: seq<int>)
    : (r: (nat, seq<Allocation>, seq<Allocation>))
    requires idx < |sources| && sources[idx].metadata.Guarantees?
    ensures idx < |r.1| && r.1[idx].metadata == sources[idx].metadata
  {
    var paid := ClaimPayouts(holdings, sources, targets, idx, indices);
    FundsAfter(holdings, sources, idx, Sum(paid));
    (holdings - Sum(paid), LessSource(sources, idx, Sum(paid)), LessTargets(targets, paid))
  }

  lemma AfterClaimIsClaiming(holdings: nat, sources: seq<Allocation>, targets: seq<Allocation>, idx: nat,
                             indices: seq<int>)
    requires Guaranteed(sources, idx)
    ensures var c := Claiming(holdings, sources, targets, idx, indices);
            && c.Claimed? && c.totalPayouts <= holdings
            && AfterClaim(holdings, sources, targets, idx, indices)
               == (holdings - c.totalPayouts, c.newSourceAllocations, c.newTargetAllocations)
            && c.exitAllocations == WithAmounts(targets, ClaimPayouts(holdings, sources, targets, idx, indices))
  {
    hide ClaimAll, Funds;
    FundsAfter(holdings, sources, idx, Sum(ClaimPayouts(holdings, sources, targets, idx, indices)));
  }

  lemma TargetsAfter(targets: seq<Allocation>, destinations: seq<nat>, m: seq<nat>, paid: seq<nat>, payouts: seq<nat>)
    requires m == Matched(targets, destinations) && Within(paid, Amounts(targets)) && PaidAlong(paid, m, payouts)
    ensures var targets' := LessTargets(targets, paid); var picked := Pick(targets, m);
            && |targets'| == |targets| && Matched(targets', destinations) == m
            && Within(payouts, Amounts(picked))
            && Pick(targets', m) == WithAmounts(picked, Minus(Amounts(picked), payouts))
  {
    hide Sum, Matched;
    MatchedAlike(targets, LessTargets(targets, paid), destinations);
  }

  lemma AfterTransferMeans(holdings: nat, allocations: seq<Allocation>, indices: seq<int>)
    ensures var payouts := Payouts(holdings, allocations, indices);
            && Sum(payouts) <= holdings && Within(payouts, Amounts(allocations))
            && AfterTransfer(holdings, allocations, indices)
               == (holdings - Sum(payouts), WithAmounts(allocations, Minus(Amounts(allocations), payouts)))
  {
    hide Sum, Affords, Chosen;
    PayoutsAfforded(holdings, allocations, indices);
  }

  lemma SumOfPaid(paid: seq<nat>, m: seq<nat>, payouts: seq<nat>)
    requires PaidAlong(paid, m, payouts)
    ensures Sum(paid) == Sum(payouts)
  {
  }

  /** The second of two claims, seen as a transfer: it starts where the first one's transfer ended. */
  ghost predicate ContinuesFrom(holdings: nat, sources: seq<Allocation>, targets: seq<Allocation>, idx: nat,
                                first: seq<int>, m: seq<nat>, after: (nat, seq<Allocation>, seq<Allocation>))
    requires idx < |sources| && forall q :: 0 <= q < |m| ==> m[q] < |targets|
  {
    && |after.2| == |targets| && Guaranteed(after.1, idx)
    && Matched(after.2, after.1[idx].metadata.destinations) == m
    && (Funds(after.0, after.1, idx), Pick(after.2, m))
       == AfterTransfer(Funds(holdings, sources, idx), Pick(targets, m), Translate(m, first))
  }

  lemma SecondClaim(holdings: nat, sources: seq<Allocation>, targets: seq<Allocation>, idx: nat, first: seq<int>,
                    m: seq<nat>)
    requires Guaranteed(sources, idx) && m == Matched(targets, sources[idx].metadata.destinations)
    ensures ContinuesFrom(holdings, sources, targets, idx, first, m,
                          AfterClaim(holdings, sources, targets, idx, first))
  {
    hide ClaimPayouts, Affords, Funds, Matched, Sum, Translate, PaidAlong, Payouts, AfterTransfer, Within, NoDuplicates;
    hide LessSource, LessTargets, Pick, Minus, WithAmounts, Amounts;
    var paid := ClaimPayouts(holdings, sources, targets, idx, first);
    var funds, picked, counted := Funds(holdings, sources, idx), Pick(targets, m), Translate(m, first);
    FundsAfter(holdings, sources, idx, Sum(paid));
    PayoutsInStep(holdings, sources, targets, idx, first);
    TargetsAfter(targets, sources[idx].metadata.destinations, m, paid, Payouts(funds, picked, counted));
    AfterTransferMeans(funds, picked, counted);
    SumOfPaid(paid, m, Payouts(funds, picked, counted));
  }

  /** What a target is paid by both claims, given what the transfers pay at its position. */
  lemma PayoutsAdd(m: seq<nat>, first: seq<int>, a: seq<nat>, b: seq<nat>, all: seq<nat>,
                   pa: seq<nat>, pb: seq<nat>, pall: seq<nat>)
    requires |a| == |b| == |all| && PaidAlong(a, m, pa) && PaidAlong(b, m, pb) && PaidAlong(all, m, pall)
    requires forall q :: 0 <= q < |m| ==> pa[q] + pb[q] == pall[q] && (q in Translate(m, first) ==> pb[q] == 0)
    ensures forall i :: 0 <= i < |a| ==> a[i] + b[i] == all[i] && (i in first ==> b[i] == 0)
    ensures Sum(a) + Sum(b) == Sum(all)
  {
    hide Sum;
    forall i | 0 <= i < |a| ensures a[i] + b[i] == all[i] && (i in first ==> b[i] == 0) {
      if i in m {
        TranslateMembers(m, first, PositionIn(m, i));
      }
    }
    SumSplits(all, a, b);
  }

  /** What both claims pay, together and one by one. */
  lemma ClaimsPay(holdings: nat, sources: seq<Allocation>, targets: seq<Allocation>, idx: nat,
                  first: seq<int>, second: seq<int>, both: seq<int>, m: seq<nat>,
                  h: nat, sources': seq<Allocation>, targets': seq<Allocation>)
    requires Guaranteed(sources, idx) && Guaranteed(sources', idx)
    requires m == Matched(targets, sources[idx].metadata.destinations)
    requires ContinuesFrom(holdings, sources, targets, idx, first, m, (h, sources', targets'))
    requires InGuaranteeOrder(m, first) && InGuaranteeOrder(m, second) && InGuaranteeOrder(m, both)
    requires Union(both, first, second)
    ensures var a := ClaimPayouts(holdings, sources, targets, idx, first);
            var b := ClaimPayouts(h, sources', targets', idx, second);
            var all := ClaimPayouts(holdings, sources, targets, idx, both);
            && (forall i :: 0 <= i < |targets| ==> a[i] + b[i] == all[i] && (i in first ==> b[i] == 0))
            && Sum(a) + Sum(b) == Sum(all)
  {
    hide ClaimPayouts, Affords, Funds, Matched, Sum, Translate, PaidAlong, Payouts, AfterTransfer, NoDuplicates;
    hide Pick, InGuaranteeOrder, Union, Ascending, Increasing;
    var funds, picked := Funds(holdings, sources, idx), Pick(targets, m);
    TranslateUnion(m, first, second, both);
    TransfersMerge(funds, picked, Translate(m, first), Translate(m, second), Translate(m, both));
    PayoutsInStep(holdings, sources, targets, idx, first);
    PayoutsInStep(h, sources', targets', idx, second);
    PayoutsInStep(holdings, sources, targets, idx, both);
    PayoutsAdd(m, first,
               ClaimPayouts(holdings, sources, targets, idx, first),
               ClaimPayouts(h, sources', targets', idx, second),
               ClaimPayouts(holdings, sources, targets, idx, both),
               Payouts(funds, picked, Translate(m, first)),
               Payouts(Funds(h, sources', idx), Pick(targets', m), Translate(m, second)),
               Payouts(funds, picked, Translate(m, both)));
  }

  lemma LessSourceTwice(sources: seq<Allocation>, idx: nat, x: nat, y: nat)
    requires idx < |sources| && x + y <= sources[idx].amount
    ensures idx < |LessSource(sources, idx, x)| && y <= LessSource(sources, idx, x)[idx].amount
    ensures LessSource(LessSource(sources, idx, x), idx, y) == LessSource(sources, idx, x + y)
  {
  }

  lemma LessTargetsTwice(targets: seq<Allocation>, a: seq<nat>, b: seq<nat>, all: seq<nat>)
    requires |a| == |b| == |all| == |targets|
    requires Within(all, Amounts(targets)) && forall i :: 0 <= i < |all| ==> a[i] + b[i] == all[i]
    ensures Within(a, Amounts(targets)) && Within(b, Amounts(LessTargets(targets, a)))
    ensures LessTargets(LessTargets(targets, a), b) == LessTargets(targets, all)
  {
    forall i | 0 <= i < |targets| ensures a[i] <= targets[i].amount && b[i] <= targets[i].amount - a[i] {
      assert all[i] <= Amounts(targets)[i];
    }
  }

  /** Claiming some targets, and then others, is claiming the merged list at once. */
  lemma ClaimsMerge(holdings: nat, sources: seq<Allocation>, targets: seq<Allocation>, idx: nat,
                    first: seq<int>, second: seq<int>, both: seq<int>)
    requires Guaranteed(sources, idx)
    requires var m := Matched(targets, sources[idx].metadata.destinations);
             InGuaranteeOrder(m, first) && InGuaranteeOrder(m, second) && InGuaranteeOrder(m, both)
    requires Union(both, first, second)
    ensures var (h, sources', targets') := AfterClaim(holdings, sources, targets, idx, first);
            && Guaranteed(sources', idx) && |targets'| == |targets|
            && AfterClaim(h, sources', targets', idx, second) == AfterClaim(holdings, sources, targets, idx, both)
            && forall i :: 0 <= i < |targets| ==>
                 && (i in first ==> ClaimPayouts(h, sources', targets', idx, second)[i] == 0)
                 && ClaimPayouts(holdings, sources, targets, idx, first)[i]
                    + ClaimPayouts(h, sources', targets', idx, second)[i]
                    == ClaimPayouts(holdings, sources, targets, idx, both)[i]
  {
    hide ClaimPayouts, Funds, Matched, Sum, LessSource, LessTargets, Pick, InGuaranteeOrder, Within, NoDuplicates;
    hide AfterTransfer, Translate;
    var m := Matched(targets, sources[idx].metadata.destinations);
    var (h, sources', targets') := AfterClaim(holdings, sources, targets, idx, first);
    SecondClaim(holdings, sources, targets, idx, first, m);
    ClaimsPay(holdings, sources, targets, idx, first, second, both, m, h, sources', targets');
    var a := ClaimPayouts(holdings, sources, targets, idx, first);
    var b := ClaimPayouts(h, sources', targets', idx, second);
    LessTargetsTwice(targets, a, b, ClaimPayouts(holdings, sources, targets, idx, both));
    LessSourceTwice(sources, idx, Sum(a), Sum(b));
  }

  // ----- any series of claims -----

  /** The state after a series of claims, each one of any indices. */
  function AfterClaims(holdings: nat, sources: seq<Allocation>, targets: seq<Allocation>, idx: nat, runs: seq<seq<int>>)
    : (nat, seq<Allocation>, seq<Allocation>)
    requires idx < |sources| && sources[idx].metadata.Guarantees?
    decreases |runs|
  {
    if runs == [] then (holdings, sources, targets)
    else
      var (h, sources', targets') := AfterClaim(holdings, sources, targets, idx, runs[0]);
      AfterClaims(h, sources', targets', idx, runs[1..])
  }

  function TranslateAll(m: seq<nat>, runs: seq<seq<int>>): (r: seq<seq<int>>)
    ensures |r| == |runs| && forall k :: 0 <= k < |r| ==> r[k] == Translate(m, runs[k])
  {
    seq(|runs|, k requires 0 <= k < |runs| => Translate(m, runs[k]))
  }

  /** Claims change the holdings, the amount of the guarantee and the amounts of matched targets only, the
      first two by what the guarantee's funds lose. */
  ghost predicate Framed(idx: nat, m: seq<nat>, before: (nat, seq<Allocation>, seq<Allocation>),
                         after: (nat, seq<Allocation>, seq<Allocation>))
  {
    && idx < |before.1| == |after.1| && |before.2| == |after.2|
    && after.1 == before.1[idx := before.1[idx].(amount := after.1[idx].amount)]
    && before.0 - after.0 == before.1[idx].amount - after.1[idx].amount
    && before.0 - after.0 == Funds(before.0, before.1, idx) - Funds(after.0, after.1, idx)
    && forall i :: 0 <= i < |before.2| && i !in m ==> after.2[i] == before.2[i]
  }

  lemma ClaimIsFramed(holdings: nat, sources: seq<Allocation>, targets: seq<Allocation>, idx: nat, indices: seq<int>,
                      m: seq<nat>)
    requires Guaranteed(sources, idx) && m == Matched(targets, sources[idx].metadata.destinations)
    ensures Framed(idx, m, (holdings, sources, targets), AfterClaim(holdings, sources, targets, idx, indices))
  {
    hide ClaimPayouts, Funds, Matched, Sum, Payouts, Translate, Pick, NoDuplicates, Within;
    var paid := ClaimPayouts(holdings, sources, targets, idx, indices);
    FundsAfter(holdings, sources, idx, Sum(paid));
    PayoutsInStep(holdings, sources, targets, idx, indices);
  }

  lemma FramedTwice(idx: nat, m: seq<nat>, a: (nat, seq<Allocation>, seq<Allocation>),
                    b: (nat, seq<Allocation>, seq<Allocation>), c: (nat, seq<Allocation>, seq<Allocation>))
    requires Framed(idx, m, a, b) && Framed(idx, m, b, c)
    ensures Framed(idx, m, a, c)
  {
    hide Funds;
  }

  /** A series of claims is a series of transfers over the matched targets. */
  lemma {:induction false} ClaimsAreTransfers(holdings: nat, sources: seq<Allocation>, targets: seq<Allocation>,
                                              idx: nat, runs: seq<seq<int>>, m: seq<nat>)
    requires Guaranteed(sources, idx) && m == Matched(targets, sources[idx].metadata.destinations)
    ensures var after := AfterClaims(holdings, sources, targets, idx, runs);
            && Framed(idx, m, (holdings, sources, targets), after)
            && (Funds(after.0, after.1, idx), Pick(after.2, m))
               == AfterTransfers(Funds(holdings, sources, idx), Pick(targets, m), TranslateAll(m, runs))
    decreases |runs|
  {
    hide AfterClaim, AfterTransfer, Funds, Matched, Translate, NoDuplicates;
    var start := (holdings, sources, targets);
    if runs == [] {
      assert TranslateAll(m, runs) == [];
    } else {
      var next := AfterClaim(holdings, sources, targets, idx, runs[0]);
      SecondClaim(holdings, sources, targets, idx, runs[0], m);
      ClaimIsFramed(holdings, sources, targets, idx, runs[0], m);
      ClaimsAreTransfers(next.0, next.1, next.2, idx, runs[1..], m);
      FramedTwice(idx, m, start, next, AfterClaims(next.0, next.1, next.2, idx, runs[1..]));
      assert TranslateAll(m, runs)[1..] == TranslateAll(m, runs[1..]);
    }
  }

  /** Two series of claims that choose the same positions of the guarantee end alike, whatever their order,
      grouping and repetitions. */
  lemma ClaimsEndAlike(holdings: nat, sources: seq<Allocation>, targets: seq<Allocation>, idx: nat,
                       runs: seq<seq<int>>, others: seq<seq<int>>)
    requires Guaranteed(sources, idx)
    requires var m := Matched(targets, sources[idx].metadata.destinations);
             ChosenBy(TranslateAll(m, runs), |m|) == ChosenBy(TranslateAll(m, others), |m|)
    ensures AfterClaims(holdings, sources, targets, idx, runs) == AfterClaims(holdings, sources, targets, idx, others)
  {
    hide AfterClaims, AfterTransfers, Funds, Matched, TranslateAll, ChosenBy;
    var m := Matched(targets, sources[idx].metadata.destinations);
    ClaimsAreTransfers(holdings, sources, targets, idx, runs, m);
    ClaimsAreTransfers(holdings, sources, targets, idx, others, m);
    TransfersEndAlike(Funds(holdings, sources, idx), Pick(targets, m), TranslateAll(m, runs), TranslateAll(m, others));
    SameByFrame(idx, m, (holdings, sources, targets),
                AfterClaims(holdings, sources, targets, idx, runs), AfterClaims(holdings, sources, targets, idx, others));
  }

  lemma SameByFrame(idx: nat, m: seq<nat>, start: (nat, seq<Allocation>, seq<Allocation>),
                    a: (nat, seq<Allocation>, seq<Allocation>), b: (nat, seq<Allocation>, seq<Allocation>))
    requires Framed(idx, m, start, a) && Framed(idx, m, start, b)
    requires forall q :: 0 <= q < |m| ==> m[q] < |start.2|
    requires Funds(a.0, a.1, idx) == Funds(b.0, b.1, idx) && Pick(a.2, m) == Pick(b.2, m)
    ensures a == b
  {
    hide Funds;
    forall i | 0 <= i < |start.2| ensures a.2[i] == b.2[i] {
      if i in m {
        var q :| 0 <= q < |m| && m[q] == i;
        assert Pick(a.2, m)[q] == Pick(b.2, m)[q];
      }
    }
    assert a.0 == b.0 && a.1[idx].amount == b.1[idx].amount;
    assert a.1 == b.1 && a.2 == b.2;
  }
}
