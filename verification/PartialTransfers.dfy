/** What transfers keep, and why the order and the grouping of partial transfers do not matter. */
module PartialTransfers {
  import opened Lists
  import opened Waterfall
  import opened Transfer

  // ----- conservation -----

  function SumAt(w: seq<nat>, p: seq<nat>): nat
    requires forall j :: 0 <= j < |p| ==> p[j] < |w|
  {
    if p == [] then 0 else SumAt(w, p[..|p| - 1]) + w[p[|p| - 1]]
  }

  lemma RestrictAlso(w: seq<nat>, S: set<nat>, last: nat)
    requires last < |w| && last !in S
    ensures Sum(Restrict(w, S + {last})) == Sum(Restrict(w, S)) + w[last]
  {
    assert Restrict(w, S + {last}) == Restrict(w, S)[last := w[last]];
    SumUpdate(Restrict(w, S), last, w[last]);
  }

  lemma MembersLast(p: seq<nat>)
    requires p != [] && NoDuplicates(p)
    ensures var init, last := p[..|p| - 1], p[|p| - 1];
            NoDuplicates(init) && Members(p) == Members(init) + {last} && last !in Members(init)
  {
    assert p == p[..|p| - 1] + [p[|p| - 1]];
  }

  lemma {:induction false} SumRestricted(w: seq<nat>, p: seq<nat>)
    requires NoDuplicates(p) && forall j :: 0 <= j < |p| ==> p[j] < |w|
    ensures Sum(Restrict(w, Members(p))) == SumAt(w, p)
  {
    hide Restrict, Members, NoDuplicates, Sum;
    if p == [] {
      MembersOfNone();
      SumOfNobody(w);
    } else {
      var init, last := p[..|p| - 1], p[|p| - 1];
      MembersLast(p);
      SumRestricted(w, init);
      RestrictAlso(w, Members(init), last);
    }
  }

  lemma MembersOfNone()
    ensures Members([]) == {}
  {
  }

  lemma SumOfNobody(w: seq<nat>)
    ensures Sum(Restrict(w, {})) == 0
  {
    SumOfZeros(Restrict(w, {}));
  }

  lemma {:induction false} SumSlots(w: seq<nat>, p: seq<nat>, xs: seq<nat>)
    requires |p| <= |xs| && forall j :: 0 <= j < |p| ==> p[j] < |w| && xs[j] == w[p[j]]
    requires forall j :: |p| <= j < |xs| ==> xs[j] == 0
    ensures Sum(xs) == SumAt(w, p)
  {
    if p == [] {
      SumOfZeros(xs);
    } else {
      var last := |p| - 1;
      SumSlots(w, p[..last], xs[last := 0]);
      SumUpdate(xs, last, 0);
    }
  }

  lemma SumAtRestricted(w: seq<nat>, S: set<nat>, p: seq<nat>)
    requires (forall j :: 0 <= j < |p| ==> p[j] < |w| && p[j] in S)
    ensures SumAt(Restrict(w, S), p) == SumAt(w, p)
  {
    if p != [] {
      SumAtRestricted(w, S, p[..|p| - 1]);
    }
  }

  /** The exits add up to what is paid. */
  lemma ExitsAddUp(holdings: nat, allocations: seq<Allocation>, indices: seq<int>)
    ensures var t := Transferred(holdings, allocations, indices);
            Sum(Amounts(t.exitAllocations)) == t.totalPayouts
  {
    var n := |allocations|;
    var w, S, p := Affords(holdings, Amounts(allocations)), Chosen(indices, n), Positions(indices, n);
    PositionsMean(indices, n);
    hide Affords, Positions, SumAt, Sum;
    SumRestricted(w, p);
    SumAtRestricted(w, S, p);
    var exits := Amounts(ExitSlots(allocations, Payouts(holdings, allocations, indices), indices));
    SumSlots(Restrict(w, S), p, exits);
  }

  /** A transfer moves value from the allocations to the exits, and never more than the holdings. */
  lemma TransferConserves(holdings: nat, allocations: seq<Allocation>, indices: seq<int>)
    ensures var t := Transferred(holdings, allocations, indices);
            && Sum(Amounts(t.exitAllocations)) == t.totalPayouts <= holdings
            && Sum(Amounts(t.newAllocations)) + t.totalPayouts == Sum(Amounts(allocations))
            && |t.newAllocations| == |allocations|
            && forall i :: 0 <= i < |allocations| ==>
                 var paid := Payouts(holdings, allocations, indices)[i];
                 && paid <= allocations[i].amount
                 && t.newAllocations[i] == allocations[i].(amount := allocations[i].amount - paid)
  {
    var amounts, payouts := Amounts(allocations), Payouts(holdings, allocations, indices);
    ExitsAddUp(holdings, allocations, indices);
    PayoutsAfforded(holdings, allocations, indices);
    SumWithin(payouts, amounts);
    assert Amounts(Transferred(holdings, allocations, indices).newAllocations) == Minus(amounts, payouts);
  }

  /** A chosen item gets what all earlier amounts leave of the holdings, paid or not, and the others get nothing;
      the exits are the payments in order, followed by empty ones. */
  lemma TransferExactly(holdings: nat, allocations: seq<Allocation>, indices: seq<int>)
    ensures var t := Transferred(holdings, allocations, indices);
            var n, p := |allocations|, Positions(indices, |allocations|);
            && |t.newAllocations| == n && |t.exitAllocations| == (if indices == [] then n else |indices|)
            && (forall i :: 0 <= i < n && i !in p ==> t.newAllocations[i] == allocations[i])
            && (forall j :: 0 <= j < |p| ==>
                  && p[j] < n && j < |t.exitAllocations|
                  && var share := ShareAt(holdings, Amounts(allocations), p[j]);
                     && share <= allocations[p[j]].amount
                     && t.newAllocations[p[j]] == allocations[p[j]].(amount := allocations[p[j]].amount - share)
                     && t.exitAllocations[j] == allocations[p[j]].(amount := share))
            && (forall j :: |p| <= j < |t.exitAllocations| ==>
                  t.exitAllocations[j] == Allocation(0, 0, Other("0x"), 0))
            && (t.allocatesOnlyZeros <==> forall i :: 0 <= i < n ==> t.newAllocations[i].amount == 0)
  {
    var n, p := |allocations|, Positions(indices, |allocations|);
    PositionsMean(indices, n);
    ShapeOf(holdings, allocations, indices);
    hide *;
    forall i | 0 <= i < n
      ensures var t := Transferred(holdings, allocations, indices);
              var paid := if i in p then ShareAt(holdings, Amounts(allocations), i) else 0;
              && paid <= allocations[i].amount
              && t.newAllocations[i] == allocations[i].(amount := allocations[i].amount - paid)
    {
      ItemOf(holdings, allocations, indices, i);
    }
    forall j | 0 <= j < |p|
      ensures var t := Transferred(holdings, allocations, indices);
              && p[j] < n && p[j] in p
              && t.exitAllocations[j] == allocations[p[j]].(amount := ShareAt(holdings, Amounts(allocations), p[j]))
    {
      ExitOf(holdings, allocations, indices, j);
    }
  }

  lemma ShapeOf(holdings: nat, allocations: seq<Allocation>, indices: seq<int>)
    ensures var t := Transferred(holdings, allocations, indices);
            var n, p := |allocations|, Positions(indices, |allocations|);
            && |t.newAllocations| == n && |t.exitAllocations| == (if indices == [] then n else |indices|)
            && (forall j :: |p| <= j < |t.exitAllocations| ==>
                  t.exitAllocations[j] == Allocation(0, 0, Other("0x"), 0))
            && (t.allocatesOnlyZeros <==> forall i :: 0 <= i < n ==> t.newAllocations[i].amount == 0)
  {
    hide Positions, Remaining, Payouts;
  }

  lemma ItemOf(holdings: nat, allocations: seq<Allocation>, indices: seq<int>, i: nat)
    requires i < |allocations|
    ensures var t := Transferred(holdings, allocations, indices);
            var paid := if i in Positions(indices, |allocations|) then ShareAt(holdings, Amounts(allocations), i) else 0;
            && paid <= allocations[i].amount && i < |t.newAllocations|
            && t.newAllocations[i] == allocations[i].(amount := allocations[i].amount - paid)
  {
    PayoutAt(holdings, allocations, indices, i);
    AffordsAt(holdings, Amounts(allocations), i);
    hide Positions, Affords, Sum;
  }

  lemma ExitOf(holdings: nat, allocations: seq<Allocation>, indices: seq<int>, j: nat)
    requires j < |Positions(indices, |allocations|)|
    ensures var t, q := Transferred(holdings, allocations, indices), Positions(indices, |allocations|)[j];
            && q < |allocations| && j < |t.exitAllocations|
            && t.exitAllocations[j] == allocations[q].(amount := ShareAt(holdings, Amounts(allocations), q))
  {
    var q := Positions(indices, |allocations|)[j];
    PositionsMean(indices, |allocations|);
    PayoutAt(holdings, allocations, indices, q);
    AffordsAt(holdings, Amounts(allocations), q);
    hide Positions, Affords, Sum, Remaining;
  }

  lemma PayoutsAfforded(holdings: nat, allocations: seq<Allocation>, indices: seq<int>)
    ensures var payouts := Payouts(holdings, allocations, indices);
            && Within(payouts, Affords(holdings, Amounts(allocations)))
            && Within(payouts, Amounts(allocations)) && Sum(payouts) <= holdings
  {
    AffordsSpends(holdings, Amounts(allocations));
    SumWithin(Payouts(holdings, allocations, indices), Affords(holdings, Amounts(allocations)));
  }

  lemma PayoutsOfAll(holdings: nat, allocations: seq<Allocation>)
    ensures Payouts(holdings, allocations, []) == Affords(holdings, Amounts(allocations))
  {
    hide Affords;
    forall q: nat | q < |allocations| ensures q in Chosen([], |allocations|) {
      assert AllIndices(|allocations|)[q] == q;
    }
  }

  /** No indices mean all indices; everything is then paid off exactly when the holdings suffice. */
  lemma NoIndicesMeanAll(holdings: nat, allocations: seq<Allocation>)
    ensures Transferred(holdings, allocations, []) == Transferred(holdings, allocations, AllIndices(|allocations|))
    ensures Transferred(holdings, allocations, []).allocatesOnlyZeros <==> holdings >= Sum(Amounts(allocations))
  {
    var n, amounts := |allocations|, Amounts(allocations);
    var all := AllIndices(n);
    PayablePrefixIsLongest(all, 0, n, n);
    PayablePrefixMeans(all, 0, n);
    assert Positions(all, n) == all;
    AffordsSpends(holdings, amounts);
    var w := Affords(holdings, amounts);
    PayoutsOfAll(holdings, allocations);
    SumWithin(w, amounts);
    SumOfZeros(Minus(amounts, w));
  }

  // ----- history independence -----

  /** Holdings and allocations after the positions in S have been paid. */
  function Paid(holdings: nat, allocations: seq<Allocation>, S: set<nat>): (nat, seq<Allocation>) {
    var w := Affords(holdings, Amounts(allocations));
    AffordsSpends(holdings, Amounts(allocations));
    SumWithin(Restrict(w, S), w);
    (holdings - Sum(Restrict(w, S)), WithAmounts(allocations, Minus(Amounts(allocations), Restrict(w, S))))
  }

  /** One transfer, with the holdings reduced by what it pays. */
  function AfterTransfer(holdings: nat, allocations: seq<Allocation>, indices: seq<int>): (nat, seq<Allocation>) {
    PayoutsAfforded(holdings, allocations, indices);
    var t := Transferred(holdings, allocations, indices);
    (holdings - t.totalPayouts, t.newAllocations)
  }

  lemma AfterTransferIsPaid(holdings: nat, allocations: seq<Allocation>, indices: seq<int>)
    ensures AfterTransfer(holdings, allocations, indices) == Paid(holdings, allocations, Chosen(indices, |allocations|))
  {
    var w, S := Affords(holdings, Amounts(allocations)), Chosen(indices, |allocations|);
    PayoutsAfforded(holdings, allocations, indices);
    assert Payouts(holdings, allocations, indices) == Restrict(w, S);
    assert Remaining(holdings, allocations, indices) == Minus(Amounts(allocations), Payouts(holdings, allocations, indices));
    hide Affords, Sum, Chosen, Restrict, Minus, WithAmounts, Amounts, Within, Positions, ExitSlots, Payouts, Remaining;
  }

  /** What is afforded for the positions not in S, once S has been paid. */
  lemma AffordsAfterPaid(holdings: nat, allocations: seq<Allocation>, S: set<nat>, T: set<nat>)
    ensures var (h, new') := Paid(holdings, allocations, S);
            var w := Affords(holdings, Amounts(allocations));
            |new'| == |allocations| && Restrict(Affords(h, Amounts(new')), T) == Restrict(w, T - S)
  {
    hide Affords, Sum, Min;
    var amounts := Amounts(allocations);
    var w := Affords(holdings, amounts);
    var paid := Restrict(w, S);
    assert Within(paid, w);
    AffordsResidual(holdings, amounts, paid);
    assert Amounts(Paid(holdings, allocations, S).1) == Minus(amounts, paid);
    assert Restrict(Minus(w, paid), T) == Restrict(w, T - S);
  }

  lemma {:induction false} SumSplits(w: seq<nat>, a: seq<nat>, b: seq<nat>)
    requires |a| == |b| == |w| && forall i :: 0 <= i < |w| ==> w[i] == a[i] + b[i]
    ensures Sum(w) == Sum(a) + Sum(b)
  {
    if w != [] {
      SumSplits(w[1..], a[1..], b[1..]);
    }
  }

  /** Paying S and then T is paying the union. */
  lemma PaidTwice(holdings: nat, allocations: seq<Allocation>, S: set<nat>, T: set<nat>)
    ensures var (h, new') := Paid(holdings, allocations, S);
            Paid(h, new', T) == Paid(holdings, allocations, S + T)
  {
    hide Affords, Sum;
    var w := Affords(holdings, Amounts(allocations));
    var (h, new') := Paid(holdings, allocations, S);
    AffordsAfterPaid(holdings, allocations, S, T);
    SumSplits(Restrict(w, S + T), Restrict(w, S), Restrict(w, T - S));
    assert Paid(h, new', T).1 == Paid(holdings, allocations, S + T).1;
  }

  /** The state after a series of transfers. */
  function AfterTransfers(holdings: nat, allocations: seq<Allocation>, runs: seq<seq<int>>): (nat, seq<Allocation>)
    decreases |runs|
  {
    if runs == [] then (holdings, allocations)
    else
      var (h, new') := AfterTransfer(holdings, allocations, runs[0]);
      AfterTransfers(h, new', runs[1..])
  }

  function ChosenBy(runs: seq<seq<int>>, n: nat): set<nat> {
    if runs == [] then {} else Chosen(runs[0], n) + ChosenBy(runs[1..], n)
  }

  lemma PaidNobody(holdings: nat, allocations: seq<Allocation>)
    ensures Paid(holdings, allocations, {}) == (holdings, allocations)
  {
    SumOfZeros(Restrict(Affords(holdings, Amounts(allocations)), {}));
    assert Paid(holdings, allocations, {}).1 == allocations;
  }

  /** A series of transfers leaves what paying everybody it ever chose at once would leave. */
  lemma {:induction false} TransfersForgetHistory(holdings: nat, allocations: seq<Allocation>, runs: seq<seq<int>>)
    ensures AfterTransfers(holdings, allocations, runs) == Paid(holdings, allocations, ChosenBy(runs, |allocations|))
    decreases |runs|
  {
    hide Paid, AfterTransfer, Chosen;
    if runs == [] {
      PaidNobody(holdings, allocations);
    } else {
      var (h, new') := AfterTransfer(holdings, allocations, runs[0]);
      AfterTransferIsPaid(holdings, allocations, runs[0]);
      PaidSameLength(holdings, allocations, Chosen(runs[0], |allocations|));
      TransfersForgetHistory(h, new', runs[1..]);
      PaidTwice(holdings, allocations, Chosen(runs[0], |allocations|), ChosenBy(runs[1..], |allocations|));
    }
  }

  lemma PaidSameLength(holdings: nat, allocations: seq<Allocation>, S: set<nat>)
    ensures |Paid(holdings, allocations, S).1| == |allocations|
  {
  }

  /** Two series that choose the same positions end alike, whatever their order and grouping. */
  lemma TransfersEndAlike(holdings: nat, allocations: seq<Allocation>, runs: seq<seq<int>>, others: seq<seq<int>>)
    requires ChosenBy(runs, |allocations|) == ChosenBy(others, |allocations|)
    ensures AfterTransfers(holdings, allocations, runs) == AfterTransfers(holdings, allocations, others)
  {
    TransfersForgetHistory(holdings, allocations, runs);
    TransfersForgetHistory(holdings, allocations, others);
  }

  /** Non-empty and increasing, as the chain demands of indices that do not mean everything. */
  ghost predicate Increasing(indices: seq<int>) {
    indices != [] && Ascending(indices) && forall i :: 0 <= i < |indices| ==> indices[i] >= 0
  }

  ghost predicate Union(both: seq<int>, first: seq<int>, second: seq<int>) {
    forall x :: x in both <==> x in first || x in second
  }

  lemma ChosenUnion(first: seq<int>, second: seq<int>, both: seq<int>, n: nat)
    requires Increasing(first) && Increasing(second) && Increasing(both) && Union(both, first, second)
    ensures Chosen(both, n) == Chosen(first, n) + Chosen(second, n)
  {
    hide Positions;
    forall x: nat ensures x in Chosen(both, n) <==> x in Chosen(first, n) + Chosen(second, n) {
      PositionsOfAscending(first, n, x);
      PositionsOfAscending(second, n, x);
      PositionsOfAscending(both, n, x);
    }
  }

  /** Paying some indices, and others from what is left, is paying the union of both lists at once; an index
      that is paid again gets nothing. */
  lemma TransfersMerge(holdings: nat, allocations: seq<Allocation>, first: seq<int>, second: seq<int>, both: seq<int>)
    requires Increasing(first) && Increasing(second) && Increasing(both) && Union(both, first, second)
    ensures var (h, new') := AfterTransfer(holdings, allocations, first);
            && |new'| == |allocations|
            && AfterTransfer(h, new', second) == AfterTransfer(holdings, allocations, both)
            && forall i :: 0 <= i < |allocations| ==>
                 && (i in first ==> Payouts(h, new', second)[i] == 0)
                 && Payouts(holdings, allocations, first)[i] + Payouts(h, new', second)[i]
                    == Payouts(holdings, allocations, both)[i]
  {
    hide Affords, Sum, Positions, AfterTransfer, Paid, Ascending;
    var n := |allocations|;
    var S, T := Chosen(first, n), Chosen(second, n);
    var w := Affords(holdings, Amounts(allocations));
    AfterTransferIsPaid(holdings, allocations, first);
    AfterTransferIsPaid(holdings, allocations, both);
    var (h, new') := Paid(holdings, allocations, S);
    AfterTransferIsPaid(h, new', second);
    AffordsAfterPaid(holdings, allocations, S, T);
    PaidTwice(holdings, allocations, S, T);
    ChosenUnion(first, second, both, n);
    forall i | 0 <= i < n && i in first ensures i in S {
      PositionsOfAscending(first, n, i);
    }
  }
}
