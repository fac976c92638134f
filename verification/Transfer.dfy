/** Paying out of a channel's holdings, in the order of its allocations. */
module Transfer {
  import opened Waterfall

  /** The metadata of an allocation: a list of guaranteed destinations, or anything else. */
  datatype Metadata = Guarantees(destinations: seq<nat>) | Other(bytes: string)

  /** Destinations are compared by their numeric value. */
  datatype Allocation = Allocation(destination: nat, amount: nat, metadata: Metadata, allocationType: nat)

  datatype TransferResult = TransferResult(
    newAllocations: seq<Allocation>,
    allocatesOnlyZeros: bool,
    exitAllocations: seq<Allocation>,
    totalPayouts: nat)

  const PLACEHOLDER := Allocation(0, 0, Other("0x"), 0)

  function Amounts(allocations: seq<Allocation>): (r: seq<nat>)
    ensures |r| == |allocations| && forall i :: 0 <= i < |r| ==> r[i] == allocations[i].amount
  {
    seq(|allocations|, i requires 0 <= i < |allocations| => allocations[i].amount)
  }

  /** The allocations with their amounts replaced. */
  function WithAmounts(allocations: seq<Allocation>, amounts: seq<nat>): (r: seq<Allocation>)
    requires |amounts| == |allocations|
    ensures |r| == |allocations| && forall i :: 0 <= i < |r| ==> r[i] == allocations[i].(amount := amounts[i])
  {
    seq(|allocations|, i requires 0 <= i < |allocations| => allocations[i].(amount := amounts[i]))
  }

  // ----- which positions are paid -----

  /** The longest prefix of indices that increases strictly and stays between lo and n. */
  function PayablePrefix(indices: seq<int>, lo: nat, n: nat): (r: seq<nat>)
    ensures |r| <= |indices|
    decreases |indices|
  {
    if indices == [] || !(lo <= indices[0] < n) then []
    else [indices[0]] + PayablePrefix(indices[1..], indices[0] + 1, n)
  }

  function AllIndices(n: nat): (r: seq<nat>)
    ensures |r| == n && forall i :: 0 <= i < n ==> r[i] == i
  {
    seq(n, i requires 0 <= i < n => i)
  }

  /** No indices stand for all of them. */
  function Positions(indices: seq<int>, n: nat): seq<nat> {
    if indices == [] then AllIndices(n) else PayablePrefix(indices, 0, n)
  }

  ghost predicate Ascending(xs: seq<int>) {
    forall i, j :: 0 <= i < j < |xs| ==> xs[i] < xs[j]
  }

  lemma PrefixCons(indices: seq<int>, p: seq<nat>, lo: nat, n: nat)
    requires indices != [] && lo <= indices[0] < n && Ascending(p) && |p| < |indices|
    requires forall i :: 0 <= i < |p| ==> indices[0] + 1 <= p[i] < n && p[i] == indices[1..][i]
    ensures var q: seq<nat> := [indices[0]] + p;
            Ascending(q) && forall i :: 0 <= i < |q| ==> lo <= q[i] < n && q[i] == indices[i]
  {
  }

  /** The prefix is in range and increasing, and the index behind it would not be. */
  lemma {:induction false} PayablePrefixMeans(indices: seq<int>, lo: nat, n: nat)
    ensures var p := PayablePrefix(indices, lo, n);
            && Ascending(p) && (forall i :: 0 <= i < |p| ==> lo <= p[i] < n && p[i] == indices[i])
            && (|p| < |indices| ==> !((if p == [] then lo else p[|p| - 1] + 1) <= indices[|p|] < n))
  {
    if indices != [] && lo <= indices[0] < n {
      var rest, p := indices[1..], PayablePrefix(indices[1..], indices[0] + 1, n);
      PayablePrefixMeans(rest, indices[0] + 1, n);
      assert PayablePrefix(indices, lo, n) == [indices[0]] + p;
      hide PayablePrefix, Ascending;
      PrefixCons(indices, p, lo, n);
    }
  }

  /** Any prefix of indices that increases and is in range is part of it. */
  lemma {:induction false} PayablePrefixIsLongest(indices: seq<int>, lo: nat, n: nat, m: nat)
    requires m <= |indices| && Ascending(indices[..m]) && forall i :: 0 <= i < m ==> lo <= indices[i] < n
    ensures m <= |PayablePrefix(indices, lo, n)|
  {
    if m > 0 {
      var rest := indices[1..];
      assert forall i :: 0 <= i < m - 1 ==> rest[i] == indices[..m][i + 1] && indices[..m][0] < indices[..m][i + 1];
      assert rest[..m - 1] == indices[..m][1..];
      PayablePrefixIsLongest(rest, indices[0] + 1, n, m - 1);
    }
  }

  lemma PositionsMean(indices: seq<int>, n: nat)
    ensures var p := Positions(indices, n);
            && Ascending(p) && (forall i :: 0 <= i < |p| ==> p[i] < n)
            && |p| <= (if indices == [] then n else |indices|)
  {
    PayablePrefixMeans(indices, 0, n);
  }

  /** Of an increasing list, the indices in range are paid. */
  lemma PositionsOfAscending(indices: seq<int>, n: nat, x: int)
    requires indices != [] && Ascending(indices) && forall i :: 0 <= i < |indices| ==> indices[i] >= 0
    ensures x in Positions(indices, n) <==> x in indices && x < n
  {
    hide PayablePrefix;
    var p := PayablePrefix(indices, 0, n);
    PayablePrefixMeans(indices, 0, n);
    if x in p {
      var i :| 0 <= i < |p| && p[i] == x;
      assert indices[i] == x;
    }
    if x in indices && x < n {
      var i :| 0 <= i < |indices| && indices[i] == x;
      assert forall j :: 0 <= j < i ==> indices[j] < indices[i];
      PayablePrefixIsLongest(indices, 0, n, i + 1);
      assert p[i] == x;
    }
  }

  // ----- what a transfer does -----

  function Members(p: seq<nat>): set<nat> {
    set i | i in p
  }

  function Chosen(indices: seq<int>, n: nat): set<nat> {
    Members(Positions(indices, n))
  }

  /** What each allocation is paid. */
  function Payouts(holdings: nat, allocations: seq<Allocation>, indices: seq<int>): (r: seq<nat>)
    ensures |r| == |allocations|
  {
    Restrict(Affords(holdings, Amounts(allocations)), Chosen(indices, |allocations|))
  }

  function Remaining(holdings: nat, allocations: seq<Allocation>, indices: seq<int>): (r: seq<nat>)
    ensures |r| == |allocations|
    ensures forall i :: 0 <= i < |r| ==>
              r[i] + Payouts(holdings, allocations, indices)[i] == allocations[i].amount
  {
    AffordsSpends(holdings, Amounts(allocations));
    Minus(Amounts(allocations), Payouts(holdings, allocations, indices))
  }

  /** One slot for every index: the payments first, zero placeholders behind them. */
  function ExitSlots(allocations: seq<Allocation>, payouts: seq<nat>, indices: seq<int>): (r: seq<Allocation>)
    requires |payouts| == |allocations|
    ensures |r| == if indices == [] then |allocations| else |indices|
    ensures var p := Positions(indices, |allocations|);
            forall j :: 0 <= j < |r| ==>
              if j < |p| then p[j] < |allocations| && r[j] == allocations[p[j]].(amount := payouts[p[j]])
              else r[j] == PLACEHOLDER
  {
    var p := Positions(indices, |allocations|);
    PositionsMean(indices, |allocations|);
    seq(if indices == [] then |allocations| else |indices|,
        j requires 0 <= j => if j < |p| then allocations[p[j]].(amount := payouts[p[j]]) else PLACEHOLDER)
  }

  function Transferred(holdings: nat, allocations: seq<Allocation>, indices: seq<int>): TransferResult {
    var payouts := Payouts(holdings, allocations, indices);
    var remaining := Remaining(holdings, allocations, indices);
    TransferResult(WithAmounts(allocations, remaining),
                   forall i :: 0 <= i < |remaining| ==> remaining[i] == 0,
                   ExitSlots(allocations, payouts, indices),
                   Sum(payouts))
  }

  method ComputeTransfer(holdings: nat, allocations: seq<Allocation>, indices: seq<int>) returns (result: TransferResult)
    ensures result == Transferred(holdings, allocations, indices)
  {
    hide *;
    var n := |allocations|;
    var totalPayouts: nat := 0;
    var newAllocations: seq<Allocation> := [];
    var exits := new Allocation[if |indices| > 0 then |indices| else n](_ => PLACEHOLDER);
    var allocatesOnlyZeros := true;
    var surplus := holdings;
    var k := 0;
    ghost var w := Affords(holdings, Amounts(allocations));
    ghost var payouts := Payouts(holdings, allocations, indices);
    ghost var remaining := Remaining(holdings, allocations, indices);
    ghost var p := Positions(indices, n);
    PositionsMean(indices, n);
    NothingDone(allocations, remaining, payouts, p, exits[..]);
    assert payouts[..0] == [];
    assert w[0..] == w && Amounts(allocations)[0..] == Amounts(allocations);
    for i := 0 to n
      invariant Affords(surplus, Amounts(allocations)[i..]) == w[i..]
      invariant totalPayouts == Sum(payouts[..i])
      invariant k <= |p| <= exits.Length && Reached(p, i, k)
      invariant Computed(allocations, remaining, newAllocations, allocatesOnlyZeros, i)
      invariant Filled(allocations, payouts, p, exits[..], k)
    {
      ghost var newBefore, exitsBefore, zerosBefore := newAllocations, exits[..], allocatesOnlyZeros;
      ComputedLength(allocations, remaining, newAllocations, allocatesOnlyZeros, i);
      var amount := allocations[i].amount;
      newAllocations := newAllocations + [allocations[i].(amount := 0)];
      var affordsForDestination := Min(amount, surplus);
      NextAfforded(surplus, Amounts(allocations), w, i);
      PayoutAt(holdings, allocations, indices, i);
      SumNext(payouts, i);
      NextPosition(indices, n, i, k);
      if |indices| == 0 || (k < |indices| && indices[k] == i) {
        newAllocations := newAllocations[i := newAllocations[i].(amount := amount - affordsForDestination)];
        FillNext(allocations, payouts, p, exits[..], k);
        exits[k] := allocations[i].(amount := affordsForDestination);
        assert exits[..] == exitsBefore[k := allocations[i].(amount := payouts[i])];
        totalPayouts := totalPayouts + affordsForDestination;
        k := k + 1;
      } else {
        newAllocations := newAllocations[i := newAllocations[i].(amount := amount)];
        assert exits[..] == exitsBefore;
      }
      assert newAllocations == newBefore + [allocations[i].(amount := remaining[i])];
      if newAllocations[i].amount != 0 {
        allocatesOnlyZeros := false;
      }
      ComputeNext(allocations, remaining, newBefore, zerosBefore, i);
      surplus := surplus - affordsForDestination;
    }
    assert payouts[..n] == payouts;
    AllReached(p, n, k);
    result := TransferResult(newAllocations, allocatesOnlyZeros, exits[..], totalPayouts);
    AllDone(holdings, allocations, indices, result);
  }

  ghost predicate Computed(allocations: seq<Allocation>, remaining: seq<nat>, new': seq<Allocation>, onlyZeros: bool,
                           i: nat)
    requires i <= |allocations| == |remaining|
  {
    && |new'| == i
    && (forall q :: 0 <= q < i ==> new'[q] == allocations[q].(amount := remaining[q]))
    && (onlyZeros <==> forall q :: 0 <= q < i ==> remaining[q] == 0)
  }

  ghost predicate Filled(allocations: seq<Allocation>, payouts: seq<nat>, p: seq<nat>, exits: seq<Allocation>, k: nat)
    requires |payouts| == |allocations| && k <= |p| <= |exits| && forall j :: 0 <= j < |p| ==> p[j] < |allocations|
  {
    && (forall j :: 0 <= j < k ==> exits[j] == allocations[p[j]].(amount := payouts[p[j]]))
    && (forall j :: k <= j < |exits| ==> exits[j] == PLACEHOLDER)
  }

  lemma NothingDone(allocations: seq<Allocation>, remaining: seq<nat>, payouts: seq<nat>, p: seq<nat>,
                    exits: seq<Allocation>)
    requires |allocations| == |remaining| == |payouts| && |p| <= |exits|
    requires forall j :: 0 <= j < |p| ==> p[j] < |allocations|
    requires forall j :: 0 <= j < |exits| ==> exits[j] == PLACEHOLDER
    ensures Computed(allocations, remaining, [], true, 0) && Filled(allocations, payouts, p, exits, 0)
    ensures Reached(p, 0, 0) && Sum([]) == 0
  {
  }

  lemma ComputedLength(allocations: seq<Allocation>, remaining: seq<nat>, new': seq<Allocation>, onlyZeros: bool, i: nat)
    requires i <= |allocations| == |remaining| && Computed(allocations, remaining, new', onlyZeros, i)
    ensures |new'| == i
  {
  }

  lemma ComputeNext(allocations: seq<Allocation>, remaining: seq<nat>, new': seq<Allocation>, onlyZeros: bool, i: nat)
    requires i < |allocations| == |remaining| && Computed(allocations, remaining, new', onlyZeros, i)
    ensures Computed(allocations, remaining, new' + [allocations[i].(amount := remaining[i])],
                     onlyZeros && remaining[i] == 0, i + 1)
  {
  }

  lemma FillNext(allocations: seq<Allocation>, payouts: seq<nat>, p: seq<nat>, exits: seq<Allocation>, k: nat)
    requires |payouts| == |allocations| && k < |p| <= |exits| && forall j :: 0 <= j < |p| ==> p[j] < |allocations|
    requires Filled(allocations, payouts, p, exits, k)
    ensures Filled(allocations, payouts, p, exits[k := allocations[p[k]].(amount := payouts[p[k]])], k + 1)
  {
  }

  lemma AllDone(holdings: nat, allocations: seq<Allocation>, indices: seq<int>, result: TransferResult)
    requires var payouts := Payouts(holdings, allocations, indices);
             var remaining := Remaining(holdings, allocations, indices);
             var p := Positions(indices, |allocations|);
             && Computed(allocations, remaining, result.newAllocations, result.allocatesOnlyZeros, |allocations|)
             && |result.exitAllocations| == (if indices == [] then |allocations| else |indices|)
             && |p| <= |result.exitAllocations| && (forall j :: 0 <= j < |p| ==> p[j] < |allocations|)
             && Filled(allocations, payouts, p, result.exitAllocations, |p|)
             && result.totalPayouts == Sum(payouts)
    ensures result == Transferred(holdings, allocations, indices)
  {
    hide Payouts, Remaining, Positions;
    var remaining := Remaining(holdings, allocations, indices);
    assert result.newAllocations == WithAmounts(allocations, remaining);
    assert result.exitAllocations == ExitSlots(allocations, Payouts(holdings, allocations, indices), indices);
  }

  /** The first k positions are those below i. */
  ghost predicate Reached(p: seq<nat>, i: nat, k: nat) {
    forall j :: 0 <= j < |p| ==> (p[j] < i <==> j < k)
  }

  lemma PayoutAt(holdings: nat, allocations: seq<Allocation>, indices: seq<int>, i: nat)
    requires i < |allocations|
    ensures Payouts(holdings, allocations, indices)[i]
            == if i in Chosen(indices, |allocations|) then Affords(holdings, Amounts(allocations))[i] else 0
  {
  }

  lemma AllReached(p: seq<nat>, n: nat, k: nat)
    requires k <= |p| && Reached(p, n, k) && forall i :: 0 <= i < |p| ==> p[i] < n
    ensures k == |p|
  {
    assert p != [] ==> p[|p| - 1] < n;
  }

  lemma NextAfforded(surplus: nat, amounts: seq<nat>, w: seq<nat>, i: nat)
    requires i < |amounts| == |w| && Affords(surplus, amounts[i..]) == w[i..]
    ensures w[i] == Min(amounts[i], surplus)
    ensures Affords(surplus - Min(amounts[i], surplus), amounts[i + 1..]) == w[i + 1..]
  {
    assert amounts[i..] == [amounts[i]] + amounts[i + 1..];
    AffordsFirst(surplus, amounts[i], amounts[i + 1..]);
    assert w[i..][0] == w[i] && w[i..][1..] == w[i + 1..];
  }

  /** The cursor stops at position i exactly when i is to be paid. */
  lemma NextPosition(indices: seq<int>, n: nat, i: nat, k: nat)
    requires i < n && k <= |Positions(indices, n)| && Reached(Positions(indices, n), i, k)
    ensures var p := Positions(indices, n); var here := indices == [] || (k < |indices| && indices[k] == i);
            && (here <==> i in Chosen(indices, n))
            && (here ==> k < |p| && p[k] == i)
            && Reached(p, i + 1, if here then k + 1 else k)
  {
    var p := Positions(indices, n);
    PositionsMean(indices, n);
    if indices == [] {
      assert p[i] == i;
      assert k < n ==> p[k] == k;
    } else {
      PayablePrefixMeans(indices, 0, n);
      assert k > 0 ==> p[k - 1] < i;
    }
    assert i in p <==> k < |p| && p[k] == i;
    forall j | 0 <= j < |p| ensures p[j] < i + 1 <==> j < (if k < |p| && p[k] == i then k + 1 else k) {}
  }
}
