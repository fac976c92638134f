/** A claim is a transfer of the guarantee's funds over the targets, in the order the guarantee lists them. */
module ClaimRefinement {
  import opened Lists
  import opened Waterfall
  import opened Transfer
  import opened PartialTransfers
  import opened Claim

  /** The targets that the guarantee names, in its order. */
  function Matched(targets: seq<Allocation>, destinations: seq<nat>): (m: seq<nat>)
    ensures forall q :: 0 <= q < |m| ==> m[q] < |targets|
  {
    if destinations == [] then []
    else
      var last := |destinations| - 1;
      var i := FindDestination(targets, destinations[last]);
      Matched(targets, destinations[..last]) + if i < 0 then [] else [i]
  }

  function Pick(targets: seq<Allocation>, m: seq<nat>): (r: seq<Allocation>)
    requires forall q :: 0 <= q < |m| ==> m[q] < |targets|
    ensures |r| == |m| && forall q :: 0 <= q < |r| ==> r[q] == targets[m[q]]
  {
    seq(|m|, q requires 0 <= q < |m| => targets[m[q]])
  }

  /** The first position of x in m, |m| if there is none. */
  function PositionIn(m: seq<nat>, x: int): (q: nat)
    ensures q <= |m| && (q < |m| ==> m[q] == x)
    ensures forall i :: 0 <= i < q ==> m[i] != x
  {
    if m == [] || m[0] == x then 0 else PositionIn(m[1..], x) + 1
  }

  /** Indices of targets, counted along the guarantee. */
  function Translate(m: seq<nat>, indices: seq<int>): (r: seq<int>)
    ensures |r| == |indices| && forall k :: 0 <= k < |r| ==> r[k] == PositionIn(m, indices[k])
  {
    seq(|indices|, k requires 0 <= k < |indices| => PositionIn(m, indices[k]))
  }

  lemma {:induction false} MatchedDestinations(targets: seq<Allocation>, destinations: seq<nat>)
    ensures forall q :: 0 <= q < |Matched(targets, destinations)| ==>
              targets[Matched(targets, destinations)[q]].destination in destinations
  {
    if destinations != [] {
      MatchedDestinations(targets, destinations[..|destinations| - 1]);
    }
  }

  lemma {:induction false} MatchedNoDuplicates(targets: seq<Allocation>, destinations: seq<nat>)
    requires NoDuplicates(destinations)
    ensures NoDuplicates(Matched(targets, destinations))
  {
    if destinations != [] {
      var init, last := destinations[..|destinations| - 1], destinations[|destinations| - 1];
      MatchedNoDuplicates(targets, init);
      MatchedDestinations(targets, init);
      assert last !in init;
    }
  }

  lemma {:induction false} MatchedPrefix(targets: seq<Allocation>, destinations: seq<nat>, j: nat)
    requires j <= |destinations|
    ensures Matched(targets, destinations[..j]) <= Matched(targets, destinations)
  {
    if j == |destinations| {
      assert destinations[..j] == destinations;
    } else {
      var init := destinations[..|destinations| - 1];
      MatchedPrefix(targets, init, j);
      assert init[..j] == destinations[..j];
    }
  }

  // ----- the computations side by side -----

  /** After the first destinations of a guarantee, with c targets matched: the funds left, the cursor, and
      the payments are those of the transfer over the matched targets m after c positions. */
  ghost predicate InStep(targets: seq<Allocation>, m: seq<nat>, w: seq<nat>, indices: seq<int>, c: nat, st: Progress)
    requires (forall q :: 0 <= q < |m| ==> m[q] < |targets|) && |w| == |m| && c <= |m| && |st.paid| == |targets|
  {
    var p := Positions(Translate(m, indices), |m|);
    && Affords(st.surplus, Amounts(Pick(targets, m))[c..]) == w[c..]
    && (st.surplus > 0 ==> st.k <= |p| && Reached(p, c, st.k))
    && (forall q :: 0 <= q < c ==> st.paid[m[q]] == if q in Chosen(Translate(m, indices), |m|) then w[q] else 0)
    && (forall i :: 0 <= i < |targets| && i !in m[..c] ==> st.paid[i] == 0)
  }

  lemma StaysInStep(targets: seq<Allocation>, m: seq<nat>, w: seq<nat>, indices: seq<int>, c: nat, st: Progress)
    requires (forall q :: 0 <= q < |m| ==> m[q] < |targets|) && |w| == |m| && c < |m| && NoDuplicates(m)
    requires Within(st.paid, Amounts(targets)) && InStep(targets, m, w, indices, c, st)
    requires st.surplus == 0
    ensures InStep(targets, m, w, indices, c + 1, st)
  {
    var amounts := Amounts(Pick(targets, m));
    NextAfforded(0, amounts, w, c);
    assert m[..c + 1] == m[..c] + [m[c]];
    assert m[c] !in m[..c];
  }

  /** One matched destination. */
  lemma StepInStep(targets: seq<Allocation>, m: seq<nat>, w: seq<nat>, indices: seq<int>, c: nat, st: Progress,
                   next: Progress)
    requires (forall q :: 0 <= q < |m| ==> m[q] < |targets|) && |w| == |m| && c < |m| && NoDuplicates(m)
    requires Within(st.paid, Amounts(targets)) && InStep(targets, m, w, indices, c, st) && st.surplus > 0
    requires var i := m[c]; var affords := Min(targets[i].amount - st.paid[i], st.surplus);
             next == if Pays(indices, st.k, i)
                     then Progress(st.paid[i := st.paid[i] + affords], st.surplus - affords, st.k + 1)
                     else st.(surplus := st.surplus - affords)
    ensures InStep(targets, m, w, indices, c + 1, next)
  {
    hide Affords, Positions, Reached, Chosen;
    var amounts := Amounts(Pick(targets, m));
    var i, J := m[c], Translate(m, indices);
    assert m[..c + 1] == m[..c] + [i];
    assert i !in m[..c] && st.paid[i] == 0;
    NextAfforded(st.surplus, amounts, w, c);
    NextPosition(J, |m|, c, st.k);
    assert st.k < |indices| ==> (indices[st.k] == i <==> J[st.k] == c);
  }

  lemma ClaimNextInStep(targets: seq<Allocation>, destinations: seq<nat>, m: seq<nat>, w: seq<nat>, indices: seq<int>,
                        start: Progress, j: nat)
    requires j < |destinations| && |w| == |m| && m == Matched(targets, destinations) && NoDuplicates(m)
    requires Within(start.paid, Amounts(targets))
    requires var c := |Matched(targets, destinations[..j])|;
             c <= |m| && InStep(targets, m, w, indices, c, ClaimAll(targets, indices, destinations[..j], start))
    ensures var c := |Matched(targets, destinations[..j + 1])|;
            c <= |m| && InStep(targets, m, w, indices, c, ClaimAll(targets, indices, destinations[..j + 1], start))
  {
    hide InStep, ClaimStep, ClaimAll, Matched, FindDestination, NoDuplicates, Within, Sum;
    var st := ClaimAll(targets, indices, destinations[..j], start);
    var c := |Matched(targets, destinations[..j])|;
    NextDestination(targets, indices, destinations, start, j);
    NextMatched(targets, destinations, j);
    MatchedPrefix(targets, destinations, j + 1);
    StepCases(targets, indices, destinations[j], st);
    var i := FindDestination(targets, destinations[j]);
    if i >= 0 {
      assert m[c] == Matched(targets, destinations[..j + 1])[c] == i;
      if st.surplus == 0 {
        StaysInStep(targets, m, w, indices, c, st);
      } else {
        StepInStep(targets, m, w, indices, c, st, ClaimStep(targets, indices, destinations[j], st));
      }
    }
  }

  lemma {:induction false} ClaimInStep(targets: seq<Allocation>, destinations: seq<nat>, indices: seq<int>, funds: nat,
                                       j: nat)
    requires NoDuplicates(destinations) && j <= |destinations|
    ensures var m := Matched(targets, destinations);
            var st := ClaimAll(targets, indices, destinations[..j], Progress(Zeros(|targets|), funds, 0));
            var c := |Matched(targets, destinations[..j])|;
            c <= |m| && InStep(targets, m, Affords(funds, Amounts(Pick(targets, m))), indices, c, st)
  {
    hide InStep, Affords, Sum;
    var m := Matched(targets, destinations);
    var w := Affords(funds, Amounts(Pick(targets, m)));
    var start := Progress(Zeros(|targets|), funds, 0);
    MatchedNoDuplicates(targets, destinations);
    if j == 0 {
      StartInStep(targets, m, w, indices, start);
    } else {
      ClaimInStep(targets, destinations, indices, funds, j - 1);
      ClaimNextInStep(targets, destinations, m, w, indices, start, j - 1);
    }
  }

  lemma StartInStep(targets: seq<Allocation>, m: seq<nat>, w: seq<nat>, indices: seq<int>, st: Progress)
    requires (forall q :: 0 <= q < |m| ==> m[q] < |targets|) && w == Affords(st.surplus, Amounts(Pick(targets, m)))
    requires st.paid == Zeros(|targets|) && st.k == 0
    ensures InStep(targets, m, w, indices, 0, st)
  {
    assert w[0..] == w && Amounts(Pick(targets, m))[0..] == Amounts(Pick(targets, m));
  }

  lemma NextMatched(targets: seq<Allocation>, destinations: seq<nat>, j: nat)
    requires j < |destinations|
    ensures var i := FindDestination(targets, destinations[j]);
            Matched(targets, destinations[..j + 1]) == Matched(targets, destinations[..j]) + if i < 0 then [] else [i]
  {
    assert destinations[..j + 1][..j] == destinations[..j];
  }

  lemma StepCases(targets: seq<Allocation>, indices: seq<int>, destination: nat, st: Progress)
    requires Within(st.paid, Amounts(targets))
    ensures var i := FindDestination(targets, destination);
            ClaimStep(targets, indices, destination, st)
            == if st.surplus == 0 || i < 0 then st
               else
                 var affords := Min(targets[i].amount - st.paid[i], st.surplus);
                 if Pays(indices, st.k, i)
                 then Progress(st.paid[i := st.paid[i] + affords], st.surplus - affords, st.k + 1)
                 else st.(surplus := st.surplus - affords)
  {
    hide FindDestination, Sum, Amounts, Pays;
  }

  // ----- refinement -----

  /** The guarantee that a claim draws on. */
  ghost predicate Guaranteed(sources: seq<Allocation>, idx: int) {
    && 0 <= idx < |sources| && sources[idx].allocationType == GUARANTEE
    && sources[idx].metadata.Guarantees? && NoDuplicates(sources[idx].metadata.destinations)
  }

  /** What each target is paid by a claim. */
  function ClaimPayouts(holdings: nat, sources: seq<Allocation>, targets: seq<Allocation>, idx: nat, indices: seq<int>)
    : (r: seq<nat>)
    requires idx < |sources| && sources[idx].metadata.Guarantees?
    ensures |r| == |targets| && Within(r, Amounts(targets)) && Sum(r) <= Funds(holdings, sources, idx)
  {
    ClaimAll(targets, indices, sources[idx].metadata.destinations,
             Progress(Zeros(|targets|), Funds(holdings, sources, idx), 0)).paid
  }

  /** The matched targets are paid as listed, and all others nothing. */
  ghost predicate PaidAlong(paid: seq<nat>, m: seq<nat>, payouts: seq<nat>) {
    && |payouts| == |m| && (forall q :: 0 <= q < |m| ==> m[q] < |paid| && paid[m[q]] == payouts[q])
    && (forall i :: 0 <= i < |paid| && i !in m ==> paid[i] == 0)
    && Sum(paid) == Sum(payouts)
  }

  lemma PayoutsInStep(holdings: nat, sources: seq<Allocation>, targets: seq<Allocation>, idx: nat, indices: seq<int>)
    requires Guaranteed(sources, idx)
    ensures var m := Matched(targets, sources[idx].metadata.destinations);
            var paid := ClaimPayouts(holdings, sources, targets, idx, indices);
            var payouts := Payouts(Funds(holdings, sources, idx), Pick(targets, m), Translate(m, indices));
            PaidAlong(paid, m, payouts)
  {
    hide ClaimAll, Affords, Chosen, Funds, Matched, Positions, Reached;
    var destinations := sources[idx].metadata.destinations;
    var m := Matched(targets, destinations);
    var paid := ClaimPayouts(holdings, sources, targets, idx, indices);
    assert destinations[..|destinations|] == destinations;
    ClaimInStep(targets, destinations, indices, Funds(holdings, sources, idx), |destinations|);
    assert m[..|m|] == m;
    MatchedNoDuplicates(targets, destinations);
    SumOverMatched(paid, m, Payouts(Funds(holdings, sources, idx), Pick(targets, m), Translate(m, indices)));
  }

  lemma SumOverMatched(paid: seq<nat>, m: seq<nat>, payouts: seq<nat>)
    requires NoDuplicates(m) && |payouts| == |m|
    requires forall q :: 0 <= q < |m| ==> m[q] < |paid| && paid[m[q]] == payouts[q]
    requires forall i :: 0 <= i < |paid| && i !in m ==> paid[i] == 0
    ensures Sum(paid) == Sum(payouts)
  {
    SumRestricted(paid, m);
    assert Restrict(paid, Members(m)) == paid;
    SumSlots(paid, m, payouts);
  }

  /** For distinct guarantee destinations, a claim pays what a transfer of the guarantee's funds over the
      matched targets pays, and leaves all other targets as they are. */
  lemma ClaimRefinesTransfer(holdings: nat, sources: seq<Allocation>, targets: seq<Allocation>, idx: nat,
                             indices: seq<int>)
    requires Guaranteed(sources, idx)
    ensures var c := Claiming(holdings, sources, targets, idx, indices);
            var m := Matched(targets, sources[idx].metadata.destinations);
            var funds, picked, counted := Funds(holdings, sources, idx), Pick(targets, m), Translate(m, indices);
            var t := Transferred(funds, picked, counted);
            && c.Claimed? && c.totalPayouts == t.totalPayouts
            && |c.newTargetAllocations| == |c.exitAllocations| == |targets|
            && (forall q :: 0 <= q < |m| ==>
                  && c.newTargetAllocations[m[q]] == t.newAllocations[q]
                  && c.exitAllocations[m[q]] == picked[q].(amount := Payouts(funds, picked, counted)[q]))
            && (forall i :: 0 <= i < |targets| && i !in m ==>
                  c.newTargetAllocations[i] == targets[i] && c.exitAllocations[i].amount == 0)
  {
    hide ClaimAll, Affords, Chosen, Funds, Matched, Positions, Sum;
    PayoutsInStep(holdings, sources, targets, idx, indices);
  }

  /** Claiming everything pays the matched targets what the funds afford in the guarantee's order. */
  lemma ClaimEverything(holdings: nat, sources: seq<Allocation>, targets: seq<Allocation>, idx: nat)
    requires Guaranteed(sources, idx)
    ensures var c := Claiming(holdings, sources, targets, idx, []);
            var m := Matched(targets, sources[idx].metadata.destinations);
            var w := Affords(Funds(holdings, sources, idx), Amounts(Pick(targets, m)));
            && c.Claimed? && |c.exitAllocations| == |targets|
            && (forall q :: 0 <= q < |m| ==> c.exitAllocations[m[q]].amount == w[q])
            && (forall i :: 0 <= i < |targets| && i !in m ==> c.exitAllocations[i].amount == 0)
            && c.totalPayouts == Min(Funds(holdings, sources, idx), Sum(Amounts(Pick(targets, m))))
  {
    hide ClaimAll, Affords, Funds, Matched, Sum;
    var m := Matched(targets, sources[idx].metadata.destinations);
    var funds, picked := Funds(holdings, sources, idx), Pick(targets, m);
    ClaimRefinesTransfer(holdings, sources, targets, idx, []);
    AffordsSpends(funds, Amounts(picked));
    assert Translate(m, []) == [];
    PayoutsOfAll(funds, picked);
  }

  // ----- conservation -----

  /** Every claim, whatever its guarantee lists: what leaves the targets is paid out, the source entry falls
      by the total, and the total is within the funds that the earlier source allocations leave. */
  lemma ClaimConserves(holdings: nat, sources: seq<Allocation>, targets: seq<Allocation>, idx: int, indices: seq<int>)
    requires Claiming(holdings, sources, targets, idx, indices).Claimed?
    ensures var c := Claiming(holdings, sources, targets, idx, indices);
            && 0 <= idx < |sources|
            && c.totalPayouts == Sum(Amounts(c.exitAllocations)) <= Funds(holdings, sources, idx)
            && Sum(Affords(holdings, Amounts(sources))[..idx]) + c.totalPayouts <= holdings
            && |c.newTargetAllocations| == |c.exitAllocations| == |targets|
            && (forall i :: 0 <= i < |targets| ==>
                  && c.exitAllocations[i].amount <= targets[i].amount
                  && c.newTargetAllocations[i] == targets[i].(amount := targets[i].amount - c.exitAllocations[i].amount)
                  && c.exitAllocations[i] == targets[i].(amount := c.exitAllocations[i].amount))
            && c.totalPayouts <= sources[idx].amount
            && c.newSourceAllocations == sources[idx := sources[idx].(amount := sources[idx].amount - c.totalPayouts)]
  {
    hide ClaimAll, Affords;
    var paid := ClaimPayouts(holdings, sources, targets, idx, indices);
    assert Amounts(Claiming(holdings, sources, targets, idx, indices).exitAllocations) == paid;
    var w := Affords(holdings, Amounts(sources));
    AffordsSpends(holdings, Amounts(sources));
    SumNext(w, idx);
    assert w == w[..idx + 1] + w[idx + 1..];
    SumConcat(w[..idx + 1], w[idx + 1..]);
  }
}
