/** When a finished set-up means that everybody has signed a post-fund state: exactly, in terms of who moved. */
module SetUpClaims {
  import opened States
  import opened Support
  import opened StoredStates
  import opened SupportClaims

  /** p signed a stored state of turn m or later. */
  ghost predicate SignedSince(states: seq<SignedState>, m: nat, p: Address) {
    exists k :: 0 <= k < |states| && states[k].vars.turnNum >= m && p in Signers(states[k])
  }

  /** Every participant did. */
  ghost predicate AllSeenSince(r: Rules, states: seq<SignedState>, m: nat) {
    forall p :: p in r.participants ==> SignedSince(states, m, p)
  }

  /** The same states, with other signatures only where the mover has signed and still does. */
  ghost predicate SameMoves(r: Rules, xs: seq<SignedState>, ys: seq<SignedState>) {
    && |xs| == |ys|
    && forall k :: 0 <= k < |xs| ==> KeepsMove(r, xs[k], ys[k])
  }

  ghost predicate KeepsMove(r: Rules, x: SignedState, y: SignedState) {
    y.vars == x.vars && if r.MoverSigned(x) then r.MoverSigned(y) else y == x
  }

  /** p moved at a stored turn from m on, or signed such a state that its mover has not signed. */
  ghost predicate CountsSince(r: Rules, states: seq<SignedState>, m: nat, p: Address) {
    exists k :: 0 <= k < |states| && states[k].vars.turnNum >= m && p in Signers(states[k])
      && (r.MoverSigned(states[k]) ==> r.mover(states[k].vars.turnNum) == p)
  }

  /** An unbroken run leads from a mover-signed state before turn m to one of turn t or later. */
  ghost predicate Spans(r: Rules, states: seq<SignedState>, m: nat, t: nat) {
    exists f: nat, j: nat :: SpansAt(r, states, m, t, f, j)
  }

  ghost predicate SpansAt(r: Rules, states: seq<SignedState>, m: nat, t: nat, f: nat, j: nat) {
    && f <= j < |states| && r.Linked(states, f, j + 1)
    && r.MoverSigned(states[f]) && states[f].vars.turnNum >= t
    && r.MoverSigned(states[j]) && states[j].vars.turnNum < m
  }

  // ----- the guarantee -----

  lemma MoveIsSeen(r: Rules, xs: seq<SignedState>, ys: seq<SignedState>, m: nat, p: Address)
    requires SameMoves(r, xs, ys) && CountsSince(r, xs, m, p)
    ensures SignedSince(ys, m, p)
  {
    var k :| 0 <= k < |xs| && xs[k].vars.turnNum >= m && p in Signers(xs[k])
      && (r.MoverSigned(xs[k]) ==> r.mover(xs[k].vars.turnNum) == p);
    assert KeepsMove(r, xs[k], ys[k]);
    assert p in Signers(ys[k]) && ys[k].vars.turnNum >= m;
  }

  lemma {:induction false} LinkedAlike(r: Rules, xs: seq<SignedState>, ys: seq<SignedState>, a: nat, b: nat)
    requires SameMoves(r, xs, ys)
    ensures r.Linked(ys, a, b) == r.Linked(xs, a, b)
  {
    forall k: nat ensures r.Link(ys, k) == r.Link(xs, k) {
      if 0 < k < |xs| {
        assert KeepsMove(r, xs[k], ys[k]) && KeepsMove(r, xs[k - 1], ys[k - 1]);
      }
    }
  }

  /** A support that does not span the turns before m shows everybody's signature since turn m. */
  lemma UnspannedIsSeen(r: Rules, xs: seq<SignedState>, ys: seq<SignedState>, m: nat)
    requires Proper(r) && SameMoves(r, xs, ys) && r.IsSupported(ys) && WeaklyDescending(ys)
    requires !Spans(r, xs, m, SupportedTurn(r, ys))
    ensures AllSeenSince(r, ys, m)
  {
    hide Rules.SupportEnd, Rules.RunStart, Rules.Missing, Rules.Supporting;
    var e, t := r.SupportEnd(ys, 0), SupportedTurn(r, ys);
    var f := SupportEnds(r, ys);
    OldestIsSigned(r, ys);
    RunStartLinked(r, ys, e);
    assert r.Linked(ys, f, e + 1);
    LinkedAlike(r, xs, ys, f, e + 1);
    assert KeepsMove(r, xs[f], ys[f]) && KeepsMove(r, xs[e], ys[e]);
    assert ys[e].vars.turnNum >= m by {
      assert !SpansAt(r, xs, m, t, f, e);
    }
    forall p | p in r.participants ensures SignedSince(ys, m, p) {
      var k := SignedWithinSupport(r, ys, p);
    }
  }

  // ----- without it -----

  /** p has to sign before turn m only, and q not from position a to the one before the last. */
  function Spared(s: SignedState, k: nat, m: nat, p: Address, a: nat, last: nat, q: Address): set<Address> {
    (if s.vars.turnNum >= m then {p} else {}) + (if a <= k < last then {q} else {})
  }

  /** All other participants sign the mover-signed states. */
  function Reassigned(r: Rules, states: seq<SignedState>, m: nat, p: Address, a: nat, q: Address): (ys: seq<SignedState>)
    ensures |ys| == |states|
    ensures forall k :: 0 <= k < |states| ==>
              ys[k] == ReassignedState(r, states[k], Spared(states[k], k, m, p, a, |states| - 1, q))
  {
    seq(|states|, k requires 0 <= k < |states| =>
      ReassignedState(r, states[k], Spared(states[k], k, m, p, a, |states| - 1, q)))
  }

  function ReassignedState(r: Rules, s: SignedState, spared: set<Address>): SignedState {
    if !r.MoverSigned(s) then s
    else SignedState(s.vars, EntriesOf(r.participants, spared))
  }

  function EntriesOf(participants: seq<Address>, spared: set<Address>): seq<SignatureEntry> {
    if participants == [] then []
    else
      (if participants[0] !in spared then [SignatureEntry(participants[0], participants[0])] else [])
      + EntriesOf(participants[1..], spared)
  }

  lemma {:induction false} EntriesAre(vars: StateVars, participants: seq<Address>, spared: set<Address>, x: Address)
    ensures x in Signers(SignedState(vars, EntriesOf(participants, spared))) <==> x in participants && x !in spared
  {
    if participants != [] {
      var first := if participants[0] !in spared then [SignatureEntry(participants[0], participants[0])] else [];
      EntriesAre(vars, participants[1..], spared, x);
      SignersOfConcat(vars, first, EntriesOf(participants[1..], spared), x);
      SignersOfOne(vars, participants[0], x);
    }
  }

  lemma SignersOfOne(vars: StateVars, a: Address, q: Address)
    ensures q in Signers(SignedState(vars, [SignatureEntry(a, a)])) <==> q == a
    ensures q !in Signers(SignedState(vars, []))
  {
    assert SignedState(vars, [SignatureEntry(a, a)]).signatures[0].signer == a;
  }

  lemma SignersOfConcat(vars: StateVars, a: seq<SignatureEntry>, b: seq<SignatureEntry>, q: Address)
    ensures q in Signers(SignedState(vars, a + b))
            <==> q in Signers(SignedState(vars, a)) || q in Signers(SignedState(vars, b))
  {
    if i :| 0 <= i < |a| && a[i].signer == q {
      assert (a + b)[i].signer == q;
    }
    if i :| 0 <= i < |b| && b[i].signer == q {
      assert (a + b)[|a| + i].signer == q;
    }
  }

  /** Among the states from a to the one before the last, q has not moved. */
  ghost predicate Unmoved(r: Rules, states: seq<SignedState>, a: nat, q: Address) {
    forall k :: a <= k < |states| - 1 && r.MoverSigned(states[k]) ==> r.mover(states[k].vars.turnNum) != q
  }

  lemma ReassignedMeans(r: Rules, states: seq<SignedState>, m: nat, p: Address, a: nat, q: Address, k: nat)
    requires Proper(r) && p in r.participants && !CountsSince(r, states, m, p) && Unmoved(r, states, a, q)
    requires k < |states|
    ensures var y := Reassigned(r, states, m, p, a, q)[k];
            && KeepsMove(r, states[k], y)
            && (p in Signers(y) ==> y.vars.turnNum < m)
            && (r.MoverSigned(y) ==>
                  forall x :: x in Signers(y) <==> x in r.participants && x !in Spared(states[k], k, m, p, a, |states| - 1, q))
  {
    var s, spared := states[k], Spared(states[k], k, m, p, a, |states| - 1, q);
    if r.MoverSigned(s) {
      forall x ensures x in Signers(ReassignedState(r, s, spared)) <==> x in r.participants && x !in spared {
        EntriesAre(s.vars, r.participants, spared, x);
      }
    }
  }

  lemma ReassignedKeepsMoves(r: Rules, states: seq<SignedState>, m: nat, p: Address, a: nat, q: Address,
                             ys: seq<SignedState>)
    requires Proper(r) && p in r.participants && !CountsSince(r, states, m, p) && Unmoved(r, states, a, q)
    requires ys == Reassigned(r, states, m, p, a, q)
    ensures SameMoves(r, states, ys) && !SignedSince(ys, m, p)
    ensures forall k :: 0 <= k < |ys| && p in Signers(ys[k]) ==> ys[k].vars.turnNum < m
    ensures forall k :: a <= k < |ys| - 1 && r.MoverSigned(ys[k]) ==> q !in Signers(ys[k])
    ensures forall k :: 0 <= k < |ys| && r.MoverSigned(ys[k]) && ys[k].vars.turnNum < m && (k < a || k == |ys| - 1) ==>
              forall x :: x in r.participants ==> x in Signers(ys[k])
  {
    hide Reassigned, CountsSince, Rules.MoverSigned, KeepsMove, Signers;
    forall k | 0 <= k < |states|
      ensures KeepsMove(r, states[k], ys[k]) && (p in Signers(ys[k]) ==> ys[k].vars.turnNum < m)
      ensures r.MoverSigned(ys[k]) && a <= k < |ys| - 1 ==> q !in Signers(ys[k])
      ensures r.MoverSigned(ys[k]) && ys[k].vars.turnNum < m && (k < a || k == |ys| - 1) ==>
                forall x :: x in r.participants ==> x in Signers(ys[k])
    {
      ReassignedMeans(r, states, m, p, a, q, k);
      KeptVars(r, states[k], ys[k]);
    }
  }

  lemma KeptVars(r: Rules, x: SignedState, y: SignedState)
    requires KeepsMove(r, x, y)
    ensures y.vars == x.vars && (r.MoverSigned(x) <==> r.MoverSigned(y))
  {
  }

  /** If p's signatures since turn m can be spared, a store with the same moves counts as set up without them. */
  lemma SetUpWithout(r: Rules, states: seq<SignedState>, m: nat, t: nat, f: nat, j: nat, p: Address)
    returns (ys: seq<SignedState>)
    requires Proper(r) && Descending(states) && m <= t && SpansAt(r, states, m, t, f, j)
    requires p in r.participants && !CountsSince(r, states, m, p)
    ensures SameMoves(r, states, ys) && r.IsSupported(ys) && SupportedTurn(r, ys) >= t && !SignedSince(ys, m, p)
  {
    hide Rules.SupportEnd, Rules.RunStart, Rules.Missing, Rules.Supporting, CountsSince, Reassigned, SignedSince;
    ys := Reassigned(r, states, m, p, |states|, p);
    ReassignedKeepsMoves(r, states, m, p, |states|, p, ys);
    KeptVars(r, states[j], ys[j]);
    CoveredAt(r, states, ys, m, t, f, j);
    StartsAbove(r, states, ys, m, t, f, p);
  }

  /** The support cannot end before p has signed, so it starts at f at the latest. */
  lemma StartsAbove(r: Rules, states: seq<SignedState>, ys: seq<SignedState>, m: nat, t: nat, f: nat, p: Address)
    requires Proper(r) && Descending(states) && m <= t && f < |states| && states[f].vars.turnNum >= t
    requires SameMoves(r, states, ys) && r.MoverSigned(ys[f]) && p in r.participants
    requires forall k :: 0 <= k < |ys| && p in Signers(ys[k]) ==> ys[k].vars.turnNum < m
    requires r.IsSupported(ys) && r.RunStart(ys, r.SupportEnd(ys, 0)) <= f
    ensures SupportedTurn(r, ys) >= t && f < r.SupportEnd(ys, 0)
  {
    hide Rules.SupportEnd, Rules.RunStart, Rules.Missing, Rules.Supporting, Rules.MoverSigned, Signers;
    forall k | 0 <= k < |ys| ensures ys[k].vars == states[k].vars {
      KeptVars(r, states[k], ys[k]);
    }
    var k := SignedWithinSupport(r, ys, p);
    assert f < k;
    var g := SupportEnds(r, ys);
    assert g <= f;
  }

  // ----- both -----

  /** A supported turn of at least t means, for all lists with these moves, that everybody has signed a stored
      state since turn m, exactly if everybody's moves show it or no run leads back before turn m. */
  lemma SignedSinceExactly(r: Rules, states: seq<SignedState>, m: nat, t: nat)
    requires Proper(r) && Descending(states) && m <= t
    ensures (forall ys :: SameMoves(r, states, ys) && r.IsSupported(ys) && SupportedTurn(r, ys) >= t ==>
               AllSeenSince(r, ys, m))
            <==> !Spans(r, states, m, t) || forall p :: p in r.participants ==> CountsSince(r, states, m, p)
  {
    hide Rules.SupportEnd, Rules.RunStart, Rules.Missing, Rules.Supporting, CountsSince, SignedSince;
    if !Spans(r, states, m, t) || forall p :: p in r.participants ==> CountsSince(r, states, m, p) {
      forall ys | SameMoves(r, states, ys) && r.IsSupported(ys) && SupportedTurn(r, ys) >= t
        ensures AllSeenSince(r, ys, m)
      {
        SeenWith(r, states, ys, m, t);
      }
    } else {
      var f: nat, j: nat :| SpansAt(r, states, m, t, f, j);
      var p :| p in r.participants && !CountsSince(r, states, m, p);
      var ys := SetUpWithout(r, states, m, t, f, j, p);
      assert !AllSeenSince(r, ys, m);
    }
  }

  lemma SeenWith(r: Rules, states: seq<SignedState>, ys: seq<SignedState>, m: nat, t: nat)
    requires Proper(r) && Descending(states) && SameMoves(r, states, ys)
    requires r.IsSupported(ys) && SupportedTurn(r, ys) >= t
    requires !Spans(r, states, m, t) || forall p :: p in r.participants ==> CountsSince(r, states, m, p)
    ensures AllSeenSince(r, ys, m)
  {
    hide Rules.SupportEnd, Rules.RunStart, Rules.Missing, Rules.Supporting, CountsSince, SignedSince, SupportedTurn;
    if Spans(r, states, m, t) {
      forall p | p in r.participants ensures SignedSince(ys, m, p) {
        MoveIsSeen(r, states, ys, m, p);
      }
    } else {
      forall k | 0 <= k < |ys| ensures ys[k].vars == states[k].vars {
        assert KeepsMove(r, states[k], ys[k]);
      }
      assert forall f: nat, j: nat :: SpansAt(r, states, m, SupportedTurn(r, ys), f, j) ==> SpansAt(r, states, m, t, f, j);
      UnspannedIsSeen(r, states, ys, m);
    }
  }

  // ----- lists that a wallet leaves -----

  /** The run that ends the list leads back before turn m, passes a mover-signed state of turn t or later, and
      somebody has moved at its end only, or not at all. */
  ghost predicate SpansTidily(r: Rules, states: seq<SignedState>, m: nat, t: nat) {
    exists f: nat, q: Address :: SpansTidilyAt(r, states, m, t, f, q)
  }

  ghost predicate SpansTidilyAt(r: Rules, states: seq<SignedState>, m: nat, t: nat, f: nat, q: Address) {
    && f < |states| && SpansAt(r, states, m, t, f, |states| - 1)
    && q in r.participants && Unmoved(r, states, r.RunStart(states, |states| - 1), q)
  }

  /** If q signs the last state only, the support of the run ends there. */
  lemma EndsWithLast(r: Rules, ys: seq<SignedState>, a: nat, f: nat, q: Address)
    requires r.IsSupported(ys) && q in r.participants
    requires a == r.RunStart(ys, |ys| - 1) && a <= f < r.SupportEnd(ys, 0)
    requires forall k :: a <= k < |ys| - 1 && r.MoverSigned(ys[k]) ==> q !in Signers(ys[k])
    ensures r.SupportEnd(ys, 0) == |ys| - 1
  {
    hide Rules.SupportEnd, Rules.RunStart, Rules.Missing, Rules.Supporting;
    RunStartInside(r, ys, r.SupportEnd(ys, 0), |ys| - 1);
    var k := SignedWithinSupport(r, ys, q);
  }

  lemma {:induction false} RunStartAlike(r: Rules, xs: seq<SignedState>, ys: seq<SignedState>, i: nat)
    requires SameMoves(r, xs, ys) && i < |xs|
    ensures r.RunStart(ys, i) == r.RunStart(xs, i)
  {
    if i > 0 {
      assert KeepsMove(r, xs[i], ys[i]) && KeepsMove(r, xs[i - 1], ys[i - 1]);
      RunStartAlike(r, xs, ys, i - 1);
    }
  }

  /** If everybody signs the state at j, the run down to it is covered. */
  lemma CoveredAt(r: Rules, states: seq<SignedState>, ys: seq<SignedState>, m: nat, t: nat, f: nat, j: nat)
    requires SameMoves(r, states, ys) && SpansAt(r, states, m, t, f, j)
    requires forall x :: x in r.participants ==> x in Signers(ys[j])
    ensures r.IsSupported(ys) && r.RunStart(ys, r.SupportEnd(ys, 0)) <= f && r.MoverSigned(ys[f])
  {
    hide Rules.SupportEnd, Rules.RunStart, Rules.Missing, Rules.Supporting, Signers;
    LinkedAlike(r, states, ys, f, j + 1);
    KeptVars(r, states[j], ys[j]);
    KeptVars(r, states[f], ys[f]);
    forall x | x in r.participants ensures r.Endorsed(ys, f, j + 1, x) {
      assert r.Endorses(ys, j, x);
    }
    CoveringRunAfter(r, ys, f, j + 1);
  }

  lemma RunReachesUp(r: Rules, states: seq<SignedState>, m: nat, t: nat, f: nat, j: nat)
    requires SpansAt(r, states, m, t, f, j)
    ensures r.RunStart(states, j) <= f
  {
    RunStartLeast(r, states, f, j);
  }

  lemma TidilyWithout(r: Rules, states: seq<SignedState>, m: nat, t: nat, f: nat, q: Address, p: Address)
    returns (ys: seq<SignedState>)
    requires Proper(r) && Descending(states) && m <= t && SpansTidilyAt(r, states, m, t, f, q)
    requires p in r.participants && !CountsSince(r, states, m, p)
    ensures SameMoves(r, states, ys) && Tidy(r, ys) && r.IsSupported(ys) && SupportedTurn(r, ys) >= t
    ensures !SignedSince(ys, m, p)
  {
    hide Rules.SupportEnd, Rules.RunStart, Rules.Missing, Rules.Supporting, CountsSince, Reassigned, SignedSince, Unmoved;
    hide Signers, Proper, Rules.MoverSigned, SupportedTurn;
    var last := |states| - 1;
    var a := r.RunStart(states, last);
    ys := Reassigned(r, states, m, p, a, q);
    ReassignedKeepsMoves(r, states, m, p, a, q, ys);
    KeptVars(r, states[last], ys[last]);
    RunReachesUp(r, states, m, t, f, last);
    RunStartAlike(r, states, ys, last);
    SameTurns(r, states, ys);
    CoveredAt(r, states, ys, m, t, f, last);
    hide SameMoves, Descending;
    StartsAbove(r, states, ys, m, t, f, p);
    EndsWithLast(r, ys, a, f, q);
  }

  lemma SameTurns(r: Rules, xs: seq<SignedState>, ys: seq<SignedState>)
    requires SameMoves(r, xs, ys) && Descending(xs)
    ensures Descending(ys)
  {
    forall k | 0 <= k < |ys| ensures ys[k].vars == xs[k].vars {
      assert KeepsMove(r, xs[k], ys[k]);
    }
  }

  /** A tidy list that hides a missing signature spans the turns before m up to its end. */
  lemma UnseenSpansTidily(r: Rules, xs: seq<SignedState>, ys: seq<SignedState>, m: nat)
    requires Proper(r) && SameMoves(r, xs, ys) && Tidy(r, ys) && r.IsSupported(ys) && !AllSeenSince(r, ys, m)
    ensures SpansTidily(r, xs, m, SupportedTurn(r, ys))
  {
    hide Rules.SupportEnd, Rules.RunStart, Rules.Missing, Rules.Supporting;
    var last := |ys| - 1;
    var f := SupportEnds(r, ys);
    OldestIsSigned(r, ys);
    RunStartLinked(r, ys, last);
    RunStartAlike(r, xs, ys, last);
    assert r.Linked(ys, f, last + 1);
    LinkedAlike(r, xs, ys, f, last + 1);
    KeptVars(r, xs[f], ys[f]);
    KeptVars(r, xs[last], ys[last]);
    var p :| p in r.participants && !SignedSince(ys, m, p);
    var k := SignedWithinSupport(r, ys, p);
    assert ys[k].vars.turnNum < m;
    hide Signers, SignedSince, Rules.MoverSigned, Rules.Link;
    assert ys[last].vars.turnNum <= ys[k].vars.turnNum;
    var q := OldestIsNeeded(r, ys);
    NeededHasNotMoved(r, xs, ys, q);
    assert SpansTidilyAt(r, xs, m, SupportedTurn(r, ys), f, q);
  }

  lemma NeededHasNotMoved(r: Rules, xs: seq<SignedState>, ys: seq<SignedState>, q: Address)
    requires SameMoves(r, xs, ys) && Tidy(r, ys) && r.IsSupported(ys)
    requires forall s :: s in r.SupportOf(ys) && q in Signers(s) ==> s == ys[r.SupportEnd(ys, 0)]
    ensures Unmoved(r, xs, r.RunStart(ys, |ys| - 1), q)
  {
    hide Rules.SupportEnd, Rules.RunStart, Rules.Missing;
    var last := |ys| - 1;
    var a := r.RunStart(ys, last);
    SupportingMembers(r, ys, a, last + 1);
    forall k | a <= k < last && r.MoverSigned(xs[k]) ensures r.mover(xs[k].vars.turnNum) != q {
      KeptVars(r, xs[k], ys[k]);
      assert ys[k] in r.SupportOf(ys) && ys[k] != ys[last];
    }
  }

  lemma TidilySeen(r: Rules, states: seq<SignedState>, ys: seq<SignedState>, m: nat, t: nat)
    requires Proper(r) && SameMoves(r, states, ys) && Tidy(r, ys) && r.IsSupported(ys) && SupportedTurn(r, ys) >= t
    requires !SpansTidily(r, states, m, t) || forall p :: p in r.participants ==> CountsSince(r, states, m, p)
    ensures AllSeenSince(r, ys, m)
  {
    hide Rules.SupportEnd, Rules.RunStart, Rules.Missing, Rules.Supporting, CountsSince, SignedSince, SupportedTurn;
    hide Tidy, Unmoved, SameMoves;
    if SpansTidily(r, states, m, t) {
      forall p | p in r.participants ensures SignedSince(ys, m, p) {
        MoveIsSeen(r, states, ys, m, p);
      }
    } else if !AllSeenSince(r, ys, m) {
      UnseenSpansTidily(r, states, ys, m);
      SpansFurther(r, states, m, SupportedTurn(r, ys), t);
      assert false;
    }
  }

  lemma SpansFurther(r: Rules, states: seq<SignedState>, m: nat, t': nat, t: nat)
    requires SpansTidily(r, states, m, t') && t <= t'
    ensures SpansTidily(r, states, m, t)
  {
    var f: nat, q: Address :| SpansTidilyAt(r, states, m, t', f, q);
    assert SpansTidilyAt(r, states, m, t, f, q);
  }

  /** The same for the lists that a wallet leaves: tidy ones. */
  lemma TidySignedSinceExactly(r: Rules, states: seq<SignedState>, m: nat, t: nat)
    requires Proper(r) && Descending(states) && m <= t
    ensures (forall ys :: SameMoves(r, states, ys) && Tidy(r, ys) && r.IsSupported(ys) && SupportedTurn(r, ys) >= t ==>
               AllSeenSince(r, ys, m))
            <==> !SpansTidily(r, states, m, t) || forall p :: p in r.participants ==> CountsSince(r, states, m, p)
  {
    hide Rules.SupportEnd, Rules.RunStart, Rules.Missing, Rules.Supporting, CountsSince, SignedSince, Tidy, Unmoved;
    hide SameMoves, SupportedTurn;
    if !SpansTidily(r, states, m, t) || forall p :: p in r.participants ==> CountsSince(r, states, m, p) {
      forall ys | SameMoves(r, states, ys) && Tidy(r, ys) && r.IsSupported(ys) && SupportedTurn(r, ys) >= t
        ensures AllSeenSince(r, ys, m)
      {
        TidilySeen(r, states, ys, m, t);
      }
    } else {
      var f: nat, q: Address :| SpansTidilyAt(r, states, m, t, f, q);
      var p :| p in r.participants && !CountsSince(r, states, m, p);
      var ys := TidilyWithout(r, states, m, t, f, q, p);
      assert !AllSeenSince(r, ys, m);
    }
  }

  /** Have all participants signed a post-fund state? What the answer of the wallet means, exactly. */
  lemma PostFundExactly(r: Rules, states: seq<SignedState>)
    requires Proper(r) && Descending(states)
    ensures var n := |r.participants|;
            (forall ys :: SameMoves(r, states, ys) && Tidy(r, ys) && PostFundComplete(r, ys) ==> AllSeenSince(r, ys, n))
            <==> !SpansTidily(r, states, n, 2 * n - 1) || forall p :: p in r.participants ==> CountsSince(r, states, n, p)
  {
    hide Rules.SupportEnd, SpansTidily, CountsSince, AllSeenSince, SameMoves, SupportedTurn, Tidy;
    TidySignedSinceExactly(r, states, |r.participants|, 2 * |r.participants| - 1);
  }

  /** A gapless store meets both conditions. */
  lemma GaplessMoves(r: Rules, states: seq<SignedState>)
    requires Proper(r) && RoundRobin(r) && Gapless(r, states) && Descending(states)
    ensures var n := |r.participants|;
            !Spans(r, states, n, 2 * n - 1) || forall p :: p in r.participants ==> CountsSince(r, states, n, p)
    ensures SpansTidily(r, states, |r.participants|, 2 * |r.participants| - 1) ==>
              Spans(r, states, |r.participants|, 2 * |r.participants| - 1)
  {
    var n := |r.participants|;
    var t := 2 * n - 1;
    if f: nat, j: nat :| SpansAt(r, states, n, t, f, j) {
      forall p | p in r.participants ensures CountsSince(r, states, n, p) {
        var i :| 0 <= i < n && r.participants[i] == p;
        var d := TurnOf(t, i, n);
        var k := TurnWithin(r, states, f, j, t - d);
        assert r.MoverSigned(states[k]) && r.mover(states[k].vars.turnNum) == p;
      }
    }
  }

  /** A run passes every turn between its ends. */
  lemma TurnWithin(r: Rules, states: seq<SignedState>, f: nat, j: nat, t: nat) returns (k: nat)
    requires Proper(r) && f <= j < |states| && r.Linked(states, f, j + 1)
    requires states[j].vars.turnNum <= t <= states[f].vars.turnNum
    ensures f <= k <= j && states[k].vars.turnNum == t
  {
    LinkedTurns(r, states, f, j + 1, j);
    k := f + (states[f].vars.turnNum - t);
    LinkedTurns(r, states, f, j + 1, k);
  }
}
