/** When a conclusion proof of the browser wallet shows one outcome: exactly, in terms of turns and final flags. */
module ConclusionClaims {
  import opened States
  import opened Support
  import opened StoredStates
  import opened BrowserStore
  import opened SupportClaims

  /** A conclusion proof always shows that everybody signed a final state. */
  lemma ConclusionMeansFinal(r: Rules, states: seq<SignedState>)
    requires HasConclusionProof(r, states)
    ensures EveryoneSignedFinal(r, states)
  {
    hide Rules.SupportEnd, Rules.RunStart, Rules.Missing, Rules.Supporting, Rules.SupportOf;
    var e := r.SupportEnd(states, 0);
    RunMembers(r, states);
    forall p | p in r.participants
      ensures exists s :: s in r.SupportOf(states) && p in Signers(s) && s.vars.isFinal
    {
      var k := SignedWithinSupport(r, states, p);
      assert states[k] in r.SupportOf(states);
    }
  }

  lemma RunMembers(r: Rules, states: seq<SignedState>)
    requires r.IsSupported(states)
    ensures var e := r.SupportEnd(states, 0);
            forall s :: s in r.SupportOf(states) <==>
              exists k :: r.RunStart(states, e) <= k < e + 1 && states[k] == s && r.MoverSigned(states[k])
  {
    var e := r.SupportEnd(states, 0);
    SupportingMembers(r, states, r.RunStart(states, e), e + 1);
  }

  /** The same states but for their outcomes, with the same run as the support. */
  ghost predicate SameButOutcomes(r: Rules, xs: seq<SignedState>, ys: seq<SignedState>) {
    && |xs| == |ys|
    && (forall k :: 0 <= k < |xs| ==> ys[k] == xs[k].(vars := xs[k].vars.(outcome := ys[k].vars.outcome)))
    && r.SupportEnd(ys, 0) == r.SupportEnd(xs, 0)
    && (r.IsSupported(xs) ==> r.RunStart(ys, r.SupportEnd(xs, 0)) == r.RunStart(xs, r.SupportEnd(xs, 0)))
  }

  /** A link into a state that is final, or of the first two rounds, keeps the outcome. */
  predicate KeepsOutcome(n: nat, s: SignedState) {
    s.vars.isFinal || s.vars.turnNum < 2 * n
  }

  /** From the newest supporting state at f down to the oldest one, every link keeps the outcome. */
  ghost predicate OutcomeKeptFrom(r: Rules, states: seq<SignedState>, f: nat)
    requires r.IsSupported(states)
  {
    forall k :: f <= k < r.SupportEnd(states, 0) ==> KeepsOutcome(|r.participants|, states[k])
  }

  lemma {:induction false} KeptAlong(participants: seq<Address>, states: seq<SignedState>, f: nat, b: nat, k: nat)
    requires participants != [] && f <= k < b <= |states| && BrowserRules(participants).Linked(states, f, b)
    requires forall i :: f <= i < b - 1 ==> KeepsOutcome(|participants|, states[i])
    ensures states[k].vars.outcome == states[f].vars.outcome
  {
    if f < k {
      KeptAlong(participants, states, f, b, k - 1);
      var r := BrowserRules(participants);
      assert r.Link(states, k) && KeepsOutcome(|participants|, states[k - 1]);
      OutcomesEqualMeansSame(states[k].vars.outcome, states[k - 1].vars.outcome);
    }
  }

  /** Where every link keeps the outcome, there is one. */
  lemma KeptMeansOne(participants: seq<Address>, states: seq<SignedState>, f: nat)
    requires participants != [] && IsFirst(BrowserRules(participants), states, f)
    requires OutcomeKeptFrom(BrowserRules(participants), states, f)
    ensures OneOutcome(BrowserRules(participants), states, o => o)
  {
    var r := BrowserRules(participants);
    hide Rules.SupportEnd, Rules.RunStart, Rules.Missing, Rules.Supporting, Rules.SupportOf, BrowserRules;
    var e := r.SupportEnd(states, 0);
    RunMembers(r, states);
    RunStartLinked(r, states, e);
    forall s | s in r.SupportOf(states) ensures s.vars.outcome == states[f].vars.outcome {
      var k :| r.RunStart(states, e) <= k < e + 1 && states[k] == s && r.MoverSigned(states[k]);
      KeptAlong(participants, states, f, e + 1, k);
    }
  }

  // ----- a second outcome -----

  function OtherOutcome(o: Outcome): (r: Outcome)
    ensures r != o
  {
    var first, second := Guarantee("", "", []), Guarantee("", "", [""]);
    assert |first.destinations| != |second.destinations|;
    if o == first then second else first
  }

  /** The states from a to k get the outcome at a, older ones another one. */
  function Relabelled(states: seq<SignedState>, a: nat, k: nat): (ys: seq<SignedState>)
    requires a <= k < |states|
    ensures |ys| == |states| && ys[..a] == states[..a] && ys[a] == states[a]
    ensures forall i :: 0 <= i < |ys| ==>
              ys[i] == states[i].(vars := states[i].vars.(outcome :=
                if i < a then states[i].vars.outcome
                else if i <= k then states[a].vars.outcome
                else OtherOutcome(states[a].vars.outcome)))
  {
    var ys := seq(|states|, i requires 0 <= i < |states| =>
      states[i].(vars := states[i].vars.(outcome :=
        if i < a then states[i].vars.outcome
        else if i <= k then states[a].vars.outcome
        else OtherOutcome(states[a].vars.outcome))));
    assert ys[a] == states[a];
    ys
  }

  /** Unless the link into k keeps the outcome, relabelling breaks no link within the run. */
  lemma RelabelledLink(participants: seq<Address>, states: seq<SignedState>, a: nat, k: nat, i: nat)
    requires participants != [] && a <= k < |states| && a < i < |states|
    requires BrowserRules(participants).Link(states, i) && !KeepsOutcome(|participants|, states[k])
    ensures BrowserRules(participants).Link(Relabelled(states, a, k), i)
  {
    var ys := Relabelled(states, a, k);
    OutcomesEqualMeansSame(ys[i].vars.outcome, ys[i - 1].vars.outcome);
    assert ys[i - 1].vars == states[i - 1].vars.(outcome := ys[i - 1].vars.outcome);
    assert ys[i].vars == states[i].vars.(outcome := ys[i].vars.outcome);
  }

  /** Lists with the same turns and signatures lack the same participants. */
  lemma {:induction false} MissingAlike(r: Rules, xs: seq<SignedState>, ys: seq<SignedState>, a: nat, b: nat)
    requires |xs| == |ys| && b <= |xs|
    requires forall k :: 0 <= k < |xs| ==>
               ys[k].vars.turnNum == xs[k].vars.turnNum && ys[k].signatures == xs[k].signatures
    ensures r.Missing(xs, a, b) == r.Missing(ys, a, b)
  {
    if a < b {
      MissingAlike(r, xs, ys, a, b - 1);
      assert Signers(xs[b - 1]) == Signers(ys[b - 1]);
    }
  }

  lemma {:induction false} RelabelledRun(participants: seq<Address>, states: seq<SignedState>, a: nat, k: nat, i: nat)
    requires participants != [] && a <= k < |states| && !KeepsOutcome(|participants|, states[k])
    requires i < |states| && (i < a || BrowserRules(participants).Linked(states, a, i + 1))
    ensures BrowserRules(participants).RunStart(Relabelled(states, a, k), i) == BrowserRules(participants).RunStart(states, i)
  {
    hide BrowserRules;
    var r, ys := BrowserRules(participants), Relabelled(states, a, k);
    if i <= a {
      assert ys[..i + 1] == states[..i + 1] by {
        assert i < a ==> ys[..i + 1] == ys[..a][..i + 1] && states[..i + 1] == states[..a][..i + 1];
      }
      RunStartAgrees(r, ys, states, i);
    } else {
      assert r.Link(states, i);
      RelabelledLink(participants, states, a, k, i);
      RelabelledRun(participants, states, a, k, i - 1);
    }
  }

  /** The run that goes back to i starts at the same place, and lacks the same participants. */
  ghost predicate SameRun(r: Rules, xs: seq<SignedState>, ys: seq<SignedState>, i: nat)
    requires i < |xs| == |ys|
  {
    && r.RunStart(ys, i) == r.RunStart(xs, i)
    && r.Missing(ys, r.RunStart(xs, i), i + 1) == r.Missing(xs, r.RunStart(xs, i), i + 1)
  }

  lemma {:induction false} SameEnd(r: Rules, xs: seq<SignedState>, ys: seq<SignedState>, i: nat, e: nat)
    requires i <= e < |xs| == |ys| && r.SupportEnd(xs, i) == e
    requires forall j :: i <= j <= e ==> SameRun(r, xs, ys, j)
    ensures r.SupportEnd(ys, i) == e
    decreases e - i
  {
    hide Rules.RunStart, Rules.Missing;
    assert SameRun(r, xs, ys, i);
    if i < e {
      SameEnd(r, xs, ys, i + 1, e);
    }
  }

  lemma RelabelledEnd(participants: seq<Address>, states: seq<SignedState>, a: nat, k: nat)
    requires participants != [] && BrowserRules(participants).IsSupported(states)
    requires var r := BrowserRules(participants); var e := r.SupportEnd(states, 0); a == r.RunStart(states, e) <= k < e
    requires !KeepsOutcome(|participants|, states[k])
    ensures var r := BrowserRules(participants);
            r.SupportEnd(Relabelled(states, a, k), 0) == r.SupportEnd(states, 0)
  {
    hide BrowserRules, KeepsOutcome, Rules.SupportEnd, Rules.RunStart, Rules.Missing;
    var r, ys := BrowserRules(participants), Relabelled(states, a, k);
    var e := r.SupportEnd(states, 0);
    RunStartLinked(r, states, e);
    forall i | 0 <= i <= e ensures SameRun(r, states, ys, i) {
      RelabelledRun(participants, states, a, k, i);
      MissingAlike(r, states, ys, r.RunStart(states, i), i + 1);
    }
    SameEnd(r, states, ys, 0, e);
  }

  /** If some link does not keep the outcome, states that differ in their outcomes only have two of them. */
  lemma TwoOutcomes(participants: seq<Address>, states: seq<SignedState>, f: nat, k: nat) returns (ys: seq<SignedState>)
    requires participants != [] && IsFirst(BrowserRules(participants), states, f)
    requires f <= k < BrowserRules(participants).SupportEnd(states, 0) && !KeepsOutcome(|participants|, states[k])
    ensures SameButOutcomes(BrowserRules(participants), states, ys)
    ensures !OneOutcome(BrowserRules(participants), ys, o => o)
  {
    hide BrowserRules, Rules.SupportEnd, Rules.RunStart, Rules.Supporting, Rules.SupportOf, ValidChain;
    var r := BrowserRules(participants);
    var e := r.SupportEnd(states, 0);
    var a := r.RunStart(states, e);
    ys := Relabelled(states, a, k);
    StartsWithEnd(r, states);
    RelabelledEnd(participants, states, a, k);
    RunStartLinked(r, states, e);
    RelabelledRun(participants, states, a, k, e);
    RunMembers(r, ys);
    TheBrowsersParticipants(participants);
    OldestIsSigned(r, states);
    assert Signers(ys[f]) == Signers(states[f]) && Signers(ys[e]) == Signers(states[e]);
    assert ys[f] in r.SupportOf(ys) && ys[e] in r.SupportOf(ys);
    assert ys[f].vars.outcome != ys[e].vars.outcome;
  }

  lemma StartsWithEnd(r: Rules, states: seq<SignedState>)
    ensures r.IsSupported(states) ==> r.SupportEnd(states, 0) < |states|
  {
  }

  lemma TheBrowsersParticipants(participants: seq<Address>)
    requires participants != []
    ensures BrowserRules(participants).participants == participants
  {
  }

  lemma SameFirst(r: Rules, xs: seq<SignedState>, ys: seq<SignedState>, f: nat)
    requires SameButOutcomes(r, xs, ys) && IsFirst(r, xs, f)
    ensures IsFirst(r, ys, f)
    ensures OutcomeKeptFrom(r, ys, f) == OutcomeKeptFrom(r, xs, f)
    ensures HasConclusionProof(r, xs) ==> HasConclusionProof(r, ys)
    ensures Tidy(r, xs) ==> Tidy(r, ys)
  {
    hide Rules.SupportEnd, Rules.RunStart, Rules.Supporting, Rules.SupportOf;
    RunMembers(r, xs);
    RunMembers(r, ys);
    forall k | 0 <= k < |xs|
      ensures r.MoverSigned(ys[k]) == r.MoverSigned(xs[k]) && ys[k].vars.isFinal == xs[k].vars.isFinal
      ensures ys[k].vars.turnNum == xs[k].vars.turnNum
    {
      assert Signers(ys[k]) == Signers(xs[k]);
    }
    if HasConclusionProof(r, xs) {
      forall s | s in r.SupportOf(ys) ensures s.vars.isFinal {
        var k :| r.RunStart(ys, r.SupportEnd(ys, 0)) <= k < r.SupportEnd(ys, 0) + 1 && ys[k] == s && r.MoverSigned(ys[k]);
        assert xs[k] in r.SupportOf(xs);
      }
    }
  }

  /** All conclusion proofs with given turns, flags, app data and signatures show one outcome exactly if every
      state between the newest and the oldest supporting one is final or of the first two rounds. */
  lemma ConclusionExactly(participants: seq<Address>, states: seq<SignedState>, f: nat)
    requires participants != [] && HasConclusionProof(BrowserRules(participants), states)
    requires IsFirst(BrowserRules(participants), states, f)
    ensures var r := BrowserRules(participants);
            && (forall ys :: SameButOutcomes(r, states, ys) ==>
                  HasConclusionProof(r, ys) && (Tidy(r, states) ==> Tidy(r, ys)))
            && ((forall ys :: SameButOutcomes(r, states, ys) ==> OneOutcome(r, ys, o => o))
                <==> OutcomeKeptFrom(r, states, f))
  {
    hide BrowserRules, Rules.SupportEnd, Rules.RunStart, Rules.Supporting, Rules.SupportOf, OneOutcome, HasConclusionProof;
    hide SameButOutcomes, Tidy;
    var r := BrowserRules(participants);
    TheBrowsersParticipants(participants);
    forall ys | SameButOutcomes(r, states, ys)
      ensures HasConclusionProof(r, ys) && (Tidy(r, states) ==> Tidy(r, ys))
      ensures OutcomeKeptFrom(r, states, f) ==> OneOutcome(r, ys, o => o)
    {
      SameFirst(r, states, ys, f);
      if OutcomeKeptFrom(r, states, f) {
        KeptMeansOne(participants, ys, f);
      }
    }
    if !OutcomeKeptFrom(r, states, f) {
      var k :| f <= k < r.SupportEnd(states, 0) && !KeepsOutcome(|participants|, states[k]);
      var ys := TwoOutcomes(participants, states, f, k);
      assert SameButOutcomes(r, states, ys);
    }
  }
}
