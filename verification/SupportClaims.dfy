/** What the wallets conclude from a support: that a channel is set up, and that it can be concluded. */
module SupportClaims {
  import opened States
  import opened Support
  import opened StoredStates
  import opened BrowserStore
  import opened ServerStore

  /** Turns go round the participants. */
  ghost predicate RoundRobin(r: Rules) {
    r.participants != [] && forall t: nat :: r.mover(t) == MoverAt(r.participants, t)
  }

  /** Every stored state is signed by its mover. */
  ghost predicate Gapless(r: Rules, states: seq<SignedState>) {
    forall k :: 0 <= k < |states| ==> r.MoverSigned(states[k])
  }

  /** The state of the support with the lowest turn. */
  ghost function OldestTurn(r: Rules, states: seq<SignedState>): nat
    requires r.IsSupported(states)
  {
    states[r.SupportEnd(states, 0)].vars.turnNum
  }

  // ----- length of a support -----

  lemma MultipleIsFar(n: int, d: int)
    requires n > 0
    ensures d >= 1 ==> n * d >= n
    ensures d <= -1 ==> n * d <= -n
  {
    if d >= 1 {
      assert n * d == n + n * (d - 1);
    } else if d <= -1 {
      assert n * d == n * (d + 1) - n;
    }
  }

  lemma RemainderOf(x: nat, n: nat, q: int, i: nat)
    requires i < n && x == n * q + i
    ensures x % n == i
  {
    var d := q - x / n;
    assert x == n * (x / n) + x % n;
    assert n * d == n * q - n * (x / n);
    MultipleIsFar(n, d);
  }

  /** Among n turns in a row, counting down from t, one belongs to participant i. */
  lemma TurnOf(t: nat, i: nat, n: nat) returns (m: nat)
    requires i < n && n - 1 <= t
    ensures m < n && m <= t && (t - m) % n == i
  {
    var q, rest := t / n, t % n;
    assert t == n * q + rest;
    if i <= rest {
      m := rest - i;
      RemainderOf(t - m, n, q, i);
    } else {
      m := rest - i + n;
      assert n * (q - 1) == n * q - n;
      RemainderOf(t - m, n, q - 1, i);
    }
  }

  lemma {:induction false} LinkedTurns(r: Rules, states: seq<SignedState>, a: nat, b: nat, k: nat)
    requires Proper(r) && a <= k < b <= |states| && r.Linked(states, a, b)
    ensures states[k].vars.turnNum == states[a].vars.turnNum - (k - a)
  {
    if a < k {
      LinkedTurns(r, states, a, b, k - 1);
      assert r.Link(states, k);
    }
  }

  /** n consecutive mover-signed states reach every participant. */
  lemma RoundCovers(r: Rules, states: seq<SignedState>, a: nat, b: nat)
    requires Proper(r) && RoundRobin(r)
    requires b == a + |r.participants| <= |states| && r.Linked(states, a, b)
    requires forall k :: a <= k < b ==> r.MoverSigned(states[k])
    ensures r.Missing(states, a, b) == {}
  {
    var n := |r.participants|;
    LinkedTurns(r, states, a, b, b - 1);
    forall p | p in r.participants ensures r.Endorsed(states, a, b, p) {
      var i :| 0 <= i < n && r.participants[i] == p;
      var m := TurnOf(states[a].vars.turnNum, i, n);
      LinkedTurns(r, states, a, b, a + m);
      assert r.mover(states[a + m].vars.turnNum) == p;
      assert r.Endorses(states, a + m, p);
    }
    CoveringRunMissesNone(r, states, a, b);
  }

  lemma {:induction false} RunStartInside(r: Rules, states: seq<SignedState>, i: nat, e: nat)
    requires e < |states| && r.RunStart(states, e) <= i <= e
    ensures r.RunStart(states, i) == r.RunStart(states, e)
  {
    if i < e {
      RunStartInside(r, states, i, e - 1);
    }
  }

  /** In a gapless store, the support is an unbroken stretch of at most n states. */
  lemma GaplessSupportIsShort(r: Rules, states: seq<SignedState>)
    requires Proper(r) && RoundRobin(r) && Gapless(r, states) && r.IsSupported(states)
    ensures var e := r.SupportEnd(states, 0); r.SupportOf(states) == states[r.RunStart(states, e)..e + 1]
    ensures 0 < |r.SupportOf(states)| <= |r.participants|
  {
    var e := r.SupportEnd(states, 0);
    SupportingAll(r, states, r.RunStart(states, e), e + 1);
    var b := r.RunStart(states, e) + |r.participants|;
    if b <= e {
      RunStartLinked(r, states, e);
      RoundCovers(r, states, r.RunStart(states, e), b);
      CoveredEndsSupport(r, states, b);
      assert false;
    }
  }

  /** The run of the support lacks somebody until its very end. */
  lemma CoveredEndsSupport(r: Rules, states: seq<SignedState>, b: nat)
    requires r.IsSupported(states)
    requires var e := r.SupportEnd(states, 0);
             r.RunStart(states, e) < b <= e + 1 && r.Missing(states, r.RunStart(states, e), b) == {}
    ensures b == r.SupportEnd(states, 0) + 1
  {
    RunStartInside(r, states, b - 1, r.SupportEnd(states, 0));
    SupportEndLeast(r, states, 0, b - 1);
  }

  lemma {:induction false} SupportingAll(r: Rules, states: seq<SignedState>, a: nat, b: nat)
    requires a <= b <= |states| && Gapless(r, states)
    ensures r.Supporting(states, a, b) == states[a..b]
  {
    if a < b {
      SupportingAll(r, states, a, b - 1);
      assert states[a..b] == states[a..b - 1] + [states[b - 1]];
    }
  }

  // ----- set-up completed -----

  /** Every participant signed a supporting state of turn m or later. */
  ghost predicate AllSignedSince(r: Rules, states: seq<SignedState>, m: nat) {
    forall p :: p in r.participants ==>
      exists s :: s in r.SupportOf(states) && p in Signers(s) && s.vars.turnNum >= m
  }

  /** Some participant's only signature in the support is on its oldest state. */
  lemma OldestIsNeeded(r: Rules, states: seq<SignedState>) returns (p: Address)
    requires r.participants != [] && r.IsSupported(states)
    ensures p in r.participants
    ensures forall s :: s in r.SupportOf(states) && p in Signers(s) ==> s == states[r.SupportEnd(states, 0)]
  {
    var e := r.SupportEnd(states, 0);
    var a := r.RunStart(states, e);
    if r.Missing(states, a, e) == {} {
      assert r.participants[0] !in r.Missing(states, a, e);
      SupportEndLeast(r, states, 0, e - 1);
      assert false;
    }
    p :| p in r.Missing(states, a, e);
    MissingMeans(r, states, a, e, p);
    SupportingMembers(r, states, a, e + 1);
    forall s | s in r.SupportOf(states) && p in Signers(s) ensures s == states[e] {
      var k :| a <= k < e + 1 && states[k] == s && r.MoverSigned(states[k]);
      assert r.Endorses(states, k, p);
    }
  }

  /** All participants signed since turn m exactly when the oldest supporting state is that late. */
  lemma AllSignedSinceExactly(r: Rules, states: seq<SignedState>, m: nat)
    requires r.participants != [] && r.IsSupported(states) && WeaklyDescending(states)
    ensures AllSignedSince(r, states, m) <==> OldestTurn(r, states) >= m
  {
    var e := r.SupportEnd(states, 0);
    var a := r.RunStart(states, e);
    SupportingMembers(r, states, a, e + 1);
    if OldestTurn(r, states) >= m {
      forall p | p in r.participants
        ensures exists s :: s in r.SupportOf(states) && p in Signers(s) && s.vars.turnNum >= m
      {
        var k := SignedWithinSupport(r, states, p);
        assert states[k] in r.SupportOf(states);
      }
    }
    if AllSignedSince(r, states, m) {
      var p := OldestIsNeeded(r, states);
      var s :| s in r.SupportOf(states) && p in Signers(s) && s.vars.turnNum >= m;
    }
  }

  /** Have all participants signed a post-fund state? */
  ghost predicate PostFundComplete(r: Rules, states: seq<SignedState>)
    requires r.participants != []
  {
    r.IsSupported(states) && SupportedTurn(r, states) >= 2 * |r.participants| - 1
  }

  /** In a gapless store, a supported turn of at least 2n - 1 means that every participant signed a
      state of turn n or later. */
  lemma PostFundCompleteMeans(r: Rules, states: seq<SignedState>)
    requires Proper(r) && RoundRobin(r) && Gapless(r, states) && Descending(states)
    requires PostFundComplete(r, states)
    ensures AllSignedSince(r, states, |r.participants|)
  {
    var n := |r.participants|;
    var e := r.SupportEnd(states, 0);
    var a := r.RunStart(states, e);
    GaplessSupportIsShort(r, states);
    RunStartLinked(r, states, e);
    LinkedTurns(r, states, a, e + 1, e);
    AllSignedSinceExactly(r, states, n);
  }

  // ----- conclusion -----

  /** The channel is supported by final states only. */
  ghost predicate HasConclusionProof(r: Rules, states: seq<SignedState>) {
    r.IsSupported(states) && forall s :: s in r.SupportOf(states) ==> s.vars.isFinal
  }

  ghost predicate EveryoneSignedFinal(r: Rules, states: seq<SignedState>) {
    forall p :: p in r.participants ==> exists s :: s in r.SupportOf(states) && p in Signers(s) && s.vars.isFinal
  }

  /** A final state has the outcome of the state before it, as far as view can tell. */
  ghost predicate FinalKeepsOutcome(r: Rules, view: Outcome -> Outcome) {
    forall x, y :: r.links(x, y) && y.isFinal ==> view(x.outcome) == view(y.outcome)
  }

  /** Only a final state follows a final state. */
  ghost predicate FinalStaysFinal(r: Rules) {
    forall x, y :: r.links(x, y) && x.isFinal ==> y.isFinal
  }

  ghost predicate OneOutcome(r: Rules, states: seq<SignedState>, view: Outcome -> Outcome) {
    forall s, t :: s in r.SupportOf(states) && t in r.SupportOf(states) ==> view(s.vars.outcome) == view(t.vars.outcome)
  }

  lemma {:induction false} FinalRunHasOneOutcome(r: Rules, states: seq<SignedState>, view: Outcome -> Outcome,
                                                 a: nat, b: nat, k: nat)
    requires FinalKeepsOutcome(r, view) && a <= k < b <= |states| && r.Linked(states, a, b)
    requires forall i :: a <= i < b ==> states[i].vars.isFinal
    ensures view(states[k].vars.outcome) == view(states[a].vars.outcome)
  {
    if a < k {
      FinalRunHasOneOutcome(r, states, view, a, b, k - 1);
      assert r.Link(states, k);
    }
  }

  /** When the whole run is final, everybody signed a final state and there is one outcome. */
  lemma FinalRunConcludes(r: Rules, states: seq<SignedState>, view: Outcome -> Outcome)
    requires FinalKeepsOutcome(r, view) && r.IsSupported(states)
    requires var e := r.SupportEnd(states, 0);
             forall i :: r.RunStart(states, e) <= i <= e ==> states[i].vars.isFinal
    ensures EveryoneSignedFinal(r, states) && OneOutcome(r, states, view)
  {
    var e := r.SupportEnd(states, 0);
    var a := r.RunStart(states, e);
    SupportingMembers(r, states, a, e + 1);
    RunStartLinked(r, states, e);
    forall p | p in r.participants
      ensures exists s :: s in r.SupportOf(states) && p in Signers(s) && s.vars.isFinal
    {
      var k := SignedWithinSupport(r, states, p);
      assert states[k] in r.SupportOf(states);
    }
    forall s | s in r.SupportOf(states) ensures view(s.vars.outcome) == view(states[a].vars.outcome) {
      var k :| a <= k < e + 1 && states[k] == s && r.MoverSigned(states[k]);
      FinalRunHasOneOutcome(r, states, view, a, e + 1, k);
    }
  }

  /** In a gapless store, a conclusion proof shows that every participant signed a final state, and that
      all supporting states carry one outcome. */
  lemma GaplessConclusion(r: Rules, states: seq<SignedState>, view: Outcome -> Outcome)
    requires FinalKeepsOutcome(r, view) && Gapless(r, states) && HasConclusionProof(r, states)
    ensures EveryoneSignedFinal(r, states) && OneOutcome(r, states, view)
  {
    hide Rules.SupportEnd, Rules.RunStart, Rules.Missing, Rules.Supporting, Rules.MoverSigned;
    hide FinalKeepsOutcome, EveryoneSignedFinal, OneOutcome;
    var e := r.SupportEnd(states, 0);
    SupportingMembers(r, states, r.RunStart(states, e), e + 1);
    FinalRunConcludes(r, states, view);
  }

  lemma {:induction false} FinalAbove(r: Rules, states: seq<SignedState>, a: nat, e: nat)
    requires FinalStaysFinal(r) && a <= e < |states| && r.Linked(states, a, e + 1) && states[e].vars.isFinal
    ensures forall k :: a <= k <= e ==> states[k].vars.isFinal
  {
    if a < e {
      assert r.Link(states, e);
      FinalAbove(r, states, a, e - 1);
    }
  }

  /** Where only final states follow a final state, this holds in every store. */
  lemma StrictConclusion(r: Rules, states: seq<SignedState>, view: Outcome -> Outcome)
    requires FinalKeepsOutcome(r, view) && FinalStaysFinal(r)
    requires r.participants != [] && HasConclusionProof(r, states)
    ensures EveryoneSignedFinal(r, states) && OneOutcome(r, states, view)
  {
    hide Rules.SupportEnd, Rules.RunStart, Rules.Missing, Rules.Supporting, Rules.MoverSigned;
    var e := r.SupportEnd(states, 0);
    var a := r.RunStart(states, e);
    var f := SupportEnds(r, states);
    var support := r.SupportOf(states);
    assert support[|support| - 1] in support;
    RunStartLinked(r, states, e);
    FinalAbove(r, states, a, e);
    hide Rules.SupportOf;
    FinalRunConcludes(r, states, view);
  }

  lemma BrowserRulesConclude(participants: seq<Address>)
    requires participants != []
    ensures var r := BrowserRules(participants); RoundRobin(r) && Proper(r) && FinalKeepsOutcome(r, o => o)
  {
    BrowserRulesAreProper(participants);
    var r := BrowserRules(participants);
    forall x, y | r.links(x, y) && y.isFinal ensures x.outcome == y.outcome {
      OutcomesEqualMeansSame(x.outcome, y.outcome);
    }
  }

  lemma ServerRulesConclude(participants: seq<Address>, nullApp: bool)
    requires participants != []
    ensures var r := ServerRules(participants, nullApp);
            RoundRobin(r) && Proper(r) && FinalKeepsOutcome(r, NitroOutcome) && FinalStaysFinal(r)
  {
    ServerRulesAreProper(participants, nullApp);
  }

  /** The server wallet's conclusion proofs are sound in every store: on chain, one outcome. */
  lemma ServerConclusion(participants: seq<Address>, nullApp: bool, states: seq<SignedState>)
    requires participants != [] && HasConclusionProof(ServerRules(participants, nullApp), states)
    ensures var r := ServerRules(participants, nullApp);
            EveryoneSignedFinal(r, states) && OneOutcome(r, states, NitroOutcome)
  {
    ServerRulesConclude(participants, nullApp);
    StrictConclusion(ServerRules(participants, nullApp), states, NitroOutcome);
  }

  // ----- set-up and ledger channels -----

  /** During the first two rounds, a state keeps the outcome of the state before it, and its app data unless
      it is final. */
  ghost predicate SetUpKeeps(r: Rules, view: Outcome -> Outcome) {
    forall x, y :: r.links(x, y) && y.turnNum < 2 * |r.participants| ==>
      view(x.outcome) == view(y.outcome) && (!y.isFinal ==> x.appData == y.appData)
  }

  lemma {:induction false} SetUpRunAgrees(r: Rules, states: seq<SignedState>, view: Outcome -> Outcome,
                                          a: nat, b: nat, k: nat)
    requires Proper(r) && SetUpKeeps(r, view) && a <= k < b <= |states| && r.Linked(states, a, b)
    requires states[a].vars.turnNum < 2 * |r.participants|
    ensures view(states[k].vars.outcome) == view(states[a].vars.outcome)
    ensures (forall s :: s in states ==> !s.vars.isFinal) ==> states[k].vars.appData == states[a].vars.appData
  {
    if a < k {
      SetUpRunAgrees(r, states, view, a, b, k - 1);
      LinkedTurns(r, states, a, b, k - 1);
      assert r.Link(states, k);
    }
  }

  /** A channel supported in its first two rounds is supported by states with one outcome and, as long as no
      final state is stored, one app data. */
  lemma SetUpAgrees(r: Rules, states: seq<SignedState>, view: Outcome -> Outcome, s: SignedState, t: SignedState)
    requires Proper(r) && SetUpKeeps(r, view) && r.IsSupported(states)
    requires SupportedTurn(r, states) < 2 * |r.participants|
    requires s in r.SupportOf(states) && t in r.SupportOf(states)
    ensures view(s.vars.outcome) == view(t.vars.outcome)
    ensures (forall x :: x in states ==> !x.vars.isFinal) ==> s.vars.appData == t.vars.appData
  {
    hide Rules.SupportEnd, Rules.RunStart, Rules.Missing, Rules.Supporting, SetUpKeeps;
    var e := r.SupportEnd(states, 0);
    var f := SupportEnds(r, states);
    RunStartLinked(r, states, e);
    SupportingMembers(r, states, r.RunStart(states, e), e + 1);
    var i :| r.RunStart(states, e) <= i < e + 1 && states[i] == s && r.MoverSigned(states[i]);
    var j :| r.RunStart(states, e) <= j < e + 1 && states[j] == t && r.MoverSigned(states[j]);
    assert forall k :: f < k < e + 1 ==> r.Link(states, k);
    SetUpRunAgrees(r, states, view, f, e + 1, i);
    SetUpRunAgrees(r, states, view, f, e + 1, j);
  }

  lemma BothSetUpsKeep(participants: seq<Address>, nullApp: bool)
    requires participants != []
    ensures SetUpKeeps(BrowserRules(participants), o => o)
    ensures SetUpKeeps(ServerRules(participants, nullApp), NitroOutcome)
  {
    forall x: StateVars, y: StateVars | ValidChain(|participants|, x, y) && y.turnNum < 2 * |participants|
      ensures x.outcome == y.outcome
    {
      OutcomesEqualMeansSame(x.outcome, y.outcome);
    }
  }

  /** In the browser wallet, a support of the first two rounds carries one outcome and one app data. */
  lemma BrowserSetUpAgrees(participants: seq<Address>, states: seq<SignedState>, s: SignedState, t: SignedState)
    requires participants != [] && BrowserRules(participants).IsSupported(states)
    requires SupportedTurn(BrowserRules(participants), states) < 2 * |participants|
    requires var support := BrowserRules(participants).SupportOf(states); s in support && t in support
    ensures s.vars.outcome == t.vars.outcome
    ensures (forall x :: x in states ==> !x.vars.isFinal) ==> s.vars.appData == t.vars.appData
  {
    BrowserRulesConclude(participants);
    BothSetUpsKeep(participants, false);
    hide Rules.SupportOf, SetUpKeeps, SupportedTurn;
    SetUpAgrees(BrowserRules(participants), states, o => o, s, t);
  }

  /** In the server wallet it does, too, as far as the chain can tell outcomes apart. */
  lemma ServerSetUpAgrees(participants: seq<Address>, nullApp: bool, states: seq<SignedState>, s: SignedState,
                          t: SignedState)
    requires participants != [] && ServerRules(participants, nullApp).IsSupported(states)
    requires SupportedTurn(ServerRules(participants, nullApp), states) < 2 * |participants|
    requires var support := ServerRules(participants, nullApp).SupportOf(states); s in support && t in support
    ensures NitroOutcome(s.vars.outcome) == NitroOutcome(t.vars.outcome)
    ensures (forall x :: x in states ==> !x.vars.isFinal) ==> s.vars.appData == t.vars.appData
  {
    ServerRulesConclude(participants, nullApp);
    BothSetUpsKeep(participants, nullApp);
    hide Rules.SupportOf, SetUpKeeps, SupportedTurn;
    SetUpAgrees(ServerRules(participants, nullApp), states, NitroOutcome, s, t);
  }

  lemma LedgerLink(participants: seq<Address>, states: seq<SignedState>, k: nat)
    requires participants != [] && ServerRules(participants, true).Link(states, k)
    ensures states[k - 1].vars.turnNum >= 2 * |participants| ==> states[k - 1].vars.isFinal
  {
  }

  /** Without an application, nothing but a final state follows another state after the first two rounds:
      a non-final support is a single state that everybody signed. */
  lemma LedgerSupportIsUnanimous(participants: seq<Address>, states: seq<SignedState>)
    requires participants != []
    requires var r := ServerRules(participants, true);
             && r.SupportOf(states) != []
             && r.SupportOf(states)[0].vars.turnNum >= 2 * |participants| && !r.SupportOf(states)[0].vars.isFinal
    ensures var r := ServerRules(participants, true);
            && |r.SupportOf(states)| == 1
            && forall p :: p in participants ==> p in Signers(r.SupportOf(states)[0])
  {
    hide ProtocolTransition, ValidateTransition;
    var r := ServerRules(participants, true);
    var e := r.SupportEnd(states, 0);
    var f := SupportEnds(r, states);
    var a := r.RunStart(states, e);
    RunStartLinked(r, states, e);
    if f < e {
      LedgerLink(participants, states, f + 1);
      assert false;
    }
    SupportOfOne(r, states, a, e);
    SupportEndCovers(r, states, 0);
    MissingOfOne(r, states, a, e);
    forall p | p in participants ensures p in Signers(states[e]) {
      assert p !in (set q | q in r.participants) - Signers(states[e]);
    }
  }

  lemma {:induction false} SupportOfOne(r: Rules, states: seq<SignedState>, a: nat, e: nat)
    requires a <= e < |states| && r.MoverSigned(states[e])
    requires forall k :: a <= k < e ==> !r.MoverSigned(states[k])
    ensures r.Supporting(states, a, e + 1) == [states[e]]
  {
    NothingSupports(r, states, a, e);
  }

  lemma {:induction false} NothingSupports(r: Rules, states: seq<SignedState>, a: nat, b: nat)
    requires b <= |states| && forall k :: a <= k < b ==> !r.MoverSigned(states[k])
    ensures r.Supporting(states, a, b) == [] && r.Missing(states, a, b) == set q | q in r.participants
  {
    if a < b {
      NothingSupports(r, states, a, b - 1);
    }
  }

  lemma MissingOfOne(r: Rules, states: seq<SignedState>, a: nat, e: nat)
    requires a <= e < |states| && r.MoverSigned(states[e])
    requires forall k :: a <= k < e ==> !r.MoverSigned(states[k])
    ensures r.Missing(states, a, e + 1) == (set q | q in r.participants) - Signers(states[e])
  {
    NothingSupports(r, states, a, e);
  }
}
