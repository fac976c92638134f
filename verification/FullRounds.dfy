/** When a round of states, each signed by its mover, supports a channel at its newest turn. */
module FullRounds {
  import opened Lists
  import opened States
  import opened Support
  import opened StoredStates
  import opened BrowserStore
  import opened ServerStore
  import opened SupportClaims

  /** The channel is supported at the turn of its newest state. */
  ghost predicate SupportedAtTop(r: Rules, states: seq<SignedState>)
    requires r.participants != [] && states != []
  {
    r.IsSupported(states) && SupportedTurn(r, states) == states[0].vars.turnNum
  }

  // ----- for any transition check -----

  /** A linked round of mover-signed states is enough, whatever is stored below it. */
  lemma LinkedRoundSupports(r: Rules, states: seq<SignedState>)
    requires Proper(r) && RoundRobin(r) && |r.participants| <= |states|
    requires r.Linked(states, 0, |r.participants|)
    requires forall k :: 0 <= k < |r.participants| ==> r.MoverSigned(states[k])
    ensures SupportedAtTop(r, states)
  {
    hide Rules.SupportEnd, Rules.RunStart, Rules.Missing, Rules.Supporting;
    var n := |r.participants|;
    RoundCovers(r, states, 0, n);
    CoveringRunMissesNone(r, states, 0, n);
    CoveringRunAfter(r, states, 0, n);
    var f := SupportEnds(r, states);
  }

  lemma {:induction false} AllDistinct(xs: seq<Address>)
    requires NoDuplicates(xs)
    ensures |set x | x in xs| == |xs|
  {
    if xs != [] {
      var init, last := xs[..|xs| - 1], xs[|xs| - 1];
      assert xs == init + [last];
      AllDistinct(init);
      assert (set x | x in xs) == (set x | x in init) + {last};
    }
  }

  lemma LessByAsMany(a: set<Address>, b: set<Address>)
    ensures |a - b| >= |a| - |b|
  {
    assert a == (a - b) + (a * b) && b == (a * b) + (b - a);
  }

  /** Every state with a single signer takes one participant off the missing ones, at most. */
  lemma {:induction false} ManyAreMissing(r: Rules, states: seq<SignedState>, b: nat)
    requires NoDuplicates(r.participants) && b <= |states|
    requires forall k :: 0 <= k < b ==> |Signers(states[k])| == 1
    ensures |r.Missing(states, 0, b)| >= |r.participants| - b
  {
    if b == 0 {
      AllDistinct(r.participants);
    } else {
      ManyAreMissing(r, states, b - 1);
      hide NoDuplicates, Signers, Rules.MoverSigned;
      LessByAsMany(r.Missing(states, 0, b - 1), Signers(states[b - 1]));
    }
  }

  /** Where each state of the round carries one signature, the round must be linked. */
  lemma SupportingRoundIsLinked(r: Rules, states: seq<SignedState>)
    requires Proper(r) && NoDuplicates(r.participants) && |r.participants| <= |states| && Descending(states)
    requires forall k :: 0 <= k < |r.participants| ==> |Signers(states[k])| == 1
    requires SupportedAtTop(r, states)
    ensures r.Linked(states, 0, |r.participants|)
  {
    hide Rules.SupportEnd, Rules.RunStart, Rules.Missing, Rules.Supporting, Rules.MoverSigned;
    var e := r.SupportEnd(states, 0);
    var f := SupportEnds(r, states);
    RunStartLinked(r, states, e);
    SupportEndCovers(r, states, 0);
    if e + 1 < |r.participants| {
      ManyAreMissing(r, states, e + 1);
    }
  }

  /** Every state of the newest round is signed by its mover, and by nobody else. */
  ghost predicate SignedByMovers(participants: seq<Address>, states: seq<SignedState>) {
    && participants != [] && |participants| <= |states|
    && forall k :: 0 <= k < |participants| ==>
         Signers(states[k]) == {participants[states[k].vars.turnNum % |participants|]}
  }

  /** The newest round is signed by its movers, perhaps by others as well. */
  ghost predicate MoversSigned(participants: seq<Address>, states: seq<SignedState>) {
    && participants != [] && |participants| <= |states|
    && forall k :: 0 <= k < |participants| ==>
         participants[states[k].vars.turnNum % |participants|] in Signers(states[k])
  }

  /** The turns of the first n states count down one by one. */
  ghost predicate Consecutive(states: seq<SignedState>, n: nat)
    requires n <= |states|
  {
    forall i, k :: 0 <= i < n && k == i + 1 < n ==> states[i].vars.turnNum == states[k].vars.turnNum + 1
  }

  lemma RoundSupportsExactly(r: Rules, states: seq<SignedState>)
    requires Proper(r) && RoundRobin(r) && NoDuplicates(r.participants) && Descending(states)
    requires SignedByMovers(r.participants, states)
    ensures SupportedAtTop(r, states) <==> r.Linked(states, 0, |r.participants|)
  {
    hide Rules.SupportEnd, SupportedAtTop;
    if SupportedAtTop(r, states) {
      SupportingRoundIsLinked(r, states);
    }
    if r.Linked(states, 0, |r.participants|) {
      LinkedRoundSupports(r, states);
    }
  }

  lemma BothAreProper(participants: seq<Address>, nullApp: bool)
    requires participants != []
    ensures var r := ServerRules(participants, nullApp); Proper(r) && RoundRobin(r)
    ensures var r := BrowserRules(participants); Proper(r) && RoundRobin(r)
  {
    ServerRulesConclude(participants, nullApp);
    BrowserRulesConclude(participants);
  }

  // ----- the wallets' checks -----

  /** The state at position k may be followed by the next newer one: the turn goes up by one, a final state stays
      final, the first two rounds and final states keep the outcome as the chain sees it, the first two rounds keep
      the app data until a state is final, and without an application only final states follow after that. */
  ghost predicate ServerLinks(participants: seq<Address>, nullApp: bool, states: seq<SignedState>, k: nat)
    requires 0 < k < |states|
  {
    var older, newer, setUp := states[k].vars, states[k - 1].vars, states[k - 1].vars.turnNum < 2 * |participants|;
    && newer.turnNum == older.turnNum + 1
    && (older.isFinal ==> newer.isFinal)
    && (newer.isFinal || setUp ==> SameOnChain(older.outcome, newer.outcome))
    && (setUp && !newer.isFinal ==> older.appData == newer.appData)
    && (nullApp ==> newer.isFinal || setUp)
  }

  lemma ServerLinksMean(participants: seq<Address>, nullApp: bool, states: seq<SignedState>, k: nat)
    requires participants != [] && 0 < k < |states|
    ensures var r := ServerRules(participants, nullApp);
            r.Link(states, k) <==> ServerLinks(participants, nullApp, states, k)
  {
    hide NitroOutcome, SameOnChain;
    NitroOutcomeMeans(states[k].vars.outcome, states[k - 1].vars.outcome);
  }

  /** What the server wallet asks of every step of a round whose states carry their mover's signature only. */
  lemma ServerRoundExactly(participants: seq<Address>, nullApp: bool, states: seq<SignedState>)
    requires SignedByMovers(participants, states) && NoDuplicates(participants) && Descending(states)
    ensures var r := ServerRules(participants, nullApp);
            SupportedAtTop(r, states)
            <==> forall k :: 0 < k < |participants| ==> ServerLinks(participants, nullApp, states, k)
  {
    var r := ServerRules(participants, nullApp);
    BothAreProper(participants, nullApp);
    forall k | 0 < k < |participants| ensures r.Link(states, k) <==> ServerLinks(participants, nullApp, states, k) {
      ServerLinksMean(participants, nullApp, states, k);
    }
    hide ServerRules, SupportedAtTop, SignedByMovers, Proper, RoundRobin, Rules.Link;
    RoundSupportsExactly(r, states);
  }

  /** What the browser wallet asks of it. */
  lemma BrowserRoundExactly(participants: seq<Address>, states: seq<SignedState>)
    requires SignedByMovers(participants, states) && NoDuplicates(participants) && Descending(states)
    ensures var r := BrowserRules(participants);
            SupportedAtTop(r, states)
            <==> forall k :: 0 < k < |participants| ==>
                   var older, newer := states[k].vars, states[k - 1].vars;
                   && newer.turnNum == older.turnNum + 1
                   && (newer.isFinal || newer.turnNum < 2 * |participants| ==> older.outcome == newer.outcome)
                   && (!newer.isFinal && newer.turnNum < 2 * |participants| ==> older.appData == newer.appData)
  {
    var r := BrowserRules(participants);
    BothAreProper(participants, false);
    RoundSupportsExactly(r, states);
    forall k | 0 < k < |participants|
      ensures r.Link(states, k) <==> ValidChain(|participants|, states[k].vars, states[k - 1].vars)
      ensures OutcomesEqual(states[k].vars.outcome, states[k - 1].vars.outcome)
              <==> states[k].vars.outcome == states[k - 1].vars.outcome
    {
      OutcomesEqualMeansSame(states[k].vars.outcome, states[k - 1].vars.outcome);
    }
  }

  /** A running application channel moves on: n turns in a row, whatever they do to outcome and app data. */
  lemma RunningIsSupported(participants: seq<Address>, states: seq<SignedState>)
    requires MoversSigned(participants, states)
    requires Consecutive(states, |participants|)
    requires forall k :: 0 <= k < |participants| ==> !states[k].vars.isFinal
    requires forall k :: 0 <= k < |participants| - 1 ==> states[k].vars.turnNum >= 2 * |participants|
    ensures var r := ServerRules(participants, false); SupportedAtTop(r, states)
    ensures var r := BrowserRules(participants); SupportedAtTop(r, states)
  {
    BothAreProper(participants, false);
    var server, browser := ServerRules(participants, false), BrowserRules(participants);
    LinkedRoundSupports(server, states);
    LinkedRoundSupports(browser, states);
  }

  lemma BrowserRoundOfOneOutcome(participants: seq<Address>, states: seq<SignedState>)
    requires MoversSigned(participants, states)
    requires Consecutive(states, |participants|)
    requires (forall k :: 0 <= k < |participants| ==> states[k].vars.isFinal)
             || (forall k :: 0 <= k < |participants| ==>
                   && states[k].vars.turnNum < 2 * |participants| && !states[k].vars.isFinal
                   && states[k].vars.appData == states[0].vars.appData)
    requires forall k :: 0 <= k < |participants| ==> states[k].vars.outcome == states[0].vars.outcome
    ensures var r := BrowserRules(participants); SupportedAtTop(r, states)
  {
    hide SupportedAtTop;
    var r := BrowserRules(participants);
    BothAreProper(participants, false);
    forall k | 0 < k < |participants| ensures r.Link(states, k) {
      OutcomesEqualMeansSame(states[k].vars.outcome, states[k - 1].vars.outcome);
    }
    LinkedRoundSupports(r, states);
  }

  lemma ServerRoundOfOneOutcome(participants: seq<Address>, nullApp: bool, states: seq<SignedState>)
    requires MoversSigned(participants, states)
    requires Consecutive(states, |participants|)
    requires (forall k :: 0 <= k < |participants| ==> states[k].vars.isFinal)
             || (forall k :: 0 <= k < |participants| ==>
                   && states[k].vars.turnNum < 2 * |participants| && !states[k].vars.isFinal
                   && states[k].vars.appData == states[0].vars.appData)
    requires forall k :: 0 <= k < |participants| ==> SameOnChain(states[k].vars.outcome, states[0].vars.outcome)
    ensures var r := ServerRules(participants, nullApp); SupportedAtTop(r, states)
  {
    hide SupportedAtTop, SameOnChain, NitroOutcome;
    var r := ServerRules(participants, nullApp);
    BothAreProper(participants, nullApp);
    forall k | 0 < k < |participants| ensures r.Link(states, k) {
      NitroOutcomeMeans(states[k].vars.outcome, states[0].vars.outcome);
      NitroOutcomeMeans(states[k - 1].vars.outcome, states[0].vars.outcome);
    }
    LinkedRoundSupports(r, states);
  }

  lemma RoundOfOneOutcome(participants: seq<Address>, nullApp: bool, states: seq<SignedState>)
    requires MoversSigned(participants, states)
    requires Consecutive(states, |participants|)
    requires (forall k :: 0 <= k < |participants| ==> states[k].vars.isFinal)
             || (forall k :: 0 <= k < |participants| ==>
                   && states[k].vars.turnNum < 2 * |participants| && !states[k].vars.isFinal
                   && states[k].vars.appData == states[0].vars.appData)
    ensures (forall k :: 0 <= k < |participants| ==> states[k].vars.outcome == states[0].vars.outcome) ==>
              var r := BrowserRules(participants); SupportedAtTop(r, states)
    ensures (forall k :: 0 <= k < |participants| ==> SameOnChain(states[k].vars.outcome, states[0].vars.outcome)) ==>
              var r := ServerRules(participants, nullApp); SupportedAtTop(r, states)
  {
    hide SupportedAtTop, SameOnChain, BrowserRules, ServerRules;
    if forall k :: 0 <= k < |participants| ==> states[k].vars.outcome == states[0].vars.outcome {
      BrowserRoundOfOneOutcome(participants, states);
    }
    if forall k :: 0 <= k < |participants| ==> SameOnChain(states[k].vars.outcome, states[0].vars.outcome) {
      ServerRoundOfOneOutcome(participants, nullApp, states);
    }
  }

  /** Turns of the first two rounds with one outcome and one app data are a support. */
  lemma SetUpIsSupported(participants: seq<Address>, nullApp: bool, states: seq<SignedState>)
    requires MoversSigned(participants, states)
    requires Consecutive(states, |participants|)
    requires forall k :: 0 <= k < |participants| ==>
               && states[k].vars.turnNum < 2 * |participants| && !states[k].vars.isFinal
               && states[k].vars.appData == states[0].vars.appData
    ensures (forall k :: 0 <= k < |participants| ==> states[k].vars.outcome == states[0].vars.outcome) ==>
              var r := BrowserRules(participants); SupportedAtTop(r, states)
    ensures (forall k :: 0 <= k < |participants| ==> SameOnChain(states[k].vars.outcome, states[0].vars.outcome)) ==>
              var r := ServerRules(participants, nullApp); SupportedAtTop(r, states)
  {
    RoundOfOneOutcome(participants, nullApp, states);
  }

  /** So are final states with one outcome. */
  lemma FinalIsSupported(participants: seq<Address>, nullApp: bool, states: seq<SignedState>)
    requires MoversSigned(participants, states)
    requires Consecutive(states, |participants|)
    requires forall k :: 0 <= k < |participants| ==> states[k].vars.isFinal
    ensures (forall k :: 0 <= k < |participants| ==> states[k].vars.outcome == states[0].vars.outcome) ==>
              var r := BrowserRules(participants); SupportedAtTop(r, states)
    ensures (forall k :: 0 <= k < |participants| ==> SameOnChain(states[k].vars.outcome, states[0].vars.outcome)) ==>
              var r := ServerRules(participants, nullApp); SupportedAtTop(r, states)
  {
    RoundOfOneOutcome(participants, nullApp, states);
  }
}
