/** What can happen in stores with states that their movers have not signed: concrete lists of a two-party
    channel, all of which single-signature calls can build up from nothing. */
module Gaps {
  import opened Lists
  import opened States
  import opened Support
  import opened StoredStates
  import opened BrowserStore
  import BrowserRuns
  import opened ServerStore
  import ServerRuns
  import ServerChannel
  import opened SupportClaims
  import opened SetUpClaims
  import opened SignatureArguments
  import opened SupportProofs

  function By(turnNum: nat, outcome: Outcome, isFinal: bool, signer: Address): (s: SignedState)
    ensures Signers(s) == {signer}
  {
    var s := SignedState(StateVars(turnNum, outcome, "0x", isFinal), [SignatureEntry("sig", signer)]);
    assert s.signatures[0].signer == signer;
    s
  }

  const FIRST := Guarantee("asset", "channel", ["ann"])
  const SECOND := Guarantee("asset", "channel", ["bob"])

  /** Neither turn 2 nor turn 1 is signed by its mover. */
  function PostFundList(): (states: seq<SignedState>)
    ensures |states| == 4
  {
    [By(3, FIRST, false, "bob"), By(2, FIRST, false, "bob"), By(1, FIRST, false, "ann"), By(0, FIRST, false, "ann")]
  }

  /** Neither are the two states between the final ones. */
  function ConclusionList(): (states: seq<SignedState>)
    ensures |states| == 4
  {
    [By(7, FIRST, true, "bob"), By(6, FIRST, false, "bob"), By(5, FIRST, false, "ann"), By(4, SECOND, true, "ann")]
  }

  /** Only turn 2 is not. */
  function WideList(): (states: seq<SignedState>)
    ensures |states| == 4
  {
    [By(3, FIRST, false, "bob"), By(2, FIRST, false, "bob"), By(1, FIRST, false, "bob"), By(0, FIRST, false, "ann")]
  }

  // ----- both wallets -----

  /** The rules of one of the wallets, for ann and bob. */
  ghost predicate TwoParty(r: Rules) {
    var both := ["ann", "bob"];
    r == BrowserRules(both) || r == ServerRules(both, false) || r == ServerRules(both, true)
  }

  lemma TwoPartyMovers(r: Rules, t: nat)
    requires TwoParty(r)
    ensures r.participants == ["ann", "bob"] && Proper(r) && RoundRobin(r)
    ensures r.mover(t) == if t % 2 == 0 then "ann" else "bob"
  {
    var both := ["ann", "bob"];
    BrowserRulesConclude(both);
    ServerRulesConclude(both, false);
    ServerRulesConclude(both, true);
  }

  /** Four states of which the newest and the oldest are signed by their movers, and ann's only signature as
      a mover is on the oldest. */
  ghost predicate GapList(r: Rules, states: seq<SignedState>) {
    && |states| == 4 && r.participants == ["ann", "bob"] && Proper(r)
    && (forall k :: 0 <= k < 3 ==> states[k].vars.turnNum == states[k + 1].vars.turnNum + 1)
    && Signers(states[0]) == {"bob"} && r.MoverSigned(states[0])
    && Signers(states[3]) == {"ann"} && r.MoverSigned(states[3])
    && !r.MoverSigned(states[1])
    && (r.MoverSigned(states[2]) ==> Signers(states[2]) == {"bob"})
    && forall k :: 0 <= k < 4 ==> |states[k].signatures| == 1 && states[k].signatures[0].signer in r.participants
  }

  lemma GapLists(r: Rules)
    requires TwoParty(r)
    ensures GapList(r, PostFundList()) && !r.MoverSigned(PostFundList()[2])
    ensures GapList(r, ConclusionList()) && !r.MoverSigned(ConclusionList()[2])
    ensures GapList(r, WideList()) && r.MoverSigned(WideList()[2])
  {
    forall t: nat ensures r.mover(t) == if t % 2 == 0 then "ann" else "bob" {
      TwoPartyMovers(r, t);
    }
    TwoPartyMovers(r, 0);
    hide TwoParty, RoundRobin, Proper;
    SetUpGapList(r, PostFundList(), "ann");
    SetUpGapList(r, WideList(), "bob");
    ConclusionGapList(r);
  }

  lemma SetUpGapList(r: Rules, states: seq<SignedState>, second: Address)
    requires r.participants == ["ann", "bob"] && Proper(r)
    requires forall t: nat :: r.mover(t) == if t % 2 == 0 then "ann" else "bob"
    requires (states == PostFundList() && second == "ann") || (states == WideList() && second == "bob")
    ensures GapList(r, states) && (r.MoverSigned(states[2]) <==> second == "bob")
  {
    hide Proper;
    assert states[0] == By(3, FIRST, false, "bob") && states[1] == By(2, FIRST, false, "bob");
    assert states[2] == By(1, FIRST, false, second) && states[3] == By(0, FIRST, false, "ann");
  }

  lemma ConclusionGapList(r: Rules)
    requires r.participants == ["ann", "bob"] && Proper(r)
    requires forall t: nat :: r.mover(t) == if t % 2 == 0 then "ann" else "bob"
    ensures GapList(r, ConclusionList()) && !r.MoverSigned(ConclusionList()[2])
  {
    hide Proper;
  }

  /** Whose signature only the oldest state carries, as long as it counts, the support needs that state. */
  lemma NeedsOldest(r: Rules, states: seq<SignedState>, p: Address)
    requires p in r.participants && r.IsSupported(states)
    requires forall k :: 0 <= k < |states| - 1 ==> !(r.MoverSigned(states[k]) && p in Signers(states[k]))
    ensures r.SupportEnd(states, 0) == |states| - 1
  {
    hide Rules.SupportEnd, Rules.RunStart, Rules.Missing, Rules.Supporting;
    var k := SignedWithinSupport(r, states, p);
  }

  /** At every moment of its making, a gap list is tidy. */
  lemma GapIsTidy(r: Rules, states: seq<SignedState>, k: nat)
    requires GapList(r, states) && k <= 4
    ensures Tidy(r, states[k..])
  {
    hide Rules.SupportEnd, Rules.RunStart, Rules.Missing, Rules.Supporting, Rules.MoverSigned;
    var rest := states[k..];
    assert Descending(rest);
    if r.IsSupported(rest) {
      NeedsOldest(r, rest, "ann");
    }
  }

  lemma AlwaysTidy(r: Rules, states: seq<SignedState>)
    requires TwoParty(r) && (states == PostFundList() || states == ConclusionList() || states == WideList())
    ensures GapList(r, states) && forall k :: 0 <= k <= 4 ==> Tidy(r, states[k..])
  {
    hide TwoParty, GapList, Tidy;
    GapLists(r);
    forall k | 0 <= k <= 4 ensures Tidy(r, states[k..]) {
      GapIsTidy(r, states, k);
    }
  }

  lemma GapRun(r: Rules, states: seq<SignedState>)
    requires GapList(r, states)
    requires r.Link(states, 1) && r.Link(states, 2) && r.Link(states, 3)
    ensures r.SupportEnd(states, 0) == 3 && r.RunStart(states, 3) == 0
    ensures r.SupportOf(states)
            == if r.MoverSigned(states[2]) then [states[0], states[2], states[3]] else [states[0], states[3]]
  {
    assert r.Missing(states, 0, 1) == {"ann"};
    assert r.Missing(states, 0, 2) == {"ann"};
    assert r.Missing(states, 0, 3) == {"ann"};
    assert r.Missing(states, 0, 4) == {};
    assert r.RunStart(states, 1) == r.RunStart(states, 2) == r.RunStart(states, 3) == 0;
    assert r.SupportEnd(states, 3) == 3;
    assert r.SupportEnd(states, 1) == r.SupportEnd(states, 2);
    assert r.Supporting(states, 0, 1) == [states[0]];
    assert r.Supporting(states, 0, 2) == [states[0]];
    assert r.Supporting(states, 0, 3) == if r.MoverSigned(states[2]) then [states[0], states[2]] else [states[0]];
    assert r.SupportOf(states) == r.Supporting(states, 0, 3) + [states[3]];
  }

  /** In the first two rounds, states with equal outcomes and app data link under either wallet's rules. */
  lemma FundingLinks(r: Rules, states: seq<SignedState>)
    requires TwoParty(r) && (states == PostFundList() || states == WideList())
    ensures r.Link(states, 1) && r.Link(states, 2) && r.Link(states, 3)
  {
    OutcomesEqualMeansSame(FIRST, FIRST);
  }

  lemma SetUpGap(r: Rules, states: seq<SignedState>)
    requires TwoParty(r) && (states == PostFundList() || states == WideList())
    ensures r.participants == ["ann", "bob"] && Tidy(r, states) && r.IsSupported(states)
    ensures r.SupportOf(states)
            == if states == WideList() then [states[0], states[2], states[3]] else [states[0], states[3]]
  {
    GapLists(r);
    GapIsTidy(r, states, 0);
    assert states[0..] == states;
    FundingLinks(r, states);
    hide TwoParty, Rules.RunStart, Rules.SupportOf, Rules.MoverSigned;
    GapRun(r, states);
  }

  // ----- what they show -----

  /** A channel counts as set up although a participant has signed nothing since the first round. */
  lemma PostFundGap(r: Rules)
    requires TwoParty(r)
    ensures var states := PostFundList();
            && r.participants == ["ann", "bob"] && Tidy(r, states) && PostFundComplete(r, states)
            && (forall s :: s in states && "ann" in Signers(s) ==> s.vars.turnNum < 2)
            && !AllSeenSince(r, states, 2)
  {
    var states := PostFundList();
    AnnStartsOnly(states);
    hide TwoParty, Tidy, Rules.SupportEnd, Rules.SupportOf, PostFundList, WideList;
    SetUpGap(r, states);
    assert r.SupportOf(states)[0] == states[0];
    assert !SignedSince(states, 2, "ann");
  }

  lemma AnnStartsOnly(states: seq<SignedState>)
    requires states == PostFundList()
    ensures states != WideList() && states[0].vars.turnNum == 3
    ensures forall k :: 0 <= k < 4 && "ann" in Signers(states[k]) ==> states[k].vars.turnNum < 2
  {
    assert WideList()[2].signatures[0].signer == "bob";
  }

  lemma ConclusionLinks(r: Rules, states: seq<SignedState>)
    requires r == BrowserRules(["ann", "bob"]) && states == ConclusionList()
    ensures r.Link(states, 1) && r.Link(states, 2) && r.Link(states, 3)
  {
    OutcomesEqualMeansSame(FIRST, FIRST);
  }

  lemma ConclusionSupport(r: Rules, states: seq<SignedState>)
    requires r == BrowserRules(["ann", "bob"]) && states == ConclusionList()
    ensures Tidy(r, states) && r.IsSupported(states) && r.SupportOf(states) == [states[0], states[3]]
  {
    GapLists(r);
    GapIsTidy(r, states, 0);
    assert states[0..] == states;
    ConclusionLinks(r, states);
    hide BrowserRules, GapList, Rules.RunStart;
    GapRun(r, states);
  }

  /** The browser wallet takes two final states with different outcomes for a conclusion proof. */
  lemma ConclusionGap()
    ensures var r, states := BrowserRules(["ann", "bob"]), ConclusionList();
            Tidy(r, states) && HasConclusionProof(r, states) && !OneOutcome(r, states, o => o)
  {
    var r, states := BrowserRules(["ann", "bob"]), ConclusionList();
    ConclusionSupport(r, states);
    hide BrowserRules, Tidy, Rules.SupportEnd, Rules.SupportOf;
    assert r.SupportOf(states)[0] == states[0] && r.SupportOf(states)[1] == states[3];
    assert FIRST.destinations[0] != SECOND.destinations[0];
  }

  /** A support can have more states than there are participants. */
  lemma WideSupport(r: Rules)
    requires TwoParty(r)
    ensures var states := WideList();
            && |r.participants| == 2 && NoDuplicates(r.participants) && Tidy(r, states) && r.IsSupported(states)
            && |r.SupportOf(states)| == 3
  {
    hide TwoParty, Tidy, Rules.SupportEnd, Rules.SupportOf, WideList;
    SetUpGap(r, WideList());
  }

  /** With gaps, a table for two participants can have three slots. */
  lemma WideTable(r: Rules, listed: seq<SingleSigned>, args: Arguments)
    requires TwoParty(r) && ListsSupport(listed, r.participants, r.SupportOf(WideList()))
    requires BuiltFrom(RecoverGap(WideList()), listed, args)
    ensures |r.participants| == 2 && |args.signatures| == 3
  {
    hide *;
    WideSupport(r);
    GapIsGenuine(WideList());
    TableLengthExactly(RecoverGap(WideList()), r, WideList(), listed, args);
  }

  /** Clean-up leaves four states, of which two are the support. */
  lemma CleanUpGap(r: Rules)
    requires TwoParty(r)
    ensures var states := PostFundList();
            && ClearOldStates(states, r.SupportOf(NewestFirst(states))) == states
            && r.SupportOf(NewestFirst(states)) == [states[0], states[3]]
  {
    var states := PostFundList();
    AnnStartsOnly(states);
    hide TwoParty, Rules.SupportEnd, Rules.SupportOf, PostFundList, WideList, ClearOldStates;
    SetUpGap(r, states);
    NewestFirstOfDescending(states);
    DescendingHashes(states);
    ClearIsCut(r, states);
  }

  lemma TwoSorted(s: SignedState, t: SignedState)
    requires s.vars.turnNum == t.vars.turnNum
    ensures NewestFirst([s, t]) == [t, s]
  {
    assert [s] + [t] == [s, t];
    NewestFirstOfPushed([s], t);
  }

  /** Two states of one turn change places with every clean-up. */
  lemma ClearFlips() returns (states: seq<SignedState>, cleared: seq<SignedState>)
    ensures var r := BrowserRules(["ann", "bob"]);
            && |states| == 2 && cleared == ClearOldStates(states, r.SupportOf(NewestFirst(states)))
            && ClearOldStates(cleared, r.SupportOf(NewestFirst(cleared))) != cleared
  {
    var r := BrowserRules(["ann", "bob"]);
    states := [By(0, SECOND, false, "ann"), By(0, FIRST, false, "ann")];
    var sorted := [states[1], states[0]];
    TwoSorted(states[0], states[1]);
    assert FIRST.destinations[0] != SECOND.destinations[0];
    NobodyElse(r, sorted);
    hide NewestFirst;
    cleared := ClearOldStates(states, r.SupportOf(sorted));
    assert DuplicateTurnNums(cleared) by {
      assert cleared[0].vars.turnNum == cleared[1].vars.turnNum;
    }
    hide BrowserRules, ClearOldStates, NewestFirst, DuplicateTurnNums, Rules.SupportOf;
    ClearOldStatesTwice(r, states, cleared);
  }

  /** Without bob's signature there is no support. */
  lemma NobodyElse(r: Rules, states: seq<SignedState>)
    requires "bob" in r.participants && forall k :: 0 <= k < |states| ==> Signers(states[k]) == {"ann"}
    ensures r.SupportOf(states) == []
  {
    hide Rules.SupportEnd, Rules.RunStart, Rules.Missing, Rules.Supporting;
    if r.IsSupported(states) {
      var k := SignedWithinSupport(r, states, "bob");
      assert false;
    }
  }

  // ----- how they come about -----

  lemma AddsOnTop(r: Rules, me: Address, states: seq<SignedState>, n: SignedState, stacked: seq<SignedState>)
    requires r.participants != [] && stacked == [n] + states && Tidy(r, stacked)
    requires |n.signatures| == 1 && n.signatures[0].signer in r.participants
    ensures BrowserRuns.Succeeds(r, me, states, BrowserRuns.Add(n.vars, n.signatures[0]), stacked)
  {
    hide Rules.SupportEnd, Rules.RunStart, Rules.Missing, Rules.Supporting;
    hide NewestFirst, FindHash;
    OnTopIsNewest(states, n, stacked);
    OnTopIsNew(states, n);
    NewestFirstOfPushed(states, n);
    PlacedThere(states, n, 0);
    assert states[..0] + [n] + states[0..] == stacked;
    DescendingHashes(stacked);
    assert n.signatures == [n.signatures[0]];
    ClearIsCut(r, states + [n]);
  }

  /** The browser wallet comes to store a list, one signature after the other. */
  lemma {:induction false} Stacked(r: Rules, me: Address, states: seq<SignedState>)
    returns (history: seq<seq<SignedState>>, calls: seq<BrowserRuns.Call>)
    requires r.participants != [] && forall k :: 0 <= k <= |states| ==> Tidy(r, states[k..])
    requires forall k :: 0 <= k < |states| ==>
               |states[k].signatures| == 1 && states[k].signatures[0].signer in r.participants
    ensures BrowserRuns.Run(r, me, history, calls) && |calls| == |states|
    ensures history[0] == [] && history[|calls|] == states
  {
    hide BrowserRuns.Succeeds, Tidy;
    if states == [] {
      history, calls := [[]], [];
    } else {
      var rest := states[1..];
      assert forall k :: 0 <= k <= |rest| ==> rest[k..] == states[k + 1..];
      history, calls := Stacked(r, me, rest);
      assert states == states[0..] == [states[0]] + rest;
      AddsOnTop(r, me, rest, states[0], states);
      calls := calls + [BrowserRuns.Add(states[0].vars, states[0].signatures[0])];
      history := history + [states];
    }
  }

  /** The server wallet does, too. */
  lemma {:induction false} StackedOnServer(r: Rules, recover: Recover, me: Address, states: seq<SignedState>)
    returns (history: seq<seq<SignedState>>, calls: seq<ServerRuns.Call>)
    requires r.participants != [] && forall k :: 0 <= k <= |states| ==> Tidy(r, states[k..])
    requires Genuine(recover, states) && forall k :: 0 <= k < |states| ==> |states[k].signatures| == 1
    ensures ServerRuns.Run(r, recover, me, history, calls) && |calls| == |states|
    ensures history[0] == [] && history[|calls|] == states
    ensures forall k :: 0 <= k < |calls| ==>
              && calls[k].AddSigned? && calls[k].vars == states[|states| - 1 - k].vars
              && ServerRuns.StateOf(recover, calls[k]) == states[|states| - 1 - k]
  {
    hide Tidy, Stores, GenuineState;
    if states == [] {
      history, calls := [[]], [];
    } else {
      var rest := states[1..];
      assert forall k :: 0 <= k <= |rest| ==> rest[k..] == states[k + 1..];
      history, calls := StackedOnServer(r, recover, me, rest);
      assert states == states[0..] == [states[0]] + rest;
      StoresOnTop(r, me, rest, states[0], states);
      var call := ServerRuns.AddSigned(states[0].vars, [states[0].signatures[0].signature]);
      SignedAgain(recover, states[0]);
      calls := calls + [call];
      history := history + [states];
    }
  }

  lemma SignedAgain(recover: Recover, s: SignedState)
    requires GenuineState(recover, s) && |s.signatures| == 1
    ensures ServerRuns.Signed(recover, s.vars, [s.signatures[0].signature]) == s
  {
    assert s.signatures[0] in s.signatures;
    assert ServerRuns.Signed(recover, s.vars, [s.signatures[0].signature]).signatures == s.signatures;
  }

  /** Four calls take the browser wallet from an empty list to each of these. */
  lemma ReachedInBrowser(me: Address, states: seq<SignedState>)
    returns (history: seq<seq<SignedState>>, calls: seq<BrowserRuns.Call>)
    requires states == PostFundList() || states == ConclusionList() || states == WideList()
    ensures BrowserRuns.Run(BrowserRules(["ann", "bob"]), me, history, calls)
    ensures |calls| == 4 && history[0] == [] && history[4] == states
  {
    var r := BrowserRules(["ann", "bob"]);
    AlwaysTidy(r, states);
    hide PostFundList, ConclusionList, WideList, BrowserRules, Tidy;
    history, calls := Stacked(r, me, states);
  }

  /** The signatures on these lists: ann's on the older states and bob's on the newer ones. */
  function RecoverGap(states: seq<SignedState>): Recover
    requires |states| == 4
  {
    (h: StateHash, signature: string) =>
      if h.turnNum == states[0].vars.turnNum then "bob"
      else if h.turnNum == states[1].vars.turnNum then "bob"
      else if h.turnNum == states[2].vars.turnNum && states[2].signatures != [] then states[2].signatures[0].signer
      else "ann"
  }

  lemma GapIsGenuine(states: seq<SignedState>)
    requires states == PostFundList() || states == WideList()
    ensures Genuine(RecoverGap(states), states)
  {
  }

  /** Four calls take the server wallet there, too. */
  lemma ReachedOnServer(nullApp: bool, me: Address, states: seq<SignedState>)
    returns (history: seq<seq<SignedState>>, calls: seq<ServerRuns.Call>)
    requires states == PostFundList() || states == WideList()
    ensures Genuine(RecoverGap(states), states)
    ensures ServerRuns.Run(ServerRules(["ann", "bob"], nullApp), RecoverGap(states), me, history, calls)
    ensures |calls| == 4 && history[0] == [] && history[4] == states
    ensures var r := ServerRules(["ann", "bob"], nullApp);
            && (forall k, settings, appVerdict :: 0 <= k < 4 ==>
                  !ServerChannel.Refused(r, settings, history[k], calls[k].vars, appVerdict))
            && (forall k, e :: 0 <= k < 4 && e in ServerRuns.StateOf(RecoverGap(states), calls[k]).signatures ==>
                  e.signer in r.participants)
  {
    var r := ServerRules(["ann", "bob"], nullApp);
    AlwaysTidy(r, states);
    GapIsGenuine(states);
    hide PostFundList, WideList, ServerRules, RecoverGap, Genuine, Tidy;
    history, calls := StackedOnServer(r, RecoverGap(states), me, states);
    forall k, settings, appVerdict | 0 <= k < 4
      ensures !ServerChannel.Refused(r, settings, history[k], calls[k].vars, appVerdict)
    {
      ServerChannel.SetUpIsNotChecked(r, settings, history[k], calls[k].vars, appVerdict);
    }
    forall k, e | 0 <= k < 4 && e in ServerRuns.StateOf(RecoverGap(states), calls[k]).signatures
      ensures e.signer in r.participants
    {
      assert GapList(r, states) && states[3 - k].signatures == [e];
    }
  }
}
