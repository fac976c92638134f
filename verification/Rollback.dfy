/** A server wallet's channel that goes back: its key has signed a state behind the store's back. */
module Rollback {
  import opened Lists
  import opened States
  import opened Support
  import opened StoredStates
  import opened Monotonicity
  import opened ServerStore
  import opened ServerRuns
  import opened ServerChannel
  import Gaps

  const TRIO := ["ann", "bob", "cat"]

  lemma TrioMovers(r: Rules)
    requires r == ServerRules(TRIO, false)
    ensures r.mover(3) == "ann" && r.mover(4) == "bob" && r.mover(5) == "cat"
  {
    assert 3 % |TRIO| == 0 && 4 % |TRIO| == 1 && 5 % |TRIO| == 2;
  }

  /** A state of turn 4 that all three signed, and that does not follow from the stored states. */
  function SignedByAll(): (s: SignedState)
    ensures Signers(s) == {"ann", "bob", "cat"}
  {
    var s := SignedState(StateVars(4, Gaps.SECOND, "0x", false),
                         [SignatureEntry("sig0", "ann"), SignatureEntry("sig1", "bob"), SignatureEntry("sig2", "cat")]);
    assert s.signatures[0].signer == "ann" && s.signatures[1].signer == "bob" && s.signatures[2].signer == "cat";
    s
  }

  function FirstRound(): seq<SignedState> {
    [Gaps.By(5, Gaps.FIRST, false, "cat"),
     Gaps.By(4, Gaps.FIRST, false, "bob"),
     Gaps.By(3, Gaps.FIRST, false, "ann")]
  }

  lemma FirstRoundSupport(r: Rules, L: seq<SignedState>)
    requires r == ServerRules(TRIO, false) && L == FirstRound()
    ensures r.SupportEnd(L, 0) == 2 && Tidy(r, L) && r.IsSupported(L) && SupportedTurn(r, L) == 5
  {
    FirstRoundEnd(r, L);
    TrioMovers(r);
    assert r.Supporting(L, 0, 1) == [L[0]];
    assert r.Supporting(L, 0, 2) == [L[0], L[1]];
    assert r.Supporting(L, 0, 3) == [L[0], L[1], L[2]];
  }

  lemma FirstRoundEnd(r: Rules, L: seq<SignedState>)
    requires r == ServerRules(TRIO, false) && L == FirstRound()
    ensures r.SupportEnd(L, 0) == 2 && r.RunStart(L, 2) == 0
  {
    TrioMovers(r);
    assert r.Missing(L, 0, 1) == {"ann", "bob"};
    assert r.Missing(L, 0, 2) == {"ann"};
    assert r.Missing(L, 0, 3) == {};
    assert r.Link(L, 1) && r.Link(L, 2);
    assert r.RunStart(L, 0) == r.RunStart(L, 1) == r.RunStart(L, 2) == 0;
    assert r.SupportEnd(L, 0) == r.SupportEnd(L, 1) == r.SupportEnd(L, 2) == 2;
  }

  lemma ConflictingSupport(r: Rules, L: seq<SignedState>, s: SignedState, computed: seq<SignedState>)
    requires r == ServerRules(TRIO, false) && L == FirstRound() && s == SignedByAll()
    requires computed == [L[0], L[1], s, L[2]]
    ensures r.SupportEnd(computed, 0) == 2
  {
    TrioMovers(r);
    MissingSingle(r, computed, 2);
    assert r.Missing(computed, 0, 1) == {"ann", "bob"};
    assert r.Missing(computed, 0, 2) == {"ann"};
    assert r.Link(computed, 1) && !r.Link(computed, 2);
    assert r.RunStart(computed, 0) == r.RunStart(computed, 1) == 0 && r.RunStart(computed, 2) == 2;
    assert r.SupportEnd(computed, 0) == r.SupportEnd(computed, 1) == r.SupportEnd(computed, 2) == 2;
  }

  lemma ConflictIsNew(L: seq<SignedState>, s: SignedState)
    requires L == FirstRound() && s == SignedByAll()
    ensures FindHash(L, HashState(s.vars)) < 0
  {
    FindHashFinds(L, HashState(s.vars));
    assert Gaps.FIRST.destinations[0] != Gaps.SECOND.destinations[0];
  }

  lemma RollbackStores(r: Rules, L: seq<SignedState>, s: SignedState, M: seq<SignedState>)
    requires r == ServerRules(TRIO, false) && L == FirstRound() && s == SignedByAll() && M == [L[0], s]
    ensures Stores(r, "ann", L, s, M)
  {
    hide Rules.SupportEnd, Rules.RunStart, Rules.Missing, Rules.Supporting;
    hide FindHash, StableSort, Insert, Reverse, Signers, Rules.MoverSigned, Rules.Link;
    var computed, sorted := [L[0], L[1], s, L[2]], [L[0], s, L[1], L[2]];
    ConflictIsNew(L, s);
    assert sorted == L[..1] + [s] + L[1..] && computed == L[..2] + [s] + L[2..];
    NewOrder(L, s, 1, sorted);
    SortedOfPushed(L, s, 2);
    ConflictingSupport(r, L, s, computed);
    ConflictCleared(r, computed, sorted, 2, 1);
    assert sorted[..2] == M;
  }

  /** Who made the signatures on these states. */
  function RecoverTrio(): Recover {
    (h: StateHash, signature: string) =>
      if signature == "sig0" then "ann"
      else if signature == "sig1" then "bob"
      else if signature == "sig2" then "cat"
      else if h.turnNum == 3 then "ann"
      else if h.turnNum == 4 then "bob"
      else "cat"
  }

  lemma FirstRoundStacks(r: Rules, L: seq<SignedState>, k: nat)
    requires r == ServerRules(TRIO, false) && L == FirstRound() && k <= 3
    ensures Tidy(r, L[k..])
  {
    hide Rules.SupportEnd, ServerRules;
    var rest := L[k..];
    assert Descending(rest);
    if r.IsSupported(rest) {
      TrioParticipants(r);
      Gaps.NeedsOldest(r, rest, "ann");
    }
  }

  lemma TrioParticipants(r: Rules)
    requires r == ServerRules(TRIO, false)
    ensures r.participants == TRIO && "ann" in r.participants
  {
    assert TRIO[0] == "ann";
  }

  lemma SignedByTrio(s: SignedState)
    requires s == SignedByAll()
    ensures Signed(RecoverTrio(), s.vars, ["sig0", "sig1", "sig2"]) == s
  {
    assert Signed(RecoverTrio(), s.vars, ["sig0", "sig1", "sig2"]).signatures == s.signatures;
  }

  lemma FirstRoundFacts(L: seq<SignedState>)
    requires L == FirstRound()
    ensures |L| == 3 && Genuine(RecoverTrio(), L)
    ensures forall k :: 0 <= k < 3 ==> |L[k].signatures| == 1 && L[k].vars.turnNum < 6
  {
  }

  /** A wallet comes to store the first states and then the conflicting one: four calls, from nothing. */
  lemma RollbackRun(r: Rules) returns (history: seq<seq<SignedState>>, calls: seq<Call>)
    requires r == ServerRules(TRIO, false)
    ensures Run(r, RecoverTrio(), "ann", history, calls) && |calls| == 4 && history[0] == []
    ensures history[3] == FirstRound() && history[4] == [FirstRound()[0], SignedByAll()]
    ensures forall k :: 0 <= k < 4 ==> calls[k].vars.turnNum < 6
  {
    var L, s := FirstRound(), SignedByAll();
    FirstRoundFacts(L);
    forall k | 0 <= k <= 3 ensures Tidy(r, L[k..]) {
      FirstRoundStacks(r, L, k);
    }
    RollbackStores(r, L, s, [L[0], s]);
    SignedByTrio(s);
    TrioParticipants(r);
    assert s.vars.turnNum == 4;
    hide Tidy, Stores, Genuine, RecoverTrio, SignedByAll, FirstRound, ServerRules, Signed;
    history, calls := Gaps.StackedOnServer(r, RecoverTrio(), "ann", L);
    var conflicting := AddSigned(s.vars, ["sig0", "sig1", "sig2"]);
    assert Succeeds(r, RecoverTrio(), "ann", L, conflicting, [L[0], s]);
    OneMore(r, RecoverTrio(), "ann", history, calls, conflicting, [L[0], s]);
    calls := calls + [conflicting];
    history := history + [[L[0], s]];
  }

  lemma OneMore(r: Rules, recover: Recover, me: Address, history: seq<seq<SignedState>>, calls: seq<Call>, call: Call,
                after: seq<SignedState>)
    requires Run(r, recover, me, history, calls) && Succeeds(r, recover, me, history[|calls|], call, after)
    ensures Run(r, recover, me, history + [after], calls + [call])
  {
    hide Succeeds;
  }

  /** Four successful calls, none of which is refused, after which a channel supported at turn 5 is supported at
      turn 4 only: the last one brings a conflicting state that everybody has signed. */
  lemma RollbackExample() returns (history: seq<seq<SignedState>>, calls: seq<Call>)
    ensures var r := ServerRules(TRIO, false);
            && Run(r, RecoverTrio(), "ann", history, calls) && |calls| == 4 && history[0] == []
            && (forall k, settings, appVerdict :: 0 <= k < 4 ==>
                  !Refused(r, settings, history[k], calls[k].vars, appVerdict))
            && (forall k, e :: 0 <= k < 4 && e in StateOf(RecoverTrio(), calls[k]).signatures ==> e.signer in TRIO)
            && r.IsSupported(history[3]) && SupportedTurn(r, history[3]) == 5
            && r.IsSupported(history[4]) && SupportedTurn(r, history[4]) == 4
  {
    hide Rules.SupportEnd, Rules.RunStart, Rules.Missing, Rules.Supporting, Stores;
    var r := ServerRules(TRIO, false);
    var L, s := FirstRound(), SignedByAll();
    var M := [L[0], s];
    history, calls := RollbackRun(r);
    FirstRoundSupport(r, L);
    ServerRulesAreProper(TRIO, false);
    TrioMovers(r);
    ConflictSupport(r, L, s, 1, M);
    UnlinkedConflictTurn(r, s, 1, M);
    forall k, settings, appVerdict | 0 <= k < 4 ensures !Refused(r, settings, history[k], calls[k].vars, appVerdict) {
      SetUpIsNotChecked(r, settings, history[k], calls[k].vars, appVerdict);
    }
    forall k, e | 0 <= k < 4 && e in StateOf(RecoverTrio(), calls[k]).signatures ensures e.signer in TRIO {
      SignedByMembers(calls[k], e);
    }
  }

  lemma SignedByMembers(call: Call, e: SignatureEntry)
    requires e in StateOf(RecoverTrio(), call).signatures
    ensures e.signer in TRIO
  {
    assert TRIO[0] == "ann" && TRIO[1] == "bob" && TRIO[2] == "cat";
  }
}
