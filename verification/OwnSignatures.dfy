/** A server wallet whose key signs through its store only: its support never goes back. */
module OwnSignatures {
  import opened States
  import opened Support
  import opened StoredStates
  import opened Monotonicity
  import opened ServerStore
  import opened ServerRuns

  /** A state with hash h was signed by one of the first k calls. */
  ghost predicate SignedBefore(calls: seq<Call>, k: nat, h: StateHash) {
    exists j :: 0 <= j < k && j < |calls| && calls[j].SignState? && HashState(calls[j].vars) == h
  }

  /** Whoever sends a state with my signature got that signature from an earlier call of mine. */
  ghost predicate OnlySignsHere(recover: Recover, me: Address, calls: seq<Call>) {
    forall k :: 0 <= k < |calls| && calls[k].AddSigned? && me in Signers(StateOf(recover, calls[k])) ==>
      SignedBefore(calls, k, HashState(calls[k].vars))
  }

  /** The state with hash h is stored, or the channel has left its turn behind. */
  ghost predicate Settled(r: Rules, states: seq<SignedState>, h: StateHash) {
    FindHash(states, h) >= 0 || (r.IsSupported(states) && Above(states, h.turnNum))
  }

  ghost predicate Above(states: seq<SignedState>, t: nat) {
    forall i :: 0 <= i < |states| ==> states[i].vars.turnNum > t
  }

  lemma FindHashThere(states: seq<SignedState>, i: nat)
    requires i < |states|
    ensures FindHash(states, HashState(states[i].vars)) >= 0
  {
    FindHashFinds(states, HashState(states[i].vars));
  }

  /** What clean-up takes away is older than all that is left. */
  lemma CutSettles(r: Rules, sorted: seq<SignedState>, i: nat)
    requires Descending(sorted) && i < |sorted|
    ensures Settled(r, Cut(r, sorted), HashState(sorted[i].vars))
  {
    hide Rules.SupportEnd, Rules.RunStart, Rules.Missing, Rules.Supporting, FindHash;
    CutKeepsSupport(r, sorted);
    if i < |Cut(r, sorted)| {
      FindHashThere(Cut(r, sorted), i);
    }
  }

  lemma AgainSettles(r: Rules, L: seq<SignedState>, k: nat, j: SignedState, h: StateHash)
    requires r.participants != [] && Tidy(r, L) && k < |L| && j.vars == L[k].vars && Descending(L[k := j])
    requires KeepsSupport(r, L, L[k := j]) && Settled(r, L, h)
    ensures Settled(r, Cut(r, L[k := j]), h)
  {
    hide Rules.SupportEnd, Rules.RunStart, Rules.Missing, Rules.Supporting, FindHash, SupportedTurn;
    CutKeepsSupport(r, L[k := j]);
    FindHashFinds(L, h);
    if FindHash(L, h) >= 0 {
      CutSettles(r, L[k := j], FindHash(L, h));
    }
  }

  /** States below the support of a tidy list are cut away at once. */
  lemma BelowIsCut(r: Rules, L: seq<SignedState>, s: SignedState)
    requires Tidy(r, L) && r.IsSupported(L)
    ensures Cut(r, L + [s]) == L
  {
    hide Rules.SupportEnd, Rules.RunStart, Rules.Missing, Rules.Supporting;
    assert (L + [s])[..|L|] == L;
    SupportAgrees(r, L, L + [s]);
  }

  lemma NewSettles(r: Rules, L: seq<SignedState>, s: SignedState, p: nat, sorted: seq<SignedState>, h: StateHash)
    requires r.participants != [] && Tidy(r, L) && p <= |L|
    requires forall k :: p <= k < |L| ==> L[k].vars.turnNum < s.vars.turnNum
    requires sorted == L[..p] + [s] + L[p..] && Descending(sorted)
    requires KeepsSupport(r, L, sorted) && Settled(r, L, h)
    ensures Settled(r, Cut(r, sorted), h)
  {
    hide Rules.SupportEnd, Rules.RunStart, Rules.Missing, Rules.Supporting, FindHash, SupportedTurn;
    CutKeepsSupport(r, sorted);
    FindHashFinds(L, h);
    if FindHash(L, h) >= 0 {
      var i := FindHash(L, h);
      CutSettles(r, sorted, if i < p then i else i + 1);
    } else if p == |L| && s.vars.turnNum <= h.turnNum {
      assert sorted == L + [s];
      BelowIsCut(r, L, s);
    } else {
      assert p < |L| ==> L[p].vars.turnNum > h.turnNum;
    }
  }

  /** A call that meets no conflict keeps every settled state settled, and settles its own. */
  lemma CallSettles(r: Rules, recover: Recover, me: Address, L: seq<SignedState>, s: SignedState, M: seq<SignedState>,
                    h: StateHash)
    requires Proper(r) && Sound(r, recover, L) && GenuineState(recover, s) && Stores(r, me, L, s, M)
    requires !Conflicts(L, s) && (Settled(r, L, h) || h == HashState(s.vars))
    ensures Settled(r, M, h)
  {
    hide Rules.SupportEnd, Rules.RunStart, Rules.Missing, Rules.Supporting, Stores, Settled, FindHash;
    FindHashFinds(L, HashState(s.vars));
    if FindHash(L, HashState(s.vars)) >= 0 {
      var k := FindHash(L, HashState(s.vars));
      var j := StoredAgain(r, me, L, s, M, k);
      JoinedSigners(recover, L[k], s);
      SignatureKeepsSupport(r, L, k, j);
      if h == HashState(s.vars) {
        CutSettles(r, L[k := j], k);
      } else {
        AgainSettles(r, L, k, j, h);
      }
    } else {
      var p := PositionOf(L, s.vars.turnNum);
      var sorted := L[..p] + [s] + L[p..];
      assert p < |L| ==> L[p].vars.turnNum < s.vars.turnNum;
      StoredNew(r, me, L, s, M, p, sorted);
      NewTurnKeepsSupport(r, L, s, p, sorted);
      if h == HashState(s.vars) {
        CutSettles(r, sorted, p);
      } else {
        NewSettles(r, L, s, p, sorted, h);
      }
    }
  }

  /** s is new, and a different state of its turn is stored. */
  ghost predicate Conflicts(L: seq<SignedState>, s: SignedState) {
    FindHash(L, HashState(s.vars)) < 0 && exists p :: 0 <= p < |L| && L[p].vars.turnNum == s.vars.turnNum
  }

  /** A settled state cannot come back as a conflict. */
  lemma SettledIsNoConflict(r: Rules, L: seq<SignedState>, s: SignedState)
    requires Settled(r, L, HashState(s.vars))
    ensures !Conflicts(L, s)
  {
  }

  /** A conflict is only ever stored with my own signature on it, and not by signing alone. */
  lemma ConflictIsMine(r: Rules, me: Address, L: seq<SignedState>, s: SignedState, M: seq<SignedState>)
    requires Proper(r) && Tidy(r, L) && Stores(r, me, L, s, M) && Conflicts(L, s)
    ensures forall q :: q in r.participants ==> q in Signers(s)
  {
    hide Stores, Rules.SupportEnd, FindHash;
    var p :| 0 <= p < |L| && L[p].vars.turnNum == s.vars.turnNum;
    StoredConflict(r, me, L, s, M, p);
  }

  ghost predicate AllSettled(r: Rules, states: seq<SignedState>, calls: seq<Call>, k: nat) {
    forall j :: 0 <= j < k && j < |calls| && calls[j].SignState? ==> Settled(r, states, HashState(calls[j].vars))
  }

  /** The k-th call of such a run meets no conflict. */
  lemma NoConflict(r: Rules, recover: Recover, me: Address, other: Address, L: seq<SignedState>, calls: seq<Call>, k: nat,
                   M: seq<SignedState>)
    requires Proper(r) && me in r.participants && other in r.participants && other != me
    requires OnlySignsHere(recover, me, calls) && k < |calls|
    requires Sound(r, recover, L) && AllSettled(r, L, calls, k) && Succeeds(r, recover, me, L, calls[k], M)
    ensures !Conflicts(L, StateOf(recover, calls[k]))
  {
    hide Stores, Settled, Conflicts, Rules.SupportEnd;
    var s := StateOf(recover, calls[k]);
    if Conflicts(L, s) {
      ConflictIsMine(r, me, L, s, M);
      if calls[k].SignState? {
        SignedIsGenuine(recover, calls[k].vars, [calls[k].signature]);
        assert false;
      } else {
        var j :| 0 <= j < k && j < |calls| && calls[j].SignState? && HashState(calls[j].vars) == HashState(s.vars);
        SettledIsNoConflict(r, L, s);
      }
    }
  }

  lemma {:induction false} RunSettles(r: Rules, recover: Recover, me: Address, other: Address,
                                      history: seq<seq<SignedState>>, calls: seq<Call>, k: nat)
    requires Proper(r) && me in r.participants && other in r.participants && other != me
    requires Run(r, recover, me, history, calls) && history[0] == [] && OnlySignsHere(recover, me, calls)
    requires k < |history|
    ensures Sound(r, recover, history[k]) && AllSettled(r, history[k], calls, k)
  {
    hide Stores, Settled, Conflicts, Succeeds, Rules.SupportEnd;
    EmptyIsSound(r, recover);
    RunIsSound(r, recover, me, history, calls, k);
    if k > 0 {
      RunSettles(r, recover, me, other, history, calls, k - 1);
      var L, M, s := history[k - 1], history[k], StateOf(recover, calls[k - 1]);
      assert Succeeds(r, recover, me, L, calls[k - 1], M);
      NoConflict(r, recover, me, other, L, calls, k - 1, M);
      forall j | 0 <= j < k && calls[j].SignState? ensures Settled(r, M, HashState(calls[j].vars)) {
        SettledStep(r, recover, me, L, calls[k - 1], M, HashState(calls[j].vars));
      }
    }
  }

  lemma SettledStep(r: Rules, recover: Recover, me: Address, L: seq<SignedState>, call: Call, M: seq<SignedState>,
                    h: StateHash)
    requires Proper(r) && Sound(r, recover, L) && Succeeds(r, recover, me, L, call, M)
    requires !Conflicts(L, StateOf(recover, call)) && (Settled(r, L, h) || h == HashState(call.vars))
    ensures Settled(r, M, h)
  {
    hide Stores, Settled, Conflicts;
    SignedIsGenuine(recover, call.vars, if call.AddSigned? then call.signatures else [call.signature]);
    CallSettles(r, recover, me, L, StateOf(recover, call), M, h);
  }

  lemma EmptyIsSound(r: Rules, recover: Recover)
    ensures Sound(r, recover, [])
  {
  }

  lemma NoConflictNoRollback(r: Rules, L: seq<SignedState>, s: SignedState)
    requires r.participants != [] && !Conflicts(L, s)
    ensures !RollsBack(r, L, s)
  {
  }

  /** A wallet that signs through its store only, in a channel with somebody else: from the channel's
      creation on, the supported turn never decreases, whatever the others send. */
  lemma OwnSupportNeverGoesBack(r: Rules, recover: Recover, me: Address, other: Address,
                                history: seq<seq<SignedState>>, calls: seq<Call>, i: nat, j: nat)
    requires Proper(r) && me in r.participants && other in r.participants && other != me
    requires Run(r, recover, me, history, calls) && history[0] == [] && OnlySignsHere(recover, me, calls)
    requires i <= j < |history|
    ensures KeepsSupport(r, history[i], history[j])
  {
    hide Conflicts, Succeeds, RollsBack, KeepsSupport;
    EmptyIsSound(r, recover);
    forall k | 0 <= k < |calls| ensures !RollsBack(r, history[k], StateOf(recover, calls[k])) {
      RunSettles(r, recover, me, other, history, calls, k);
      assert Succeeds(r, recover, me, history[k], calls[k], history[k + 1]);
      NoConflict(r, recover, me, other, history[k], calls, k, history[k + 1]);
      NoConflictNoRollback(r, history[k], StateOf(recover, calls[k]));
    }
    SupportGoesBackOnlyByRollback(r, recover, me, history, calls, i, j);
  }
}
