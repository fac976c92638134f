/** Whole runs of calls on the browser wallet's store entry. */
module BrowserRuns {
  import opened Lists
  import opened States
  import opened Support
  import opened StoredStates
  import opened Monotonicity
  import opened BrowserStore

  datatype Call =
    | Add(vars: StateVars, sig: SignatureEntry)
    | Sign(vars: StateVars, signature: string)

  /** The list that a successful call leaves, and whether the call was successful. */
  function Perform(r: Rules, me: Address, states: seq<SignedState>, call: Call)
    : (seq<SignedState>, Result<SignedState>)
  {
    match call
    case Add(vars, sig) => Adding(r, me, states, vars, sig)
    case Sign(vars, signature) => Signing(r, me, states, vars, signature)
  }

  ghost predicate Succeeds(r: Rules, me: Address, before: seq<SignedState>, call: Call, after: seq<SignedState>) {
    var (next, result) := Perform(r, me, before, call);
    result.Ok? && after == next
  }

  /** A run in which every call succeeds; history lists what is stored before, between and after the calls. */
  ghost predicate Run(r: Rules, me: Address, history: seq<seq<SignedState>>, calls: seq<Call>) {
    && |history| == |calls| + 1
    && forall i :: 0 < i < |history| ==> Succeeds(r, me, history[i - 1], calls[i - 1], history[i])
  }

  function SignatureOf(call: Call, me: Address): SignatureEntry {
    if call.Add? then call.sig else SignatureEntry(call.signature, me)
  }

  /** A successful call cuts the sorted list, which then has distinct turns. */
  lemma SuccessMeans(r: Rules, me: Address, states: seq<SignedState>, call: Call, after: seq<SignedState>)
    requires Proper(r) && Descending(states) && Succeeds(r, me, states, call, after)
    ensures var added := AddEntry(states, call.vars, SignatureOf(call, me));
            && after == Cut(r, NewestFirst(added))
            && !DuplicateTurnNums(after)
            && SignatureOf(call, me).signer in r.participants
            && (call.Sign? ==> call.vars.turnNum > LatestSignedBy(states, me))
  {
    hide Rules.SupportEnd, Rules.RunStart, Rules.Missing, Rules.Supporting;
    AddedHashes(states, call.vars, SignatureOf(call, me));
    ClearIsCut(r, AddEntry(states, call.vars, SignatureOf(call, me)));
  }

  lemma AddedHashes(states: seq<SignedState>, vars: StateVars, sig: SignatureEntry)
    requires Descending(states)
    ensures DistinctHashes(NewestFirst(AddEntry(states, vars, sig)))
    ensures WeaklyDescending(NewestFirst(AddEntry(states, vars, sig)))
  {
    var k := FindHash(states, HashState(vars));
    if k < 0 {
      var n := SignedState(vars, [sig]);
      NewHash(states, vars);
      NewestFirstOfPushed(states, n);
      var p := PlacedAt(states, n);
      PlacedIsDescending(states, n, p);
      PlacedHashes(states, n, p);
    } else {
      NewestFirstOfDescending(AddEntry(states, vars, sig));
    }
  }

  // ----- the support never goes back -----

  lemma AddedKeepsSupport(r: Rules, states: seq<SignedState>, vars: StateVars, sig: SignatureEntry,
                          sorted: seq<SignedState>)
    requires Proper(r) && Tidy(r, states)
    requires sorted == NewestFirst(AddEntry(states, vars, sig)) && !DuplicateTurnNums(Cut(r, sorted))
    ensures KeepsSupport(r, states, sorted)
  {
    hide Rules.SupportEnd, Rules.RunStart, Rules.Missing, Rules.Supporting;
    var k := FindHash(states, HashState(vars));
    if k >= 0 {
      var s := AddedEntry(states, vars, sig);
      MoreSigners(states[k], sig);
      SignatureKeepsSupport(r, states, k, s);
      NewestFirstOfDescending(states[k := s]);
    } else if r.IsSupported(states) {
      var n := SignedState(vars, [sig]);
      NewestFirstOfPushed(states, n);
      var p := PlacedAt(states, n);
      if p == |states| || states[p].vars.turnNum < vars.turnNum {
        NewTurnKeepsSupport(r, states, n, p, sorted);
      } else {
        ConflictKeepsSupport(r, states, n, p, sorted);
      }
    }
  }

  /** A conflicting state with one signature that pushes a stored state out. */
  lemma ConflictKeepsSupport(r: Rules, states: seq<SignedState>, n: SignedState, p: nat, sorted: seq<SignedState>)
    requires Proper(r) && Tidy(r, states) && r.IsSupported(states)
    requires p < |states| && states[p].vars.turnNum == n.vars.turnNum && |n.signatures| == 1
    requires sorted == states[..p] + [n] + states[p..] && !DuplicateTurnNums(Cut(r, sorted))
    ensures KeepsSupport(r, states, sorted)
  {
    hide Rules.SupportEnd, Rules.RunStart, Rules.Missing, Rules.Supporting;
    ConflictCutsAt(r, states, n, p, sorted);
    if r.Link(sorted, p) {
      LinkedConflictKeepsSupport(r, states, n, p, sorted);
    } else {
      LoneConflictKeepsSupport(r, states, n, p, sorted);
    }
  }

  lemma MoreSigners(s: SignedState, sig: SignatureEntry)
    ensures forall q :: q in Signers(s.(signatures := Unique(s.signatures + [sig]))) <==>
              q in Signers(s) || q == sig.signer
  {
    var all := s.signatures + [sig];
    var t := s.(signatures := Unique(all));
    forall q ensures q in Signers(t) <==> q in Signers(s) || q == sig.signer {
      if q in Signers(t) {
        var i :| 0 <= i < |t.signatures| && t.signatures[i].signer == q;
        assert t.signatures[i] in all;
      }
      if q in Signers(s) {
        var i :| 0 <= i < |s.signatures| && s.signatures[i].signer == q;
        assert all[i] in t.signatures;
      }
      assert all[|s.signatures|] in t.signatures;
    }
  }

  lemma CutIsTidy(r: Rules, sorted: seq<SignedState>)
    requires WeaklyDescending(sorted) && !DuplicateTurnNums(Cut(r, sorted))
    ensures Tidy(r, Cut(r, sorted))
  {
    hide Rules.SupportEnd, Rules.RunStart, Rules.Missing, Rules.Supporting;
    CutKeepsSupport(r, sorted);
    var M := Cut(r, sorted);
    forall i, j | 0 <= i < j < |M| ensures M[i].vars.turnNum > M[j].vars.turnNum {
      assert M[i].vars.turnNum != M[j].vars.turnNum;
      assert sorted[i].vars.turnNum >= sorted[j].vars.turnNum;
    }
  }

  lemma CallKeepsSupport(r: Rules, me: Address, states: seq<SignedState>, call: Call, after: seq<SignedState>)
    requires Proper(r) && Tidy(r, states) && Succeeds(r, me, states, call, after)
    ensures Tidy(r, after) && KeepsSupport(r, states, after)
  {
    hide Rules.SupportEnd, Rules.RunStart, Rules.Missing, Rules.Supporting;
    var sig := SignatureOf(call, me);
    var sorted := NewestFirst(AddEntry(states, call.vars, sig));
    SuccessMeans(r, me, states, call, after);
    AddedHashes(states, call.vars, sig);
    CutIsTidy(r, sorted);
    AddedKeepsSupport(r, states, call.vars, sig, sorted);
    CutKeepsSupport(r, sorted);
  }

  lemma RunIsTidy(r: Rules, me: Address, history: seq<seq<SignedState>>, calls: seq<Call>, i: nat)
    requires Proper(r) && Run(r, me, history, calls) && Tidy(r, history[0]) && i < |history|
    ensures Tidy(r, history[i])
  {
    forall k | 0 < k < |history| && Tidy(r, history[k - 1]) ensures Tidy(r, history[k]) {
      CallKeepsSupport(r, me, history[k - 1], calls[k - 1], history[k]);
    }
    HoldsAllAlong(history, s => Tidy(r, s), i);
  }

  lemma TidyStep(r: Rules, me: Address, history: seq<seq<SignedState>>, calls: seq<Call>, k: nat)
    requires Proper(r) && Run(r, me, history, calls) && Tidy(r, history[0]) && 0 < k < |history|
    ensures Tidy(r, history[k - 1]) && Succeeds(r, me, history[k - 1], calls[k - 1], history[k])
  {
    RunIsTidy(r, me, history, calls, k - 1);
  }

  /** Over any run of successful calls, a supported channel stays supported and its supported turn
      number never decreases. */
  lemma SupportNeverGoesBack(r: Rules, me: Address, history: seq<seq<SignedState>>, calls: seq<Call>, i: nat, j: nat)
    requires Proper(r) && Run(r, me, history, calls) && Tidy(r, history[0]) && i <= j < |history|
    ensures KeepsSupport(r, history[i], history[j])
  {
    forall k | 0 < k < |history| ensures KeepsSupport(r, history[k - 1], history[k]) {
      TidyStep(r, me, history, calls, k);
      CallKeepsSupport(r, me, history[k - 1], calls[k - 1], history[k]);
    }
    HoldsAcross(history, (s, t) => KeepsSupport(r, s, t), i, j);
  }

  // ----- the turns I sign -----

  /** Adding a signature records it, and forgets or invents no other one. */
  lemma AddedSigned(states: seq<SignedState>, vars: StateVars, sig: SignatureEntry, me: Address)
    ensures forall s :: s in states && me in Signers(s) ==>
              exists s' :: s' in AddEntry(states, vars, sig) && me in Signers(s') && s'.vars == s.vars
    ensures forall s :: s in AddEntry(states, vars, sig) && me in Signers(s) ==>
              s.vars.turnNum == vars.turnNum || s in states
    ensures sig.signer == me ==>
              exists s :: s in AddEntry(states, vars, sig) && me in Signers(s) && s.vars.turnNum == vars.turnNum
  {
    var k := FindHash(states, HashState(vars));
    FindHashFinds(states, HashState(vars));
    var added := AddEntry(states, vars, sig);
    if k >= 0 {
      MoreSigners(states[k], sig);
      assert added[k] in added;
    } else {
      assert added[|states|] in added;
      assert added[|states|].signatures[0] == sig;
    }
    forall s | s in states && me in Signers(s)
      ensures exists s' :: s' in added && me in Signers(s') && s'.vars == s.vars
    {
      var i :| 0 <= i < |states| && states[i] == s;
      assert added[i] in added && added[i].vars == s.vars && me in Signers(added[i]);
    }
  }

  lemma CallRemembers(r: Rules, me: Address, states: seq<SignedState>, call: Call, after: seq<SignedState>)
    requires Proper(r) && Tidy(r, states) && me in r.participants && Succeeds(r, me, states, call, after)
    ensures LatestSignedBy(after, me) >= LatestSignedBy(states, me)
    ensures call.Sign? ==> LatestSignedBy(states, me) < call.vars.turnNum == LatestSignedBy(after, me)
  {
    hide Rules.SupportEnd, Rules.RunStart, Rules.Missing, Rules.Supporting;
    var sig := SignatureOf(call, me);
    var added := AddEntry(states, call.vars, sig);
    var sorted := NewestFirst(added);
    SuccessMeans(r, me, states, call, after);
    AddedHashes(states, call.vars, sig);
    CutRemembersSigner(r, sorted, me);
    NewestFirstElements(added);
    AddedSigned(states, call.vars, sig, me);
    LatestSignedIsHighest(states, me);
    LatestSignedIsHighest(sorted, me);
  }

  /** What I signed last is never forgotten over a run. */
  lemma RunRemembers(r: Rules, me: Address, history: seq<seq<SignedState>>, calls: seq<Call>, i: nat, j: nat)
    requires Proper(r) && Run(r, me, history, calls) && Tidy(r, history[0]) && me in r.participants
    requires i <= j < |history|
    ensures LatestSignedBy(history[i], me) <= LatestSignedBy(history[j], me)
  {
    forall k | 0 < k < |history| ensures LatestSignedBy(history[k - 1], me) <= LatestSignedBy(history[k], me) {
      TidyStep(r, me, history, calls, k);
      CallRemembers(r, me, history[k - 1], calls[k - 1], history[k]);
    }
    HoldsAcross(history, (s, t) => LatestSignedBy(s, me) <= LatestSignedBy(t, me), i, j);
  }

  lemma SignedAt(r: Rules, me: Address, history: seq<seq<SignedState>>, calls: seq<Call>, i: nat)
    requires Proper(r) && Run(r, me, history, calls) && Tidy(r, history[0]) && me in r.participants
    requires i < |calls| && calls[i].Sign?
    ensures LatestSignedBy(history[i], me) < calls[i].vars.turnNum == LatestSignedBy(history[i + 1], me)
  {
    TidyStep(r, me, history, calls, i + 1);
    CallRemembers(r, me, history[i], calls[i], history[i + 1]);
  }

  /** In any run of successful calls, the turn numbers I sign strictly increase. */
  lemma SignedTurnsIncrease(r: Rules, me: Address, history: seq<seq<SignedState>>, calls: seq<Call>, i: nat, j: nat)
    requires Proper(r) && Run(r, me, history, calls) && Tidy(r, history[0]) && me in r.participants
    requires i < j < |calls| && calls[i].Sign? && calls[j].Sign?
    ensures calls[i].vars.turnNum < calls[j].vars.turnNum
  {
    SignedAt(r, me, history, calls, i);
    RunRemembers(r, me, history, calls, i + 1, j);
    SignedAt(r, me, history, calls, j);
  }
}
