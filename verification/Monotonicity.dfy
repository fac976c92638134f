/** How the support of a stored list changes when a state or a signature is added to the list. */
module Monotonicity {
  import opened States
  import opened Support
  import opened StoredStates

  lemma SupportedTurnAt(r: Rules, states: seq<SignedState>) returns (f: nat)
    requires r.participants != [] && r.IsSupported(states)
    ensures IsFirst(r, states, f) && SupportedTurn(r, states) == states[f].vars.turnNum
  {
    hide Rules.SupportEnd, Rules.RunStart, Rules.Missing, Rules.Supporting;
    f := SupportEnds(r, states);
  }

  /** The states at a to b - 1 reappear in L', d positions further down, with no fewer signers. */
  ghost predicate Reappears(L: seq<SignedState>, L': seq<SignedState>, a: nat, b: nat, d: nat) {
    && b <= |L| && b + d <= |L'|
    && forall k {:trigger L[k]} :: a <= k < b ==> L'[k + d].vars == L[k].vars && Signers(L[k]) <= Signers(L'[k + d])
  }

  /** A covering run stays one when its states reappear. */
  lemma RunMoves(r: Rules, L: seq<SignedState>, L': seq<SignedState>, a: nat, b: nat, d: nat)
    requires r.CoveringRun(L, a, b) && Reappears(L, L', a, b, d)
    ensures r.CoveringRun(L', a + d, b + d)
  {
    forall k | a + d < k < b + d ensures r.Link(L', k) {
      assert r.Link(L, k - d);
      assert L'[(k - d) + d].vars == L[k - d].vars;
      assert L'[(k - d - 1) + d].vars == L[k - d - 1].vars;
    }
    forall p | p in r.participants ensures r.Endorsed(L', a + d, b + d, p) {
      assert r.Endorsed(L, a, b, p);
      var k :| a <= k < b && r.Endorses(L, k, p);
      assert r.Endorses(L', k + d, p);
    }
  }

  /** When the support's run reappears in a sorted list, that list is supported at no earlier turn. */
  lemma SupportCarriesOver(r: Rules, L: seq<SignedState>, L': seq<SignedState>, d: nat)
    requires r.participants != [] && r.IsSupported(L) && WeaklyDescending(L')
    requires var e := r.SupportEnd(L, 0); Reappears(L, L', r.RunStart(L, e), e + 1, d)
    ensures KeepsSupport(r, L, L')
  {
    hide Rules.SupportEnd, Rules.RunStart, Rules.Missing, Rules.Supporting;
    SupportMoves(r, L, L', d);
    var f := SupportedTurnAt(r, L);
    var f' := SupportedTurnAt(r, L');
    assert L'[f + d].vars == L[f].vars && r.MoverSigned(L'[f + d]);
    assert f' <= f + d;
  }

  lemma SupportMoves(r: Rules, L: seq<SignedState>, L': seq<SignedState>, d: nat)
    requires r.IsSupported(L)
    requires var e := r.SupportEnd(L, 0); Reappears(L, L', r.RunStart(L, e), e + 1, d)
    ensures r.IsSupported(L') && r.SupportEnd(L', 0) <= r.SupportEnd(L, 0) + d
    ensures r.RunStart(L', r.SupportEnd(L', 0)) <= r.RunStart(L, r.SupportEnd(L, 0)) + d
  {
    hide Rules.SupportEnd, Rules.RunStart, Rules.Missing, Rules.Supporting;
    var e := r.SupportEnd(L, 0);
    var a := r.RunStart(L, e);
    SupportIsCovering(r, L);
    RunMoves(r, L, L', a, e + 1, d);
    CoveringRunAfter(r, L', a + d, e + 1 + d);
  }

  /** A signature on a stored state: nothing moves. */
  lemma SignatureKeepsSupport(r: Rules, L: seq<SignedState>, k: nat, s: SignedState)
    requires r.participants != [] && Descending(L) && k < |L|
    requires s.vars == L[k].vars && Signers(L[k]) <= Signers(s)
    ensures KeepsSupport(r, L, L[k := s])
  {
    hide Rules.SupportEnd, Rules.RunStart, Rules.Missing, Rules.Supporting;
    if r.IsSupported(L) {
      assert Reappears(L, L[k := s], r.RunStart(L, r.SupportEnd(L, 0)), r.SupportEnd(L, 0) + 1, 0);
      SupportCarriesOver(r, L, L[k := s], 0);
    }
  }

  lemma LinkedStep(r: Rules, L: seq<SignedState>, a: nat, b: nat, p: nat)
    requires Proper(r) && a < p < b <= |L| && r.Linked(L, a, b)
    ensures L[p].vars.turnNum + 1 == L[p - 1].vars.turnNum
  {
    assert r.Link(L, p);
  }

  /** A state of a new turn cannot come between two linked states: it falls above or below the run. */
  lemma OutsideRun(r: Rules, L: seq<SignedState>, t: nat, p: nat)
    requires Proper(r) && p <= |L| && r.IsSupported(L)
    requires forall k :: 0 <= k < p ==> L[k].vars.turnNum > t
    requires forall k :: p <= k < |L| ==> L[k].vars.turnNum < t
    ensures p <= r.RunStart(L, r.SupportEnd(L, 0)) || p > r.SupportEnd(L, 0)
  {
    var e := r.SupportEnd(L, 0);
    RunStartLinked(r, L, e);
    if r.RunStart(L, e) < p <= e {
      LinkedStep(r, L, r.RunStart(L, e), e + 1, p);
      assert false;
    }
  }

  lemma PlacedIsDescending(L: seq<SignedState>, n: SignedState, p: nat)
    requires Descending(L) && p <= |L|
    requires forall k :: 0 <= k < p ==> L[k].vars.turnNum > n.vars.turnNum
    requires forall k :: p <= k < |L| ==> L[k].vars.turnNum <= n.vars.turnNum
    ensures WeaklyDescending(L[..p] + [n] + L[p..])
  {
  }

  lemma NewTurnKeepsSupport(r: Rules, L: seq<SignedState>, n: SignedState, p: nat, L': seq<SignedState>)
    requires Proper(r) && Descending(L) && p <= |L|
    requires forall k :: 0 <= k < p ==> L[k].vars.turnNum > n.vars.turnNum
    requires forall k :: p <= k < |L| ==> L[k].vars.turnNum < n.vars.turnNum
    requires L' == L[..p] + [n] + L[p..]
    ensures KeepsSupport(r, L, L')
  {
    hide Rules.SupportEnd, Rules.RunStart, Rules.Missing, Rules.Supporting;
    if r.IsSupported(L) {
      OutsideRun(r, L, n.vars.turnNum, p);
      PlacedIsDescending(L, n, p);
      var e := r.SupportEnd(L, 0);
      var d := if p > e then 0 else 1;
      assert Reappears(L, L', r.RunStart(L, e), e + 1, d);
      SupportCarriesOver(r, L, L', d);
    }
  }

  lemma DuplicateInPrefix(states: seq<SignedState>, p: nat, m: nat)
    requires p + 1 < m <= |states| && states[p].vars.turnNum == states[p + 1].vars.turnNum
    ensures DuplicateTurnNums(states[..m])
  {
    assert states[..m][p] == states[p] && states[..m][p + 1] == states[p + 1];
  }

  /** No run of the states above the support's end is covered. */
  lemma NotAbove(r: Rules, L: seq<SignedState>, other: seq<SignedState>, p: nat)
    requires Tidy(r, L) && p < |L| && p <= |other| && other[..p] == L[..p]
    ensures r.SupportEnd(other, 0) >= p
  {
    hide Rules.SupportEnd, Rules.RunStart, Rules.Missing, Rules.Supporting;
    var e := r.SupportEnd(other, 0);
    if e < p {
      assert other[..e + 1] == other[..p][..e + 1] == L[..p][..e + 1] == L[..e + 1];
      SupportAgrees(r, other, L);
      assert false;
    }
  }

  lemma DuplicateInCut(r: Rules, states: seq<SignedState>, p: nat)
    requires p + 1 < |states| && states[p].vars.turnNum == states[p + 1].vars.turnNum
    requires r.SupportEnd(states, 0) > p
    ensures DuplicateTurnNums(Cut(r, states))
  {
    hide Rules.SupportEnd, DuplicateTurnNums;
    if r.IsSupported(states) {
      DuplicateInPrefix(states, p, r.SupportEnd(states, 0) + 1);
    } else {
      assert states == states[..|states|];
      DuplicateInPrefix(states, p, |states|);
    }
  }

  /** A state n that conflicts with the stored state at p, and pushes it out: the list then ends with n,
      which completes a run that was not complete before. */
  lemma ConflictCutsAt(r: Rules, L: seq<SignedState>, n: SignedState, p: nat, L': seq<SignedState>)
    requires Tidy(r, L) && p < |L| && L[p].vars.turnNum == n.vars.turnNum
    requires L' == L[..p] + [n] + L[p..] && !DuplicateTurnNums(Cut(r, L'))
    ensures r.SupportEnd(L', 0) == p < |L'|
  {
    hide Rules.SupportEnd, Rules.RunStart, Rules.Missing, Rules.Supporting, DuplicateTurnNums, Cut;
    NotAbove(r, L, L', p);
    if r.SupportEnd(L', 0) > p {
      DuplicateInCut(r, L', p);
      assert false;
    }
  }

  lemma SameRunAbove(r: Rules, L: seq<SignedState>, L': seq<SignedState>, p: nat)
    requires 0 < p < |L| && p < |L'| && L'[..p] == L[..p] && r.Link(L', p)
    ensures r.RunStart(L', p) == r.RunStart(L, p - 1)
  {
    RunStartAgrees(r, L', L, p - 1);
  }

  /** If n links to the state above it, the support starts no later than before. */
  lemma LinkedConflictStart(r: Rules, L: seq<SignedState>, n: SignedState, p: nat, f: nat, f': nat, L': seq<SignedState>)
    requires 0 < p < |L| && r.SupportEnd(L, 0) >= p
    requires p < |L'| && L'[..p] == L[..p] && L'[p] == n
    requires r.SupportEnd(L', 0) == p && r.Link(L', p) && IsFirst(r, L', f')
    requires IsFirst(r, L, f) && f < p
    ensures f' <= f
  {
    hide Rules.SupportEnd, Rules.Missing, Rules.MoverSigned;
    SameRunAbove(r, L, L', p);
    RunStartWithin(r, L, p - 1);
    assert L'[f] == L'[..p][f] == L[f];
  }

  /** The support's run lies within one unbroken run. */
  lemma RunStartWithin(r: Rules, L: seq<SignedState>, i: nat)
    requires r.IsSupported(L)
    requires r.RunStart(L, r.SupportEnd(L, 0)) <= i <= r.SupportEnd(L, 0)
    ensures r.RunStart(L, i) <= r.RunStart(L, r.SupportEnd(L, 0))
  {
    RunStartLinked(r, L, r.SupportEnd(L, 0));
    RunStartLeast(r, L, r.RunStart(L, r.SupportEnd(L, 0)), i);
  }

  lemma LinkedConflictKeepsSupport(r: Rules, L: seq<SignedState>, n: SignedState, p: nat, L': seq<SignedState>)
    requires r.participants != [] && Tidy(r, L) && r.IsSupported(L)
    requires p < |L| && L[p].vars.turnNum == n.vars.turnNum
    requires p < |L'| && L'[..p] == L[..p] && L'[p] == n
    requires r.SupportEnd(L', 0) == p && r.Link(L', p)
    ensures SupportedTurn(r, L') >= SupportedTurn(r, L)
  {
    hide Rules.SupportEnd, Rules.RunStart, Rules.Missing, Rules.Supporting;
    var f := SupportedTurnAt(r, L);
    var f' := SupportedTurnAt(r, L');
    if f < p {
      LinkedConflictStart(r, L, n, p, f, f', L');
      hide IsFirst, Rules.MoverSigned, Rules.Link, SupportedTurn;
      assert L'[f'] == L'[..p][f'] == L[f'];
    } else {
      assert f' <= p;
      hide IsFirst, Rules.MoverSigned, Rules.Link, SupportedTurn;
      assert L[f].vars.turnNum <= n.vars.turnNum;
      assert f' < p ==> L'[f'] == L'[..p][f'] == L[f'];
    }
  }

  lemma MissingSingle(r: Rules, states: seq<SignedState>, k: nat)
    requires r.participants != [] && k < |states|
    ensures r.Missing(states, k, k + 1) == {} <==>
              r.MoverSigned(states[k]) && forall q :: q in r.participants ==> q in Signers(states[k])
  {
    var all := r.Missing(states, k, k);
    assert all == set q | q in r.participants;
    assert r.participants[0] in all;
    if r.MoverSigned(states[k]) {
      assert r.Missing(states, k, k + 1) == all - Signers(states[k]);
      if all - Signers(states[k]) == {} {
        forall q | q in r.participants ensures q in Signers(states[k]) {
          assert q !in all - Signers(states[k]);
        }
      }
    }
  }

  /** If n, signed by one participant only, is a support by itself, then every mover-signed state is. */
  lemma LoneConflictEnds(r: Rules, L: seq<SignedState>, n: SignedState, f: nat)
    requires Proper(r) && r.IsSupported(L) && IsFirst(r, L, f)
    requires |n.signatures| == 1 && forall q :: q in r.participants ==> q in Signers(n)
    ensures r.SupportEnd(L, 0) == f
  {
    var mover := r.mover(L[f].vars.turnNum);
    forall q | q in r.participants ensures q in Signers(L[f]) {
      assert q == n.signatures[0].signer == mover;
    }
    MissingSingle(r, L, f);
    MissingShrinks(r, L, f, f + 1, r.RunStart(L, f), f + 1);
    SupportEndLeast(r, L, 0, f);
  }

  lemma LoneConflictKeepsSupport(r: Rules, L: seq<SignedState>, n: SignedState, p: nat, L': seq<SignedState>)
    requires Proper(r) && Tidy(r, L) && r.IsSupported(L)
    requires p < |L| && L[p].vars.turnNum == n.vars.turnNum && |n.signatures| == 1
    requires L' == L[..p] + [n] + L[p..]
    requires r.IsSupported(L') && r.SupportEnd(L', 0) == p && !r.Link(L', p)
    ensures KeepsSupport(r, L, L')
  {
    var f := SupportedTurnAt(r, L);
    var f' := SupportedTurnAt(r, L');
    assert r.RunStart(L', p) == p == f' && L'[p] == n;
    assert forall q :: q in r.participants ==> q in Signers(n) by {
      SupportEndCovers(r, L', 0);
      MissingSingle(r, L', p);
    }
    assert f == |L| - 1 by {
      LoneConflictEnds(r, L, n, f);
    }
  }
}
