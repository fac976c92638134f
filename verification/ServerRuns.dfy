/** What successful calls of the server wallet do to a channel's support, and whole runs of them. */
module ServerRuns {
  import opened Lists
  import opened States
  import opened Support
  import opened StoredStates
  import opened Monotonicity
  import opened ServerStore

  // ----- the three ways in which a call can succeed -----

  lemma StoredList(r: Rules, me: Address, L: seq<SignedState>, s: SignedState, M: seq<SignedState>)
    requires Stores(r, me, L, s, M)
    ensures M == ClearOldStates(AddState(L, s), r.SupportOf(SortedStates(AddState(L, s))))
    ensures !DuplicateTurnNums(M)
  {
    hide AddState, Invariants, ClearOldStates, SortedStates, DuplicateTurnNums, Rules.SupportOf;
    InvariantsMean(M, me);
  }

  /** Where a new state goes in the order in which states are stored. */
  lemma NewOrder(L: seq<SignedState>, s: SignedState, p: nat, sorted: seq<SignedState>)
    requires Descending(L) && p <= |L| && FindHash(L, HashState(s.vars)) < 0
    requires forall k :: 0 <= k < p ==> L[k].vars.turnNum > s.vars.turnNum
    requires forall k :: p <= k < |L| ==> L[k].vars.turnNum <= s.vars.turnNum
    requires sorted == L[..p] + [s] + L[p..]
    ensures AddState(L, s) == L + [s] && NewestFirst(L + [s]) == sorted
    ensures DistinctHashes(sorted)
  {
    assert DistinctHashes(sorted) by {
      DescendingHashes(L);
      NewHash(L, s.vars);
      PlacedHashes(L, s, p);
    }
    NewestFirstOfPushed(L, s);
    PlacedThere(L, s, p);
  }

  /** The state is stored already: it gains signatures. */
  lemma StoredAgain(r: Rules, me: Address, L: seq<SignedState>, s: SignedState, M: seq<SignedState>, k: nat)
    returns (j: SignedState)
    requires Proper(r) && Descending(L) && Stores(r, me, L, s, M)
    requires k < |L| && FindHash(L, HashState(s.vars)) == k
    ensures j == L[k].(signatures := UniqueSignatures(L[k].signatures + s.signatures))
    ensures Descending(L[k := j]) && M == Cut(r, L[k := j])
  {
    hide Rules.SupportEnd, Rules.RunStart, Rules.Missing, Rules.Supporting;
    j := L[k].(signatures := UniqueSignatures(L[k].signatures + s.signatures));
    var added := L[k := j];
    SortedOfDescending(added);
    NewestFirstOfDescending(added);
    StoredCut(r, me, L, s, M, added);
  }

  /** The state is new, and so is its turn. */
  lemma StoredNew(r: Rules, me: Address, L: seq<SignedState>, s: SignedState, M: seq<SignedState>, p: nat,
                  sorted: seq<SignedState>)
    requires Proper(r) && Descending(L) && Stores(r, me, L, s, M)
    requires FindHash(L, HashState(s.vars)) < 0 && p <= |L|
    requires forall k :: 0 <= k < p ==> L[k].vars.turnNum > s.vars.turnNum
    requires forall k :: p <= k < |L| ==> L[k].vars.turnNum < s.vars.turnNum
    requires sorted == L[..p] + [s] + L[p..]
    ensures Descending(sorted) && M == Cut(r, sorted)
  {
    hide Rules.SupportEnd, Rules.RunStart, Rules.Missing, Rules.Supporting;
    var added := AddState(L, s);
    assert NewestFirst(added) == sorted && DistinctHashes(sorted) by {
      NewOrder(L, s, p, sorted);
    }
    assert SortedStates(added) == sorted by {
      SortedOfPushed(L, s, p);
    }
    PlacedStrictly(L, s, p, sorted);
    StoredCut(r, me, L, s, M, sorted);
  }

  lemma PlacedStrictly(L: seq<SignedState>, s: SignedState, p: nat, sorted: seq<SignedState>)
    requires Descending(L) && p <= |L|
    requires forall k :: 0 <= k < p ==> L[k].vars.turnNum > s.vars.turnNum
    requires forall k :: p <= k < |L| ==> L[k].vars.turnNum < s.vars.turnNum
    requires sorted == L[..p] + [s] + L[p..]
    ensures Descending(sorted)
  {
  }

  /** Where there are no ties, both orders are the same. */
  lemma StoredCut(r: Rules, me: Address, L: seq<SignedState>, s: SignedState, M: seq<SignedState>,
                  sorted: seq<SignedState>)
    requires r.participants != [] && Stores(r, me, L, s, M) && DistinctHashes(sorted)
    requires var added := AddState(L, s); NewestFirst(added) == SortedStates(added) == sorted
    ensures M == Cut(r, sorted)
  {
    hide Rules.SupportEnd, Rules.RunStart, Rules.Missing, Rules.Supporting;
    StoredList(r, me, L, s, M);
    ClearIsCut(r, AddState(L, s));
  }

  /** A conflict at p and p + 1: the support is computed with the new state second, and the list is cut
      with the new state first. */
  lemma ConflictPosition(L: seq<SignedState>, s: SignedState, p: nat, e: nat,
                         computed: seq<SignedState>, sorted: seq<SignedState>) returns (m: nat)
    requires p < |L| && e <= |L|
    requires computed == L[..p + 1] + [s] + L[p + 1..] && sorted == L[..p] + [s] + L[p..]
    ensures m == if e == p then p + 1 else if e == p + 1 then p else e
    ensures m < |sorted| && sorted[m] == computed[e]
  {
    m := if e == p then p + 1 else if e == p + 1 then p else e;
  }

  lemma ConflictCleared(r: Rules, computed: seq<SignedState>, sorted: seq<SignedState>, e: nat, m: nat)
    requires r.participants != [] && DistinctHashes(sorted)
    requires e == r.SupportEnd(computed, 0) < |computed| && m < |sorted| && sorted[m] == computed[e]
    ensures var support := r.SupportOf(computed);
            support != [] && UpTo(sorted, HashState(support[|support| - 1].vars)) == sorted[..m + 1]
  {
    hide Rules.SupportEnd, Rules.RunStart, Rules.Missing, Rules.Supporting;
    var f := SupportEnds(r, computed);
    FindHashAt(sorted, m);
  }

  /** The state is new, and another one with its turn is stored: the call succeeds only if the new
      state is signed by everybody, and then it replaces the other one and all older states. */
  lemma StoredConflict(r: Rules, me: Address, L: seq<SignedState>, s: SignedState, M: seq<SignedState>, p: nat)
    requires Proper(r) && Tidy(r, L) && Stores(r, me, L, s, M)
    requires FindHash(L, HashState(s.vars)) < 0 && p < |L| && L[p].vars.turnNum == s.vars.turnNum
    ensures M == L[..p] + [s]
    ensures r.MoverSigned(s) && forall q :: q in r.participants ==> q in Signers(s)
  {
    hide Rules.SupportEnd, Rules.RunStart, Rules.Missing, Rules.Supporting, Rules.SupportOf, Rules.MoverSigned;
    hide AddState, NewestFirst, SortedStates, FindHash, DuplicateTurnNums, Stores, DistinctHashes, Signers;
    var computed := L[..p + 1] + [s] + L[p + 1..];
    var sorted := L[..p] + [s] + L[p..];
    ConflictOrders(L, s, p, computed, sorted);
    StoredList(r, me, L, s, M);
    ConflictStored(r, L, s, M, p, computed, sorted);
    ConflictSigners(r, computed, p + 1);
  }

  /** Where a conflicting state goes in either order. */
  lemma ConflictOrders(L: seq<SignedState>, s: SignedState, p: nat, computed: seq<SignedState>,
                       sorted: seq<SignedState>)
    requires Descending(L) && FindHash(L, HashState(s.vars)) < 0 && p < |L| && L[p].vars.turnNum == s.vars.turnNum
    requires computed == L[..p + 1] + [s] + L[p + 1..] && sorted == L[..p] + [s] + L[p..]
    ensures NewestFirst(AddState(L, s)) == sorted && DistinctHashes(sorted)
    ensures SortedStates(AddState(L, s)) == computed
  {
    hide NewestFirst, SortedStates, FindHash, DistinctHashes, AddState;
    NewOrder(L, s, p, sorted);
    ConflictComputed(L, s, p);
  }

  lemma ConflictComputed(L: seq<SignedState>, s: SignedState, p: nat)
    requires Descending(L) && p < |L| && L[p].vars.turnNum == s.vars.turnNum
    ensures SortedStates(L + [s]) == L[..p + 1] + [s] + L[p + 1..]
  {
    hide SortedStates;
    SortedOfPushed(L, s, p + 1);
  }

  lemma ConflictSigners(r: Rules, computed: seq<SignedState>, k: nat)
    requires Proper(r) && k == r.SupportEnd(computed, 0) < |computed|
    requires k > 0 && computed[k - 1].vars.turnNum == computed[k].vars.turnNum
    ensures r.MoverSigned(computed[k]) && forall q :: q in r.participants ==> q in Signers(computed[k])
  {
    assert !r.Link(computed, k);
    SupportEndCovers(r, computed, 0);
    MissingSingle(r, computed, k);
  }

  lemma ConflictStored(r: Rules, L: seq<SignedState>, s: SignedState, M: seq<SignedState>, p: nat,
                       computed: seq<SignedState>, sorted: seq<SignedState>)
    requires r.participants != [] && Tidy(r, L) && p < |L| && L[p].vars.turnNum == s.vars.turnNum
    requires computed == L[..p + 1] + [s] + L[p + 1..] && sorted == L[..p] + [s] + L[p..]
    requires DistinctHashes(sorted) && !DuplicateTurnNums(M)
    requires var support := r.SupportOf(computed);
             M == if support == [] then sorted else UpTo(sorted, HashState(support[|support| - 1].vars))
    ensures M == L[..p] + [s] && r.SupportEnd(computed, 0) == p + 1 < |computed|
  {
    hide Rules.SupportEnd, Rules.RunStart, Rules.Missing, Rules.Supporting;
    hide FindHash, DuplicateTurnNums, HashState;
    var e := r.SupportEnd(computed, 0);
    assert computed[..p] == L[..p];
    NotAbove(r, L, computed, p);
    var m := |sorted| - 1;
    if e < |computed| {
      m := ConflictPosition(L, s, p, e, computed, sorted);
      ConflictCleared(r, computed, sorted, e, m);
    }
    assert M == sorted[..m + 1];
    if m > p {
      DuplicateInPrefix(sorted, p, |M|);
      assert false;
    }
  }

  /** After a successful conflict, the new state completes the support. */
  lemma ConflictSupport(r: Rules, L: seq<SignedState>, s: SignedState, p: nat, M: seq<SignedState>)
    requires Proper(r) && Tidy(r, L) && p < |L| && L[p].vars.turnNum == s.vars.turnNum
    requires M == L[..p] + [s]
    requires r.MoverSigned(s) && forall q :: q in r.participants ==> q in Signers(s)
    ensures r.IsSupported(M) && r.SupportEnd(M, 0) == p && Tidy(r, M)
  {
    MissingSingle(r, M, p);
    MissingShrinks(r, M, p, p + 1, r.RunStart(M, p), p + 1);
    SupportEndLeast(r, M, 0, p);
    NotAbove(r, L, M, p);
  }

  // ----- every successful call -----

  /** The stored state at p has the turn of s, and s does not lead up to the next newer stored state. */
  ghost predicate Undercuts(r: Rules, L: seq<SignedState>, s: SignedState, p: nat) {
    0 < p < |L| && L[p].vars.turnNum == s.vars.turnNum && !r.links(s.vars, L[p - 1].vars)
  }

  /** The new state conflicts with a stored one, older than the supported turn, and does not lead up to
      the stored state of the next turn. */
  ghost predicate RollsBack(r: Rules, L: seq<SignedState>, s: SignedState)
    requires r.participants != []
  {
    && r.IsSupported(L) && s.vars.turnNum < SupportedTurn(r, L)
    && FindHash(L, HashState(s.vars)) < 0
    && exists p :: Undercuts(r, L, s, p)
  }

  /** Position p is where a state of turn t goes. */
  lemma PositionOf(L: seq<SignedState>, t: nat) returns (p: nat)
    requires Descending(L)
    ensures p <= |L|
    ensures forall k :: 0 <= k < p ==> L[k].vars.turnNum > t
    ensures forall k :: p <= k < |L| ==> L[k].vars.turnNum <= t
    ensures p < |L| && L[p].vars.turnNum < t ==> forall k :: p <= k < |L| ==> L[k].vars.turnNum < t
  {
    p := 0;
    while p < |L| && L[p].vars.turnNum > t
      invariant p <= |L|
      invariant forall k :: 0 <= k < p ==> L[k].vars.turnNum > t
    {
      p := p + 1;
    }
  }

  lemma CutKeeps(r: Rules, L: seq<SignedState>, sorted: seq<SignedState>)
    requires r.participants != [] && Descending(sorted) && KeepsSupport(r, L, sorted)
    ensures Tidy(r, Cut(r, sorted)) && KeepsSupport(r, L, Cut(r, sorted))
  {
    hide Rules.SupportEnd, Rules.RunStart, Rules.Missing, Rules.Supporting;
    CutKeepsSupport(r, sorted);
  }

  lemma StoredAgainKeeps(r: Rules, recover: Recover, me: Address, L: seq<SignedState>, s: SignedState, M: seq<SignedState>)
    requires Proper(r) && Tidy(r, L) && Stores(r, me, L, s, M)
    requires Genuine(recover, L) && GenuineState(recover, s)
    requires FindHash(L, HashState(s.vars)) >= 0
    ensures Tidy(r, M) && KeepsSupport(r, L, M)
  {
    hide Rules.SupportEnd, Rules.RunStart, Rules.Missing, Rules.Supporting;
    var k := FindHash(L, HashState(s.vars));
    var j := StoredAgain(r, me, L, s, M, k);
    FindHashFinds(L, HashState(s.vars));
    JoinedSigners(recover, L[k], s);
    SignatureKeepsSupport(r, L, k, j);
    CutKeeps(r, L, L[k := j]);
  }

  lemma StoredNewKeeps(r: Rules, me: Address, L: seq<SignedState>, s: SignedState, M: seq<SignedState>, p: nat)
    requires Proper(r) && Tidy(r, L) && Stores(r, me, L, s, M)
    requires FindHash(L, HashState(s.vars)) < 0 && p <= |L|
    requires forall k :: 0 <= k < p ==> L[k].vars.turnNum > s.vars.turnNum
    requires forall k :: p <= k < |L| ==> L[k].vars.turnNum < s.vars.turnNum
    ensures Tidy(r, M) && KeepsSupport(r, L, M)
  {
    hide Stores, FindHash, Cut, HashState;
    hide Rules.SupportEnd, Rules.RunStart, Rules.Missing, Rules.Supporting;
    var sorted := L[..p] + [s] + L[p..];
    StoredNew(r, me, L, s, M, p, sorted);
    NewTurnKeepsSupport(r, L, s, p, sorted);
    CutKeeps(r, L, sorted);
  }

  /** If s does not link to the state above it, it is its own support. */
  lemma UnlinkedConflictTurn(r: Rules, s: SignedState, p: nat, M: seq<SignedState>)
    requires r.participants != [] && |M| == p + 1 && M[p] == s
    requires r.SupportEnd(M, 0) == p && !r.Link(M, p)
    ensures SupportedTurn(r, M) == s.vars.turnNum
  {
    var f := SupportedTurnAt(r, M);
    assert r.RunStart(M, p) == p == f;
  }

  lemma ConflictKeepsExactly(r: Rules, L: seq<SignedState>, s: SignedState, p: nat, M: seq<SignedState>)
    requires Proper(r) && Tidy(r, L) && p < |L| && L[p].vars.turnNum == s.vars.turnNum
    requires M == L[..p] + [s] && r.SupportEnd(M, 0) == p && r.IsSupported(L)
    ensures SupportedTurn(r, M) >= SupportedTurn(r, L) <==>
              !(s.vars.turnNum < SupportedTurn(r, L) && Undercuts(r, L, s, p))
  {
    if r.Link(M, p) {
      LinkedConflictKeepsSupport(r, L, s, p, M);
    } else {
      UnlinkedConflictTurn(r, s, p, M);
      var f := SupportedTurnAt(r, L);
      assert p == 0 ==> L[f].vars.turnNum <= L[p].vars.turnNum;
    }
  }

  lemma RollsBackAt(r: Rules, L: seq<SignedState>, s: SignedState, p: nat)
    requires r.participants != [] && Descending(L) && p < |L| && L[p].vars.turnNum == s.vars.turnNum
    requires r.IsSupported(L) && FindHash(L, HashState(s.vars)) < 0
    ensures RollsBack(r, L, s) <==>
              s.vars.turnNum < SupportedTurn(r, L) && Undercuts(r, L, s, p)
  {
    hide Rules.SupportEnd, Rules.RunStart, Rules.Missing, Rules.Supporting;
    assert forall q :: Undercuts(r, L, s, q) ==> q == p;
  }

  lemma StoredConflictKeepsExactly(r: Rules, me: Address, L: seq<SignedState>, s: SignedState, M: seq<SignedState>,
                                   p: nat)
    requires Proper(r) && Tidy(r, L) && Stores(r, me, L, s, M)
    requires FindHash(L, HashState(s.vars)) < 0 && p < |L| && L[p].vars.turnNum == s.vars.turnNum
    ensures Tidy(r, M) && r.IsSupported(M)
    ensures KeepsSupport(r, L, M) <==> !RollsBack(r, L, s)
  {
    hide Rules.SupportEnd, Rules.RunStart, Rules.Missing, Rules.Supporting;
    StoredConflict(r, me, L, s, M, p);
    ConflictSupport(r, L, s, p, M);
    if r.IsSupported(L) {
      ConflictKeepsExactly(r, L, s, p, M);
      RollsBackAt(r, L, s, p);
    }
  }

  /** A successful call keeps the list tidy and its support, unless it rolls the channel back. */
  lemma StoreKeepsSupportExactly(r: Rules, recover: Recover, me: Address, L: seq<SignedState>, s: SignedState,
                                 M: seq<SignedState>)
    requires Proper(r) && Tidy(r, L) && Stores(r, me, L, s, M)
    requires Genuine(recover, L) && GenuineState(recover, s)
    ensures Tidy(r, M) && (r.IsSupported(L) ==> r.IsSupported(M))
    ensures KeepsSupport(r, L, M) <==> !RollsBack(r, L, s)
  {
    hide Rules.SupportEnd, Rules.RunStart, Rules.Missing, Rules.Supporting;
    if FindHash(L, HashState(s.vars)) >= 0 {
      StoredAgainKeeps(r, recover, me, L, s, M);
    } else {
      var p := PositionOf(L, s.vars.turnNum);
      if p == |L| || L[p].vars.turnNum < s.vars.turnNum {
        StoredNewKeeps(r, me, L, s, M, p);
        assert forall q :: !Undercuts(r, L, s, q);
      } else {
        StoredConflictKeepsExactly(r, me, L, s, M, p);
      }
    }
  }

  // ----- whole runs -----

  /** A call adds a state that carries signatures of others, or signs one itself. */
  datatype Call =
    | AddSigned(vars: StateVars, signatures: seq<string>)
    | SignState(vars: StateVars, signature: string)

  function Signed(recover: Recover, vars: StateVars, signatures: seq<string>): SignedState {
    SignedState(vars, seq(|signatures|, i requires 0 <= i < |signatures| =>
                            SignatureEntry(signatures[i], recover(HashState(vars), signatures[i]))))
  }

  function StateOf(recover: Recover, call: Call): SignedState {
    match call
    case AddSigned(vars, signatures) => Signed(recover, vars, signatures)
    case SignState(vars, signature) => Signed(recover, vars, [signature])
  }

  /** A successful call; an own signature recovers to the signer's own address. */
  ghost predicate Succeeds(r: Rules, recover: Recover, me: Address, before: seq<SignedState>, call: Call,
                           after: seq<SignedState>)
  {
    && Stores(r, me, before, StateOf(recover, call), after)
    && (call.SignState? ==>
          && recover(HashState(call.vars), call.signature) == me
          && LatestSignedBy(before, me) < call.vars.turnNum)
  }

  ghost predicate Run(r: Rules, recover: Recover, me: Address, history: seq<seq<SignedState>>, calls: seq<Call>) {
    && |history| == |calls| + 1
    && forall i :: 0 < i < |history| ==> Succeeds(r, recover, me, history[i - 1], calls[i - 1], history[i])
  }

  ghost predicate Sound(r: Rules, recover: Recover, states: seq<SignedState>) {
    Tidy(r, states) && Genuine(recover, states)
  }

  lemma SignedIsGenuine(recover: Recover, vars: StateVars, signatures: seq<string>)
    ensures GenuineState(recover, Signed(recover, vars, signatures))
    ensures |signatures| == 1 ==>
              Signers(Signed(recover, vars, signatures)) == {recover(HashState(vars), signatures[0])}
  {
    var s := Signed(recover, vars, signatures);
    if |signatures| == 1 {
      assert s.signatures[0].signer == recover(HashState(vars), signatures[0]);
    }
  }

  lemma CutElements(r: Rules, states: seq<SignedState>)
    ensures forall s :: s in Cut(r, states) ==> s in states
  {
  }

  /** Every signature of p stays known to the highest turn, and none is made up. */
  lemma StoreRemembers(r: Rules, recover: Recover, me: Address, L: seq<SignedState>, s: SignedState, M: seq<SignedState>)
    requires Proper(r) && Sound(r, recover, L) && GenuineState(recover, s) && me in r.participants
    requires Stores(r, me, L, s, M)
    ensures Genuine(recover, M)
    ensures LatestSignedBy(M, me) == Max(LatestSignedBy(L, me), if me in Signers(s) then s.vars.turnNum else -1)
  {
    hide Stores, Rules.SupportEnd, Rules.SupportOf;
    var k := FindHash(L, HashState(s.vars));
    if k >= 0 {
      var j := StoredAgain(r, me, L, s, M, k);
      AgainRemembers(r, recover, me, L, s, M, k, j);
    } else {
      var p := PositionOf(L, s.vars.turnNum);
      if p == |L| || L[p].vars.turnNum < s.vars.turnNum {
        var sorted := L[..p] + [s] + L[p..];
        StoredNew(r, me, L, s, M, p, sorted);
        NewRemembers(r, recover, me, L, s, M, p, sorted);
      } else {
        StoredConflict(r, me, L, s, M, p);
        ConflictRemembers(recover, me, L, s, M, p);
      }
    }
  }

  function Max(a: int, b: int): int {
    if a < b then b else a
  }

  /** A stored state of turn t carries p's signature. */
  ghost predicate SignedAt(states: seq<SignedState>, p: Address, t: int) {
    exists x :: x in states && p in Signers(x) && x.vars.turnNum == t
  }

  /** If M shows what L shows of p above turn t, and p's signature at turn t (unless t is -1), and no other. */
  lemma LatestJoins(L: seq<SignedState>, M: seq<SignedState>, p: Address, t: int)
    requires WeaklyDescending(L) && WeaklyDescending(M) && t >= -1
    requires forall u :: SignedAt(M, p, u) ==> SignedAt(L, p, u) || u == t
    requires forall u :: SignedAt(L, p, u) && u > t ==> SignedAt(M, p, u)
    requires t >= 0 ==> SignedAt(M, p, t)
    ensures LatestSignedBy(M, p) == Max(LatestSignedBy(L, p), t)
  {
    LatestIsSigned(L, p);
    LatestIsSigned(M, p);
    hide SignedAt, LatestSignedBy, WeaklyDescending;
    var l, m := LatestSignedBy(L, p), LatestSignedBy(M, p);
    assert m >= 0 ==> SignedAt(M, p, m);
    assert l > t ==> SignedAt(L, p, l) && SignedAt(M, p, l);
  }

  lemma LatestIsSigned(states: seq<SignedState>, p: Address)
    requires WeaklyDescending(states)
    ensures forall u :: SignedAt(states, p, u) ==> u <= LatestSignedBy(states, p)
    ensures LatestSignedBy(states, p) >= 0 ==> SignedAt(states, p, LatestSignedBy(states, p))
  {
    LatestSignedIsHighest(states, p);
    hide LatestSignedBy;
  }

  lemma AgainRemembers(r: Rules, recover: Recover, me: Address, L: seq<SignedState>, s: SignedState, M: seq<SignedState>,
                       k: nat, j: SignedState)
    requires Sound(r, recover, L) && GenuineState(recover, s) && me in r.participants
    requires k < |L| && FindHash(L, HashState(s.vars)) == k
    requires j == L[k].(signatures := UniqueSignatures(L[k].signatures + s.signatures))
    requires Descending(L[k := j]) && M == Cut(r, L[k := j])
    ensures Genuine(recover, M)
    ensures LatestSignedBy(M, me) == Max(LatestSignedBy(L, me), if me in Signers(s) then s.vars.turnNum else -1)
  {
    hide Rules.SupportEnd, Rules.SupportOf, LatestSignedBy, UniqueSignatures, FindHash, Cut, SignedAt, Signers;
    var sorted := L[k := j];
    FindHashFinds(L, HashState(s.vars));
    assert GenuineState(recover, L[k]);
    JoinedSigners(recover, L[k], s);
    CutElements(r, sorted);
    CutRemembersSigner(r, sorted, me);
    hide GenuineState;
    forall u ensures SignedAt(sorted, me, u) <==> SignedAt(L, me, u) || (me in Signers(s) && u == s.vars.turnNum) {
      JoinedAt(L, k, j, s, me, u);
    }
    LatestJoins(L, sorted, me, if me in Signers(s) then s.vars.turnNum else -1);
  }

  /** What L with j in place of the state at k shows of p. */
  lemma JoinedAt(L: seq<SignedState>, k: nat, j: SignedState, s: SignedState, p: Address, u: int)
    requires k < |L| && j.vars == L[k].vars && s.vars.turnNum == j.vars.turnNum
    requires Signers(j) == Signers(L[k]) + Signers(s)
    ensures SignedAt(L[k := j], p, u) <==> SignedAt(L, p, u) || (p in Signers(s) && u == s.vars.turnNum)
  {
    hide Signers;
    var sorted := L[k := j];
    if x :| x in sorted && p in Signers(x) && x.vars.turnNum == u {
      var i :| 0 <= i < |sorted| && sorted[i] == x;
      assert L[i] in L;
    }
    if x :| x in L && p in Signers(x) && x.vars.turnNum == u {
      var i :| 0 <= i < |L| && L[i] == x;
      assert sorted[i] in sorted && p in Signers(sorted[i]);
    }
    assert sorted[k] in sorted;
  }

  lemma NewRemembers(r: Rules, recover: Recover, me: Address, L: seq<SignedState>, s: SignedState, M: seq<SignedState>,
                     p: nat, sorted: seq<SignedState>)
    requires Sound(r, recover, L) && GenuineState(recover, s) && me in r.participants && p <= |L|
    requires sorted == L[..p] + [s] + L[p..] && Descending(sorted) && M == Cut(r, sorted)
    ensures Genuine(recover, M)
    ensures LatestSignedBy(M, me) == Max(LatestSignedBy(L, me), if me in Signers(s) then s.vars.turnNum else -1)
  {
    hide Rules.SupportEnd, Rules.SupportOf, LatestSignedBy, Cut, Signers, GenuineState;
    assert forall x :: x in sorted <==> x in L || x == s by {
      assert L == L[..p] + L[p..];
    }
    CutElements(r, sorted);
    CutRemembersSigner(r, sorted, me);
    forall u ensures SignedAt(sorted, me, u) <==> SignedAt(L, me, u) || (me in Signers(s) && u == s.vars.turnNum) {}
    hide SignedAt;
    LatestJoins(L, sorted, me, if me in Signers(s) then s.vars.turnNum else -1);
  }

  lemma ConflictRemembers(recover: Recover, me: Address, L: seq<SignedState>, s: SignedState, M: seq<SignedState>, p: nat)
    requires Descending(L) && Genuine(recover, L) && GenuineState(recover, s) && me in Signers(s)
    requires p < |L| && L[p].vars.turnNum == s.vars.turnNum && M == L[..p] + [s]
    ensures Genuine(recover, M)
    ensures LatestSignedBy(M, me) == Max(LatestSignedBy(L, me), s.vars.turnNum)
  {
    hide LatestSignedBy, Signers, GenuineState;
    assert M[p] == s;
    forall x | x in M ensures x in L || x == s {}
    FrontDescends(L, s, M, p);
    forall u | SignedAt(L, me, u) && u > s.vars.turnNum ensures SignedAt(M, me, u) {
      var x :| x in L && me in Signers(x) && x.vars.turnNum == u;
      var i :| 0 <= i < |L| && L[i] == x;
      assert i < p && M[i] == x;
    }
    hide Descending;
    LatestJoins(L, M, me, s.vars.turnNum);
  }

  lemma FrontDescends(L: seq<SignedState>, s: SignedState, M: seq<SignedState>, p: nat)
    requires Descending(L) && p < |L| && L[p].vars.turnNum == s.vars.turnNum && M == L[..p] + [s]
    ensures WeaklyDescending(L) && WeaklyDescending(M)
  {
  }

  lemma CallMeans(r: Rules, recover: Recover, me: Address, states: seq<SignedState>, call: Call, after: seq<SignedState>)
    requires Proper(r) && Sound(r, recover, states) && me in r.participants
    requires Succeeds(r, recover, me, states, call, after)
    ensures Sound(r, recover, after)
    ensures LatestSignedBy(after, me) >= LatestSignedBy(states, me)
    ensures call.SignState? ==> LatestSignedBy(states, me) < call.vars.turnNum == LatestSignedBy(after, me)
    ensures KeepsSupport(r, states, after) <==> !RollsBack(r, states, StateOf(recover, call))
  {
    hide Stores;
    var s := StateOf(recover, call);
    SignedIsGenuine(recover, call.vars, if call.AddSigned? then call.signatures else [call.signature]);
    StoreRemembers(r, recover, me, states, s, after);
    StoreKeepsSupportExactly(r, recover, me, states, s, after);
  }

  lemma RunIsSound(r: Rules, recover: Recover, me: Address, history: seq<seq<SignedState>>, calls: seq<Call>, i: nat)
    requires Proper(r) && me in r.participants && Run(r, recover, me, history, calls)
    requires Sound(r, recover, history[0]) && i < |history|
    ensures Sound(r, recover, history[i])
  {
    hide Succeeds;
    forall k | 0 < k < |history| && Sound(r, recover, history[k - 1]) ensures Sound(r, recover, history[k]) {
      CallMeans(r, recover, me, history[k - 1], calls[k - 1], history[k]);
    }
    HoldsAllAlong(history, s => Sound(r, recover, s), i);
  }

  lemma SoundStep(r: Rules, recover: Recover, me: Address, history: seq<seq<SignedState>>, calls: seq<Call>, k: nat)
    requires Proper(r) && me in r.participants && Run(r, recover, me, history, calls)
    requires Sound(r, recover, history[0]) && 0 < k < |history|
    ensures Sound(r, recover, history[k - 1])
    ensures Succeeds(r, recover, me, history[k - 1], calls[k - 1], history[k])
  {
    RunIsSound(r, recover, me, history, calls, k - 1);
  }

  /** A run keeps the supported turn from decreasing exactly as long as no call rolls the channel back. */
  lemma SupportGoesBackOnlyByRollback(r: Rules, recover: Recover, me: Address, history: seq<seq<SignedState>>,
                                      calls: seq<Call>, i: nat, j: nat)
    requires Proper(r) && me in r.participants && Run(r, recover, me, history, calls)
    requires Sound(r, recover, history[0]) && i <= j < |history|
    requires forall k :: 0 <= k < |calls| ==> !RollsBack(r, history[k], StateOf(recover, calls[k]))
    ensures KeepsSupport(r, history[i], history[j])
  {
    hide Succeeds, RollsBack, StateOf;
    forall k | 0 < k < |history| ensures KeepsSupport(r, history[k - 1], history[k]) {
      SoundStep(r, recover, me, history, calls, k);
      CallMeans(r, recover, me, history[k - 1], calls[k - 1], history[k]);
    }
    HoldsAcross(history, (s, t) => KeepsSupport(r, s, t), i, j);
  }

  lemma RunRemembers(r: Rules, recover: Recover, me: Address, history: seq<seq<SignedState>>, calls: seq<Call>,
                     i: nat, j: nat)
    requires Proper(r) && me in r.participants && Run(r, recover, me, history, calls)
    requires Sound(r, recover, history[0]) && i <= j < |history|
    ensures LatestSignedBy(history[i], me) <= LatestSignedBy(history[j], me)
  {
    hide Succeeds;
    forall k | 0 < k < |history| ensures LatestSignedBy(history[k - 1], me) <= LatestSignedBy(history[k], me) {
      SoundStep(r, recover, me, history, calls, k);
      CallMeans(r, recover, me, history[k - 1], calls[k - 1], history[k]);
    }
    HoldsAcross(history, (s, t) => LatestSignedBy(s, me) <= LatestSignedBy(t, me), i, j);
  }

  /** In any run of successful calls, the turn numbers I sign strictly increase. */
  lemma SignedTurnsIncrease(r: Rules, recover: Recover, me: Address, history: seq<seq<SignedState>>, calls: seq<Call>,
                            i: nat, j: nat)
    requires Proper(r) && me in r.participants && Run(r, recover, me, history, calls)
    requires Sound(r, recover, history[0])
    requires i < j < |calls| && calls[i].SignState? && calls[j].SignState?
    ensures calls[i].vars.turnNum < calls[j].vars.turnNum
  {
    hide LatestSignedBy, Rules.SupportEnd, Rules.SupportOf, KeepsSupport, StateOf, RollsBack;
    hide Succeeds;
    SoundStep(r, recover, me, history, calls, i + 1);
    CallMeans(r, recover, me, history[i], calls[i], history[i + 1]);
    RunRemembers(r, recover, me, history, calls, i + 1, j);
    SoundStep(r, recover, me, history, calls, j + 1);
    CallMeans(r, recover, me, history[j], calls[j], history[j + 1]);
  }
}
