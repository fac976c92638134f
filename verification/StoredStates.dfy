/** The list of signed states that a wallet stores for a channel: its order, the signing history it
    shows, and what is cut away once a newer support is known. */
module StoredStates {
  import opened Lists
  import opened States
  import opened Support

  datatype StoreError =
    | StaleState | InvalidTransition | NotAParticipant | NotSignedByMe | NoSignature
    | WrongChain
    | MultipleSignedStates | DuplicateTurns | NotSorted

  datatype Result<+T> = Ok(value: T) | Err(error: StoreError)

  predicate OlderFirst(s: SignedState, t: SignedState) {
    s.vars.turnNum <= t.vars.turnNum
  }

  /** Sorted by turn, then reversed: the newest state first, ties in reverse order of arrival. */
  function NewestFirst(states: seq<SignedState>): seq<SignedState> {
    Reverse(StableSort(states, OlderFirst))
  }

  /** The first position with the given hash, -1 if there is none. */
  function FindHash(states: seq<SignedState>, h: StateHash): (k: int)
    ensures -1 <= k < |states|
  {
    if states == [] then -1
    else if HashState(states[0].vars) == h then 0
    else var k := FindHash(states[1..], h); if k < 0 then -1 else k + 1
  }

  lemma {:induction false} FindHashFinds(states: seq<SignedState>, h: StateHash)
    ensures var k := FindHash(states, h);
            && (k >= 0 ==> HashState(states[k].vars) == h)
            && forall i :: 0 <= i < (if k < 0 then |states| else k) ==> HashState(states[i].vars) != h
  {
    if states != [] && HashState(states[0].vars) != h {
      FindHashFinds(states[1..], h);
    }
  }

  /** A state with the given hash is stored. */
  ghost predicate Known(states: seq<SignedState>, h: StateHash) {
    exists s :: s in states && HashState(s.vars) == h
  }

  lemma FindHashKnown(states: seq<SignedState>, h: StateHash)
    ensures FindHash(states, h) >= 0 <==> Known(states, h)
  {
    FindHashFinds(states, h);
    var k := FindHash(states, h);
    if k >= 0 {
      assert states[k] in states;
    }
  }

  /** The states up to the first one with the given hash. */
  function UpTo(states: seq<SignedState>, h: StateHash): seq<SignedState> {
    states[..FindHash(states, h) + 1]
  }

  /** Newest first, and without the states older than the oldest one of a support. */
  function ClearOldStates(states: seq<SignedState>, support: seq<SignedState>): seq<SignedState> {
    var sorted := NewestFirst(states);
    if support == [] then sorted
    else UpTo(sorted, HashState(support[|support| - 1].vars))
  }

  /** The highest turn that p signed, as seen from the front of the list; -1 if there is none. */
  function LatestSignedBy(states: seq<SignedState>, p: Address): (t: int)
    ensures t >= -1
  {
    if states == [] then -1
    else if p in Signers(states[0]) then states[0].vars.turnNum
    else LatestSignedBy(states[1..], p)
  }

  predicate DuplicateTurnNums(states: seq<SignedState>) {
    exists i, j :: 0 <= i < j < |states| && states[i].vars.turnNum == states[j].vars.turnNum
  }

  /** p signed two stored states of one turn. */
  predicate MultipleSignedBy(states: seq<SignedState>, p: Address) {
    exists i, j :: 0 <= i < j < |states| && states[i].vars.turnNum == states[j].vars.turnNum
      && p in Signers(states[i]) && p in Signers(states[j])
  }

  ghost predicate Descending(states: seq<SignedState>) {
    forall i, j :: 0 <= i < j < |states| ==> states[i].vars.turnNum > states[j].vars.turnNum
  }

  ghost predicate WeaklyDescending(states: seq<SignedState>) {
    forall i, j :: 0 <= i < j < |states| ==> states[i].vars.turnNum >= states[j].vars.turnNum
  }

  ghost predicate DistinctHashes(states: seq<SignedState>) {
    forall i, j :: 0 <= i < j < |states| ==> HashState(states[i].vars) != HashState(states[j].vars)
  }

  /** The rules name movers among the participants and link consecutive turns only. */
  ghost predicate Proper(r: Rules) {
    && r.participants != []
    && (forall t :: r.mover(t) in r.participants)
    && (forall x, y :: r.links(x, y) ==> x.turnNum + 1 == y.turnNum)
  }

  /** What every successful call keeps: strictly descending turns, and no state below the support. */
  ghost predicate Tidy(r: Rules, states: seq<SignedState>) {
    Descending(states) && (r.IsSupported(states) ==> r.SupportEnd(states, 0) == |states| - 1)
  }

  /** The newest supporting state. */
  ghost function SupportedState(r: Rules, states: seq<SignedState>): SignedState
    requires r.participants != [] && r.IsSupported(states)
  {
    SupportNonEmpty(r, states);
    r.SupportOf(states)[0]
  }

  /** The turn of the newest supporting state. */
  ghost function SupportedTurn(r: Rules, states: seq<SignedState>): nat
    requires r.participants != [] && r.IsSupported(states)
  {
    SupportNonEmpty(r, states);
    r.SupportOf(states)[0].vars.turnNum
  }

  lemma SupportNonEmpty(r: Rules, states: seq<SignedState>)
    requires r.participants != [] && r.IsSupported(states)
    ensures r.SupportOf(states) != []
  {
    hide Rules.SupportEnd, Rules.RunStart, Rules.Missing, Rules.Supporting;
    var f := SupportEnds(r, states);
  }

  /** A channel supported before is supported after, at the same turn or a later one. */
  ghost predicate KeepsSupport(r: Rules, before: seq<SignedState>, after: seq<SignedState>)
    requires r.participants != []
  {
    r.IsSupported(before) ==> r.IsSupported(after) && SupportedTurn(r, after) >= SupportedTurn(r, before)
  }

  // ----- order -----

  /** states with n placed before the states of its own turn, behind the newer ones. */
  function Placed(states: seq<SignedState>, n: SignedState): seq<SignedState> {
    if states == [] || states[0].vars.turnNum <= n.vars.turnNum then [n] + states
    else [states[0]] + Placed(states[1..], n)
  }

  lemma {:induction false} SortDescending(states: seq<SignedState>)
    requires Descending(states)
    ensures StableSort(states, OlderFirst) == Reverse(states)
  {
    if states != [] {
      var init, last := states[..|states| - 1], states[|states| - 1];
      SortDescending(init);
      InsertAtFront(last, Reverse(init), OlderFirst);
    }
  }

  lemma {:induction false} ReverseTwice<T>(xs: seq<T>)
    ensures Reverse(Reverse(xs)) == xs
  {
    forall i | 0 <= i < |xs| ensures Reverse(Reverse(xs))[i] == xs[i] {}
  }

  lemma NewestFirstOfDescending(states: seq<SignedState>)
    requires Descending(states)
    ensures NewestFirst(states) == states
  {
    SortDescending(states);
    ReverseTwice(states);
  }

  lemma ReverseLast(states: seq<SignedState>)
    requires states != []
    ensures Reverse(states) == Reverse(states[1..]) + [states[0]]
  {
  }

  lemma InsertAfter(n: SignedState, init: seq<SignedState>, last: SignedState)
    ensures Insert(n, init + [last], OlderFirst)
            == if OlderFirst(last, n) then init + [last] + [n] else Insert(n, init, OlderFirst) + [last]
  {
    var all := init + [last];
    assert all[..|all| - 1] == init;
  }

  lemma {:induction false} InsertReversed(states: seq<SignedState>, n: SignedState)
    ensures Reverse(Insert(n, Reverse(states), OlderFirst)) == Placed(states, n)
  {
    if states == [] {
    } else {
      ReverseLast(states);
      var init := Reverse(states[1..]);
      InsertAfter(n, init, states[0]);
      if states[0].vars.turnNum <= n.vars.turnNum {
        assert Reverse(Reverse(states) + [n]) == [n] + states;
      } else {
        hide Insert;
        InsertReversed(states[1..], n);
        var ys := Insert(n, init, OlderFirst);
        assert Reverse(ys + [states[0]]) == [states[0]] + Reverse(ys);
      }
    }
  }

  /** Sorting after a new state has been pushed puts it in its place. */
  lemma NewestFirstOfPushed(states: seq<SignedState>, n: SignedState)
    requires Descending(states)
    ensures NewestFirst(states + [n]) == Placed(states, n)
  {
    var all := states + [n];
    assert all[..|all| - 1] == states;
    SortDescending(states);
    InsertReversed(states, n);
  }

  lemma NewestFirstElements(states: seq<SignedState>)
    ensures forall s :: s in NewestFirst(states) <==> s in states
  {
    SortElements(states, OlderFirst);
    ReverseElements(StableSort(states, OlderFirst));
  }

  lemma ReverseElements(xs: seq<SignedState>)
    ensures forall s :: s in Reverse(xs) <==> s in xs
  {
    forall s ensures s in Reverse(xs) <==> s in xs {
      if s in xs {
        var i :| 0 <= i < |xs| && xs[i] == s;
        assert Reverse(xs)[|xs| - 1 - i] == s;
      }
    }
  }

  lemma {:induction false} PlacedThere(states: seq<SignedState>, n: SignedState, p: nat)
    requires p <= |states|
    requires forall k :: 0 <= k < p ==> states[k].vars.turnNum > n.vars.turnNum
    requires forall k :: p <= k < |states| ==> states[k].vars.turnNum <= n.vars.turnNum
    ensures Placed(states, n) == states[..p] + [n] + states[p..]
  {
    if p > 0 {
      PlacedThere(states[1..], n, p - 1);
      assert states[..p] == [states[0]] + states[1..][..p - 1];
      assert states[p..] == states[1..][p - 1..];
    }
  }

  /** Behind the newer states of a descending list. */
  lemma {:induction false} InsertionPoint(states: seq<SignedState>, n: SignedState) returns (p: nat)
    requires Descending(states)
    ensures p <= |states|
    ensures forall k :: 0 <= k < p ==> states[k].vars.turnNum > n.vars.turnNum
    ensures forall k :: p <= k < |states| ==> states[k].vars.turnNum <= n.vars.turnNum
    ensures forall k :: p < k < |states| ==> states[k].vars.turnNum < n.vars.turnNum
  {
    if states == [] || states[0].vars.turnNum <= n.vars.turnNum {
      p := 0;
    } else {
      var q := InsertionPoint(states[1..], n);
      p := q + 1;
      forall k | p <= k < |states|
        ensures states[k].vars.turnNum <= n.vars.turnNum && (p < k ==> states[k].vars.turnNum < n.vars.turnNum)
      {
        assert states[1..][k - 1] == states[k];
      }
    }
  }

  lemma PlacedAt(states: seq<SignedState>, n: SignedState) returns (p: nat)
    requires Descending(states)
    ensures p <= |states| && Placed(states, n) == states[..p] + [n] + states[p..]
    ensures forall k :: 0 <= k < p ==> states[k].vars.turnNum > n.vars.turnNum
    ensures forall k :: p <= k < |states| ==> states[k].vars.turnNum <= n.vars.turnNum
    ensures forall k :: p < k < |states| ==> states[k].vars.turnNum < n.vars.turnNum
  {
    p := InsertionPoint(states, n);
    PlacedThere(states, n, p);
  }

  // ----- hashes -----

  lemma NewHash(states: seq<SignedState>, vars: StateVars)
    requires FindHash(states, HashState(vars)) < 0
    ensures forall k :: 0 <= k < |states| ==> HashState(states[k].vars) != HashState(vars)
  {
    FindHashFinds(states, HashState(vars));
  }

  lemma OnTopIsNewest(states: seq<SignedState>, n: SignedState, stacked: seq<SignedState>)
    requires stacked == [n] + states && Descending(stacked)
    ensures Descending(states) && forall k :: 0 <= k < |states| ==> states[k].vars.turnNum < n.vars.turnNum
  {
    assert states == stacked[1..] && stacked[0] == n;
  }

  lemma OnTopIsNew(states: seq<SignedState>, n: SignedState)
    requires forall k :: 0 <= k < |states| ==> states[k].vars.turnNum < n.vars.turnNum
    ensures FindHash(states, HashState(n.vars)) < 0
  {
    FindHashFinds(states, HashState(n.vars));
  }

  lemma PlacedHashes(states: seq<SignedState>, n: SignedState, p: nat)
    requires p <= |states| && DistinctHashes(states)
    requires forall k :: 0 <= k < |states| ==> HashState(states[k].vars) != HashState(n.vars)
    ensures DistinctHashes(states[..p] + [n] + states[p..])
  {
  }

  // ----- clean-up -----

  /** The states down to the oldest one of the support; all of them if there is no support. */
  function Cut(r: Rules, states: seq<SignedState>): seq<SignedState> {
    if r.IsSupported(states) then states[..r.SupportEnd(states, 0) + 1] else states
  }

  lemma FindHashAt(states: seq<SignedState>, k: nat)
    requires DistinctHashes(states) && k < |states|
    ensures FindHash(states, HashState(states[k].vars)) == k
  {
    FindHashFinds(states, HashState(states[k].vars));
  }

  /** Looking for the hash of the oldest supporting state finds the cut. */
  lemma FindSupportEnd(r: Rules, states: seq<SignedState>)
    requires r.participants != [] && DistinctHashes(states)
    ensures var support := r.SupportOf(states);
            Cut(r, states) == if support == [] then states
                              else UpTo(states, HashState(support[|support| - 1].vars))
  {
    hide Rules.SupportEnd, Rules.RunStart, Rules.Missing, Rules.Supporting;
    if r.IsSupported(states) {
      var f := SupportEnds(r, states);
      FindHashAt(states, r.SupportEnd(states, 0));
    }
  }

  /** The computed support survives the cut unchanged, and cutting again changes nothing. */
  lemma CutKeepsSupport(r: Rules, states: seq<SignedState>)
    ensures r.SupportOf(Cut(r, states)) == r.SupportOf(states)
    ensures r.IsSupported(Cut(r, states)) == r.IsSupported(states)
    ensures r.IsSupported(states) ==> r.SupportEnd(Cut(r, states), 0) == |Cut(r, states)| - 1
    ensures Cut(r, Cut(r, states)) == Cut(r, states)
  {
    hide Rules.SupportEnd, Rules.RunStart, Rules.Missing, Rules.Supporting;
    if r.IsSupported(states) {
      SupportAgrees(r, states, Cut(r, states));
    }
  }

  lemma DescendingHashes(states: seq<SignedState>)
    requires Descending(states)
    ensures DistinctHashes(states)
  {
  }

  lemma ClearIsCut(r: Rules, states: seq<SignedState>)
    requires r.participants != [] && DistinctHashes(NewestFirst(states))
    ensures var sorted := NewestFirst(states); ClearOldStates(states, r.SupportOf(sorted)) == Cut(r, sorted)
  {
    hide Rules.SupportEnd, Rules.RunStart, Rules.Missing, Rules.Supporting;
    FindSupportEnd(r, NewestFirst(states));
  }

  /** What clean-up does to a list with distinct hashes: it leaves a prefix of the sorted list that ends at
      the oldest supporting state, and it keeps the support. */
  lemma ClearOldStatesMeans(r: Rules, states: seq<SignedState>, sorted: seq<SignedState>, cleared: seq<SignedState>)
    requires r.participants != []
    requires sorted == NewestFirst(states) && DistinctHashes(sorted)
    requires cleared == ClearOldStates(states, r.SupportOf(sorted))
    ensures cleared <= sorted && WeaklyDescending(cleared)
    ensures r.SupportOf(cleared) == r.SupportOf(sorted)
    ensures !DuplicateTurnNums(cleared) ==> Tidy(r, cleared)
    ensures if r.IsSupported(sorted) then
              var support := r.SupportOf(sorted);
              cleared != [] && support != [] && cleared[|cleared| - 1] == support[|support| - 1]
            else
              cleared == sorted
  {
    hide Rules.SupportOf, ClearOldStates, NewestFirst, DuplicateTurnNums, UpTo;
    hide Rules.SupportEnd, Rules.RunStart, Rules.Missing, Rules.Supporting;
    NewestFirstDescends(states);
    ClearIsCut(r, states);
    CutKeepsSupport(r, sorted);
    DistinctTurnsDescend(cleared);
    if r.IsSupported(sorted) {
      var f := SupportEnds(r, sorted);
    }
  }

  lemma NewestFirstDescends(states: seq<SignedState>)
    ensures WeaklyDescending(NewestFirst(states))
  {
    OlderFirstIsTotal();
    SortIsSorted(states, OlderFirst);
    var xs := StableSort(states, OlderFirst);
    forall i, j | 0 <= i < j < |xs| ensures Reverse(xs)[i].vars.turnNum >= Reverse(xs)[j].vars.turnNum {
      assert OlderFirst(xs[|xs| - 1 - j], xs[|xs| - 1 - i]);
    }
  }

  lemma OlderFirstIsTotal()
    ensures TotalPreorder(OlderFirst)
  {
  }

  lemma DistinctTurnsDescend(states: seq<SignedState>)
    requires WeaklyDescending(states)
    ensures !DuplicateTurnNums(states) <==> Descending(states)
  {
    if !DuplicateTurnNums(states) {
      forall i, j | 0 <= i < j < |states| ensures states[i].vars.turnNum > states[j].vars.turnNum {
        assert states[i].vars.turnNum != states[j].vars.turnNum;
      }
    }
  }

  /** States of one turn change places whenever they are sorted. */
  lemma TiesFlip(states: seq<SignedState>, i: nat, j: nat)
    requires i < j < |states| && states[i].vars.turnNum == states[j].vars.turnNum && DistinctHashes(states)
    ensures NewestFirst(states) != states
  {
    hide Reverse, StableSort;
    SortKeepsOrder(states, OlderFirst, i, j);
    ReverseTurnsBefore(StableSort(states, OlderFirst), states[i], states[j]);
    NotBefore(states, i, j);
  }

  lemma NotBefore(states: seq<SignedState>, i: nat, j: nat)
    requires i < j < |states| && DistinctHashes(states)
    ensures !Before(states, states[j], states[i])
  {
  }

  /** Cleaning up a second time changes nothing exactly if what the first time left has distinct turns. */
  lemma ClearOldStatesTwice(r: Rules, states: seq<SignedState>, cleared: seq<SignedState>)
    requires r.participants != [] && DistinctHashes(NewestFirst(states))
    requires cleared == ClearOldStates(states, r.SupportOf(NewestFirst(states)))
    ensures ClearOldStates(cleared, r.SupportOf(NewestFirst(cleared))) == cleared <==> !DuplicateTurnNums(cleared)
  {
    hide Rules.SupportEnd, Rules.RunStart, Rules.Missing, Rules.Supporting, NewestFirst;
    var sorted := NewestFirst(states);
    ClearOldStatesMeans(r, states, sorted, cleared);
    if DuplicateTurnNums(cleared) {
      var i, j :| 0 <= i < j < |cleared| && cleared[i].vars.turnNum == cleared[j].vars.turnNum;
      assert DistinctHashes(cleared);
      TiesFlip(cleared, i, j);
      ClearedPrefix(cleared, r.SupportOf(NewestFirst(cleared)));
    } else {
      DistinctTurnsDescend(cleared);
      NewestFirstOfDescending(cleared);
      DescendingHashes(cleared);
      ClearIsCut(r, states);
      CutKeepsSupport(r, sorted);
      ClearIsCut(r, cleared);
    }
  }

  /** If clean-up leaves all states, it leaves the sorted list. */
  lemma ClearedPrefix(states: seq<SignedState>, support: seq<SignedState>)
    ensures ClearOldStates(states, support) == states ==> NewestFirst(states) == states
  {
    hide FindHash;
    SortMultiset(states, OlderFirst);
  }

  // ----- what clean-up leaves besides the support -----

  lemma {:induction false} SupportingLength(r: Rules, states: seq<SignedState>, a: nat, b: nat)
    requires a <= b <= |states|
    ensures |r.Supporting(states, a, b)| <= b - a
    ensures |r.Supporting(states, a, b)| == b - a <==> forall k :: a <= k < b ==> r.MoverSigned(states[k])
    ensures |r.Supporting(states, a, b)| == b - a ==> r.Supporting(states, a, b) == states[a..b]
  {
    hide Rules.MoverSigned;
    if a < b {
      SupportingLength(r, states, a, b - 1);
      assert states[a..b] == states[a..b - 1] + [states[b - 1]];
    }
  }

  lemma {:induction false} RunFromStart(r: Rules, states: seq<SignedState>, e: nat)
    requires e < |states|
    ensures r.RunStart(states, e) == 0 <==> forall k :: 0 < k <= e ==> r.Link(states, k)
  {
    RunStartLinked(r, states, e);
    if forall k :: 0 < k <= e ==> r.Link(states, k) {
      RunStartLeast(r, states, 0, e);
    }
  }

  /** Clean-up leaves nothing but the support exactly if the states down to the oldest supporting one are one
      unbroken run, all signed by their movers. */
  lemma ClearLeavesSupportExactly(r: Rules, states: seq<SignedState>, sorted: seq<SignedState>,
                                  cleared: seq<SignedState>)
    requires r.participants != [] && sorted == NewestFirst(states) && DistinctHashes(sorted)
    requires cleared == ClearOldStates(states, r.SupportOf(sorted)) && r.IsSupported(sorted)
    ensures cleared == r.SupportOf(sorted)
            <==> forall k :: 0 <= k <= r.SupportEnd(sorted, 0) ==>
                   r.MoverSigned(sorted[k]) && (k > 0 ==> r.Link(sorted, k))
  {
    hide Rules.SupportEnd, Rules.RunStart, Rules.Supporting, Rules.Missing, NewestFirst, Rules.MoverSigned, Rules.Link;
    hide ClearOldStates, DistinctHashes;
    ClearIsCut(r, states);
    var e := r.SupportEnd(sorted, 0);
    var a := r.RunStart(sorted, e);
    SupportingLength(r, sorted, a, e + 1);
    RunFromStart(r, sorted, e);
    assert cleared == sorted[..e + 1];
  }

  // ----- signing history -----

  lemma {:induction false} LatestSignedIsHighest(states: seq<SignedState>, p: Address)
    requires WeaklyDescending(states)
    ensures forall s :: s in states && p in Signers(s) ==> s.vars.turnNum <= LatestSignedBy(states, p)
    ensures LatestSignedBy(states, p) >= 0 ==>
              exists s :: s in states && p in Signers(s) && s.vars.turnNum == LatestSignedBy(states, p)
  {
    if states != [] {
      if p in Signers(states[0]) {
        assert states[0] in states;
      } else {
        LatestSignedIsHighest(states[1..], p);
        assert states == [states[0]] + states[1..];
      }
    }
  }

  lemma {:induction false} LatestSignedInPrefix(states: seq<SignedState>, p: Address, m: nat, k: nat)
    requires k < m <= |states| && p in Signers(states[k])
    ensures LatestSignedBy(states[..m], p) == LatestSignedBy(states, p)
  {
    if p !in Signers(states[0]) {
      assert states[..m][1..] == states[1..][..m - 1];
      LatestSignedInPrefix(states[1..], p, m - 1, k - 1);
    }
  }

  /** A supported list holds, down to its support's end, a signature of every participant. */
  lemma SignedWithinSupport(r: Rules, states: seq<SignedState>, p: Address) returns (k: nat)
    requires r.IsSupported(states) && p in r.participants
    ensures k <= r.SupportEnd(states, 0) && r.RunStart(states, r.SupportEnd(states, 0)) <= k
    ensures r.MoverSigned(states[k]) && p in Signers(states[k])
  {
    hide Rules.SupportEnd, Rules.RunStart, Rules.Missing, Rules.Supporting;
    var e := r.SupportEnd(states, 0);
    SupportIsCovering(r, states);
    assert r.Endorsed(states, r.RunStart(states, e), e + 1, p);
    k :| r.RunStart(states, e) <= k < e + 1 && r.Endorses(states, k, p);
  }

  /** Clean-up never forgets the highest turn a participant has signed: every support holds one of
      the participant's signatures. */
  lemma CutRemembersSigner(r: Rules, states: seq<SignedState>, p: Address)
    requires p in r.participants
    ensures LatestSignedBy(Cut(r, states), p) == LatestSignedBy(states, p)
  {
    hide Rules.SupportEnd, Rules.RunStart, Rules.Missing, Rules.Supporting;
    if r.IsSupported(states) {
      var k := SignedWithinSupport(r, states, p);
      LatestSignedInPrefix(states, p, r.SupportEnd(states, 0) + 1, k);
    }
  }

  // ----- checks after every change -----

  function Invariants(states: seq<SignedState>, me: Address): Result<()> {
    if MultipleSignedBy(states, me) then Err(MultipleSignedStates)
    else if DuplicateTurnNums(states) then Err(DuplicateTurns)
    else if exists i, j :: 0 <= i < j < |states| && states[i].vars.turnNum < states[j].vars.turnNum then Err(NotSorted)
    else Ok(())
  }

  lemma InvariantsMean(states: seq<SignedState>, me: Address)
    requires Invariants(states, me).Ok?
    ensures !DuplicateTurnNums(states)
  {
  }

  ghost predicate HasSigned(s: SignedState, p: Address) {
    exists x :: x in s.signatures && x.signer == p
  }

  /** Two stored states of one turn carry a signature of p. */
  ghost predicate SignsTwice(states: seq<SignedState>, p: Address) {
    exists i, j :: 0 <= i < j < |states| && states[i].vars.turnNum == states[j].vars.turnNum
      && HasSigned(states[i], p) && HasSigned(states[j], p)
  }

  /** Exactly strictly descending turns pass; the error says what is wrong, own signatures first. */
  ghost predicate Judges(states: seq<SignedState>, me: Address, result: Result<()>) {
    && (result.Ok? <==> Descending(states))
    && (result == Err(MultipleSignedStates) <==> SignsTwice(states, me))
    && (result == Err(DuplicateTurns)
        <==> !SignsTwice(states, me)
             && exists i, j :: 0 <= i < j < |states| && states[i].vars.turnNum == states[j].vars.turnNum)
    && (result.Err? ==> result.error in {MultipleSignedStates, DuplicateTurns, NotSorted})
  }

  lemma SignersOfEntries(s: SignedState, p: Address)
    ensures p in Signers(s) <==> HasSigned(s, p)
  {
    if p in Signers(s) {
      var i :| 0 <= i < |s.signatures| && s.signatures[i].signer == p;
      assert s.signatures[i] in s.signatures;
    }
  }

  lemma SignsTwiceMeans(states: seq<SignedState>, me: Address)
    ensures MultipleSignedBy(states, me) <==> SignsTwice(states, me)
  {
    hide Signers, HasSigned;
    forall k | 0 <= k < |states| ensures me in Signers(states[k]) <==> HasSigned(states[k], me) {
      SignersOfEntries(states[k], me);
    }
  }

  lemma InvariantsJudge(states: seq<SignedState>, me: Address)
    ensures Judges(states, me, Invariants(states, me))
  {
    hide MultipleSignedBy, SignsTwice;
    SignsTwiceMeans(states, me);
    if SignsTwice(states, me) {
      TwiceIsDuplicate(states, me);
    }
  }

  lemma TwiceIsDuplicate(states: seq<SignedState>, me: Address)
    requires SignsTwice(states, me)
    ensures exists i, j :: 0 <= i < j < |states| && states[i].vars.turnNum == states[j].vars.turnNum
  {
  }

  /** No element is smaller than the one behind it. */
  method IsReverseSorted(arr: seq<nat>) returns (sorted: bool)
    ensures sorted <==> forall i, j :: 0 <= i < j < |arr| ==> arr[i] >= arr[j]
  {
    var len := |arr| - 1;
    var i := 0;
    while i < len
      invariant 0 <= i && (i <= len || i == 0)
      invariant forall k, l :: 0 <= k < l <= i && l < |arr| ==> arr[k] >= arr[l]
    {
      if arr[i] < arr[i + 1] {
        return false;
      }
      i := i + 1;
    }
    return true;
  }

  method ValidateInvariants(states: seq<SignedState>, me: Address) returns (result: Result<()>)
    ensures result == Invariants(states, me) && Judges(states, me, result)
  {
    hide Judges;
    InvariantsJudge(states, me);
    if MultipleSignedBy(states, me) {
      return Err(MultipleSignedStates);
    }
    if DuplicateTurnNums(states) {
      return Err(DuplicateTurns);
    }
    var turnNums: seq<nat> := seq(|states|, i requires 0 <= i < |states| => states[i].vars.turnNum);
    var sorted := IsReverseSorted(turnNums);
    forall i, j | 0 <= i < j < |states|
      ensures states[i].vars.turnNum < states[j].vars.turnNum <==> turnNums[i] < turnNums[j] {}
    if !sorted {
      return Err(NotSorted);
    }
    return Ok(());
  }
}
