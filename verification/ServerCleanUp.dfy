/** The server wallet's clean-up of lists with two states of one turn: it computes the support from one order of
    them, and cuts the list in the other. */
module ServerCleanUp {
  import opened Lists
  import opened States
  import opened Support
  import opened StoredStates
  import opened ServerStore

  ghost predicate SameElements(xs: seq<SignedState>, ys: seq<SignedState>) {
    forall s :: s in xs <==> s in ys
  }

  lemma {:induction false} DescendingUnique(xs: seq<SignedState>, ys: seq<SignedState>)
    requires Descending(xs) && Descending(ys) && SameElements(xs, ys)
    ensures xs == ys
  {
    if xs == [] {
      if ys != [] {
        NeitherIsEmpty(xs, ys);
        assert false;
      }
    } else {
      SameHead(xs, ys);
      forall s ensures s in xs[1..] <==> s in ys[1..] {
        InRest(xs, s);
        InRest(ys, s);
      }
      DescendingUnique(xs[1..], ys[1..]);
      assert xs == [xs[0]] + xs[1..] && ys == [ys[0]] + ys[1..];
    }
  }

  lemma NeitherIsEmpty(xs: seq<SignedState>, ys: seq<SignedState>)
    requires SameElements(xs, ys) && ys != []
    ensures xs != []
  {
    assert ys[0] in xs;
  }

  lemma SameHead(xs: seq<SignedState>, ys: seq<SignedState>)
    requires Descending(xs) && Descending(ys) && SameElements(xs, ys) && xs != []
    ensures ys != [] && ys[0] == xs[0]
  {
    assert xs[0] in ys;
    var i :| 0 <= i < |ys| && ys[i] == xs[0];
    assert ys[0] in xs;
    var j :| 0 <= j < |xs| && xs[j] == ys[0];
  }

  lemma InRest(xs: seq<SignedState>, s: SignedState)
    requires Descending(xs) && xs != []
    ensures s in xs[1..] <==> s in xs && s != xs[0]
  {
    assert xs == [xs[0]] + xs[1..];
  }

  // ----- both orders -----

  lemma NewerFirstIsTotal()
    ensures TotalPreorder(NewerFirst)
  {
  }

  lemma SortedStatesDescend(states: seq<SignedState>)
    ensures WeaklyDescending(SortedStates(states)) && forall s :: s in SortedStates(states) <==> s in states
  {
    NewerFirstIsTotal();
    SortIsSorted(states, NewerFirst);
    SortElements(states, NewerFirst);
    var xs := SortedStates(states);
    forall i, j | 0 <= i < j < |xs| ensures xs[i].vars.turnNum >= xs[j].vars.turnNum {
      assert NewerFirst(xs[i], xs[j]);
    }
  }

  lemma SortKeepsHashes(states: seq<SignedState>, leq: (SignedState, SignedState) -> bool)
    requires DistinctHashes(states)
    ensures DistinctHashes(StableSort(states, leq))
  {
    SortNoDuplicates(states, leq);
    SortElements(states, leq);
    var xs := StableSort(states, leq);
    hide StableSort;
    forall i, j | 0 <= i < j < |xs| ensures HashState(xs[i].vars) != HashState(xs[j].vars) {
      assert xs[i] in states && xs[j] in states;
      var k :| 0 <= k < |states| && states[k] == xs[i];
      var l :| 0 <= l < |states| && states[l] == xs[j];
      assert k != l;
    }
  }

  lemma NewestFirstKeepsHashes(states: seq<SignedState>)
    requires DistinctHashes(states)
    ensures DistinctHashes(NewestFirst(states))
  {
    SortKeepsHashes(states, OlderFirst);
    hide StableSort;
    var xs := StableSort(states, OlderFirst);
    forall i, j | 0 <= i < j < |xs| ensures HashState(Reverse(xs)[i].vars) != HashState(Reverse(xs)[j].vars) {
      assert HashState(xs[|xs| - 1 - j].vars) != HashState(xs[|xs| - 1 - i].vars);
    }
  }

  // ----- one support, two orders -----

  /** The first position with a turn of at most t. */
  lemma FirstAtMost(states: seq<SignedState>, t: nat, e: nat) returns (c: nat)
    requires WeaklyDescending(states) && e < |states| && states[e].vars.turnNum == t
    ensures c <= e
    ensures forall k :: 0 <= k < c ==> states[k].vars.turnNum > t
    ensures forall k :: c <= k < |states| ==> states[k].vars.turnNum <= t
    ensures forall k :: c <= k <= e ==> states[k].vars.turnNum == t
  {
    c := 0;
    while states[c].vars.turnNum > t
      invariant c <= e && forall k :: 0 <= k < c ==> states[k].vars.turnNum > t
      decreases e - c
    {
      c := c + 1;
    }
  }

  /** Two sorted lists of the same states agree on those newer than x, if these have distinct turns in one. */
  lemma FrontAlike(sorted: seq<SignedState>, computed: seq<SignedState>, m: nat, e: nat)
    requires WeaklyDescending(sorted) && WeaklyDescending(computed) && DistinctHashes(computed)
    requires SameElements(sorted, computed)
    requires m < |sorted| && e < |computed| && sorted[m] == computed[e] && Descending(sorted[..m + 1])
    ensures m <= e && computed[..m] == sorted[..m]
    ensures forall k :: m <= k <= e ==> computed[k].vars.turnNum == sorted[m].vars.turnNum
  {
    var t := sorted[m].vars.turnNum;
    var c := FirstAtMost(computed, t, e);
    var front, newer := sorted[..m], computed[..c];
    assert sorted[..m + 1][m] == sorted[m] && forall i :: 0 <= i < m ==> sorted[..m + 1][i] == front[i];
    assert Descending(front) && forall i :: 0 <= i < m ==> front[i].vars.turnNum > t;
    forall s ensures s in newer <==> s in front {
      NewerAre(sorted, m, t, s);
      NewerAre(computed, c, t, s);
    }
    NewerDescend(front, newer, computed);
    DescendingUnique(front, newer);
  }

  lemma NewerAre(states: seq<SignedState>, c: nat, t: nat, s: SignedState)
    requires c <= |states|
    requires forall k :: 0 <= k < c ==> states[k].vars.turnNum > t
    requires forall k :: c <= k < |states| ==> states[k].vars.turnNum <= t
    ensures s in states[..c] <==> s in states && s.vars.turnNum > t
  {
    assert states == states[..c] + states[c..];
  }

  lemma NewerDescend(front: seq<SignedState>, newer: seq<SignedState>, computed: seq<SignedState>)
    requires Descending(front) && SameElements(newer, front)
    requires newer <= computed && WeaklyDescending(computed) && DistinctHashes(computed)
    ensures Descending(newer)
  {
    forall i, j | 0 <= i < j < |newer| ensures newer[i].vars.turnNum > newer[j].vars.turnNum {
      assert newer[i] == computed[i] && newer[j] == computed[j];
      assert newer[i] in front && newer[j] in front;
      var k :| 0 <= k < |front| && front[k] == newer[i];
      var l :| 0 <= l < |front| && front[l] == newer[j];
      assert k != l;
    }
  }

  /** The support computed in one order ends at x; the list cut behind x in the other order ends its support. */
  lemma CutInOtherOrder(r: Rules, computed: seq<SignedState>, cleared: seq<SignedState>, e: nat, m: nat)
    requires Proper(r) && r.SupportEnd(computed, 0) == e < |computed|
    requires m <= e && |cleared| == m + 1 && cleared[..m] == computed[..m] && cleared[m] == computed[e]
    requires forall k :: m <= k <= e ==> computed[k].vars.turnNum == cleared[m].vars.turnNum
    ensures r.SupportEnd(cleared, 0) == m
  {
    hide Rules.SupportEnd, Rules.RunStart, Rules.Missing, Rules.Supporting;
    if e == m {
      assert computed[..m + 1] == cleared[..m + 1];
      SupportAgrees(r, computed, cleared);
    } else {
      assert !r.Link(computed, e);
      LoneSupport(r, computed, e, cleared, m);
      var e' := r.SupportEnd(cleared, 0);
      if e' < m {
        assert cleared[..e' + 1] == cleared[..m][..e' + 1] && computed[..e' + 1] == computed[..m][..e' + 1];
        SupportAgrees(r, cleared, computed);
      }
    }
  }

  /** A state that is a support by itself ends one wherever it stands. */
  lemma LoneSupport(r: Rules, computed: seq<SignedState>, e: nat, cleared: seq<SignedState>, m: nat)
    requires r.SupportEnd(computed, 0) == e < |computed| && !r.Link(computed, e)
    requires m < |cleared| && cleared[m] == computed[e]
    ensures r.SupportEnd(cleared, 0) <= m
  {
    hide Rules.SupportEnd;
    SupportEndCovers(r, computed, 0);
    assert r.RunStart(computed, e) == e;
    assert r.Missing(computed, e, e) == r.Missing(cleared, m, m);
    assert r.Missing(cleared, m, m + 1) == r.Missing(computed, e, e + 1);
    hide Rules.RunStart, Rules.Missing, Rules.MoverSigned, Rules.Link;
    MissingShrinks(r, cleared, m, m + 1, r.RunStart(cleared, m), m + 1);
    SupportEndLeast(r, cleared, 0, m);
  }

  /** Whatever is stored: if clean-up leaves distinct turns, it leaves a tidy list. */
  lemma ClearedIsTidy(r: Rules, states: seq<SignedState>, cleared: seq<SignedState>)
    requires Proper(r) && DistinctHashes(states)
    requires cleared == ClearOldStates(states, r.SupportOf(SortedStates(states)))
    ensures !DuplicateTurnNums(cleared) ==> Tidy(r, cleared)
  {
    hide Rules.SupportEnd, Rules.RunStart, Rules.Missing, Rules.Supporting, NewestFirst, SortedStates;
    var sorted, computed := NewestFirst(states), SortedStates(states);
    BothOrders(states);
    if !DuplicateTurnNums(cleared) {
      if r.IsSupported(computed) {
        ClearedSupported(r, sorted, computed, cleared);
      } else {
        DistinctTurnsDescend(sorted);
        DistinctTurnsDescend(computed);
        SameOrder(sorted, computed);
      }
    }
  }

  lemma BothOrders(states: seq<SignedState>)
    requires DistinctHashes(states)
    ensures var sorted, computed := NewestFirst(states), SortedStates(states);
            && WeaklyDescending(sorted) && WeaklyDescending(computed)
            && DistinctHashes(sorted) && DistinctHashes(computed) && SameElements(sorted, computed)
  {
    hide NewestFirst;
    NewestFirstDescends(states);
    SortedStatesDescend(states);
    NewestFirstElements(states);
    NewestFirstKeepsHashes(states);
    SortKeepsHashes(states, NewerFirst);
  }

  lemma SameOrder(sorted: seq<SignedState>, computed: seq<SignedState>)
    requires Descending(sorted) && WeaklyDescending(computed) && DistinctHashes(computed)
    requires SameElements(sorted, computed)
    ensures computed == sorted
  {
    NewerDescend(sorted, computed, computed);
    DescendingUnique(sorted, computed);
  }

  lemma ClearedSupported(r: Rules, sorted: seq<SignedState>, computed: seq<SignedState>, cleared: seq<SignedState>)
    requires Proper(r) && WeaklyDescending(sorted) && WeaklyDescending(computed)
    requires DistinctHashes(sorted) && DistinctHashes(computed) && SameElements(sorted, computed)
    requires r.IsSupported(computed) && !DuplicateTurnNums(cleared)
    requires var support := r.SupportOf(computed);
             cleared == if support == [] then sorted else UpTo(sorted, HashState(support[|support| - 1].vars))
    ensures Tidy(r, cleared)
  {
    hide Rules.SupportEnd, Rules.RunStart, Rules.Missing, Rules.Supporting, Rules.SupportOf;
    var f := SupportEnds(r, computed);
    var e := r.SupportEnd(computed, 0);
    var m := PlaceOf(sorted, computed, e);
    FindHashAt(sorted, m);
    CutDistinct(r, sorted, computed, cleared, m, e);
  }

  lemma PlaceOf(sorted: seq<SignedState>, computed: seq<SignedState>, e: nat) returns (m: nat)
    requires SameElements(sorted, computed) && e < |computed|
    ensures m < |sorted| && sorted[m] == computed[e]
  {
    assert computed[e] in sorted;
    m :| 0 <= m < |sorted| && sorted[m] == computed[e];
  }

  lemma CutDistinct(r: Rules, sorted: seq<SignedState>, computed: seq<SignedState>, cleared: seq<SignedState>,
                    m: nat, e: nat)
    requires Proper(r) && WeaklyDescending(sorted) && WeaklyDescending(computed)
    requires DistinctHashes(computed) && SameElements(sorted, computed)
    requires r.SupportEnd(computed, 0) == e < |computed| && m < |sorted| && sorted[m] == computed[e]
    requires cleared == sorted[..m + 1] && !DuplicateTurnNums(cleared)
    ensures Tidy(r, cleared)
  {
    hide Rules.SupportEnd, DuplicateTurnNums, DistinctHashes, SameElements, Proper;
    DistinctTurnsDescend(cleared);
    FrontAlike(sorted, computed, m, e);
    assert cleared[..m] == sorted[..m] && cleared[m] == sorted[m];
    hide WeaklyDescending;
    CutInOtherOrder(r, computed, cleared, e, m);
  }

  /** In the server wallet, too, cleaning up a second time changes nothing exactly if what the first time left
      has distinct turns. */
  lemma ClearTwice(r: Rules, states: seq<SignedState>, cleared: seq<SignedState>)
    requires Proper(r) && DistinctHashes(states)
    requires cleared == ClearOldStates(states, r.SupportOf(SortedStates(states)))
    ensures ClearOldStates(cleared, r.SupportOf(SortedStates(cleared))) == cleared <==> !DuplicateTurnNums(cleared)
  {
    hide Rules.SupportOf, NewestFirst, SortedStates;
    if DuplicateTurnNums(cleared) {
      var i, j :| 0 <= i < j < |cleared| && cleared[i].vars.turnNum == cleared[j].vars.turnNum;
      NewestFirstKeepsHashes(states);
      assert DistinctHashes(cleared);
      TiesFlip(cleared, i, j);
      ClearedPrefix(cleared, r.SupportOf(SortedStates(cleared)));
    } else {
      ClearedIsTidy(r, states, cleared);
      TidyIsClean(r, cleared);
    }
  }

  // ----- what clean-up leaves besides the support -----

  lemma LinkDescends(r: Rules, states: seq<SignedState>, k: nat)
    requires Proper(r) && 0 < k < |states|
    ensures r.Link(states, k) ==> states[k - 1].vars.turnNum == states[k].vars.turnNum + 1
  {
  }

  /** The mover-signed states of a linked run have strictly descending turns. */
  lemma {:induction false} SupportingDescend(r: Rules, states: seq<SignedState>, a: nat, b: nat)
    requires Proper(r) && b <= |states| && r.Linked(states, a, b)
    ensures Descending(r.Supporting(states, a, b))
    ensures forall s :: s in r.Supporting(states, a, b) ==> a < b && s.vars.turnNum >= states[b - 1].vars.turnNum
  {
    hide Rules.MoverSigned, Rules.Link;
    if a < b {
      SupportingDescend(r, states, a, b - 1);
      if a < b - 1 {
        assert r.Link(states, b - 1);
        LinkDescends(r, states, b - 1);
      }
      var newer := r.Supporting(states, a, b - 1);
      assert r.Supporting(states, a, b) == newer || r.Supporting(states, a, b) == newer + [states[b - 1]];
      hide Rules.Supporting;
      assert forall s :: s in newer ==> s.vars.turnNum > states[b - 1].vars.turnNum;
    }
  }

  lemma SupportDescends(r: Rules, states: seq<SignedState>, e: nat)
    requires Proper(r) && r.SupportEnd(states, 0) == e < |states|
    ensures Descending(r.SupportOf(states))
  {
    hide Rules.SupportEnd, Rules.RunStart, Rules.Supporting, Rules.MoverSigned, Rules.Link;
    RunStartLinked(r, states, e);
    SupportingDescend(r, states, r.RunStart(states, e), e + 1);
  }

  /** In the server wallet, clean-up leaves nothing but the support exactly if it leaves one state, or the oldest
      supporting state stands at the same place in both orders, below an unbroken run of mover-signed states. */
  lemma ClearLeavesSupportExactly(r: Rules, states: seq<SignedState>, sorted: seq<SignedState>,
                                  computed: seq<SignedState>, m: nat, cleared: seq<SignedState>)
    requires Proper(r) && DistinctHashes(states) && r.IsSupported(computed)
    requires sorted == NewestFirst(states) && computed == SortedStates(states)
    requires m < |sorted| && sorted[m] == computed[r.SupportEnd(computed, 0)]
    requires cleared == ClearOldStates(states, r.SupportOf(computed))
    ensures cleared == r.SupportOf(computed)
            <==> m == 0 || (r.SupportEnd(computed, 0) == m
                            && forall k :: 0 <= k <= m ==>
                                 r.MoverSigned(sorted[k]) && (k > 0 ==> r.Link(sorted, k)))
  {
    hide Rules.SupportEnd, Rules.RunStart, Rules.Missing, Rules.Supporting, NewestFirst, SortedStates;
    hide Rules.SupportOf, Rules.MoverSigned, Rules.Link;
    BothOrders(states);
    var f := SupportEnds(r, computed);
    var e := r.SupportEnd(computed, 0);
    FindHashAt(sorted, m);
    assert cleared == sorted[..m + 1];
    hide ClearOldStates;
    if m == 0 {
      OneIsLeft(r, sorted, computed, e);
    } else if cleared == r.SupportOf(computed) {
      SupportIsRun(r, sorted, computed, e, m);
    } else if e == m && forall k :: 0 <= k <= m ==> r.MoverSigned(sorted[k]) && (k > 0 ==> r.Link(sorted, k)) {
      RunIsSupport(r, sorted, computed, m);
      assert false;
    }
  }

  lemma LoneRun(r: Rules, states: seq<SignedState>, e: nat)
    requires r.participants != [] && r.SupportEnd(states, 0) == e < |states| && !r.Link(states, e)
    ensures r.SupportOf(states) == [states[e]]
  {
    hide Rules.SupportEnd;
    OldestIsSigned(r, states);
    assert r.Supporting(states, e, e + 1) == r.Supporting(states, e, e) + [states[e]];
  }

  lemma OneIsLeft(r: Rules, sorted: seq<SignedState>, computed: seq<SignedState>, e: nat)
    requires Proper(r) && WeaklyDescending(sorted) && WeaklyDescending(computed) && SameElements(sorted, computed)
    requires r.SupportEnd(computed, 0) == e < |computed| && sorted != [] && sorted[0] == computed[e]
    ensures r.SupportOf(computed) == sorted[..1]
  {
    hide Rules.SupportEnd, Rules.SupportOf;
    forall k | 0 <= k < |computed| ensures computed[k].vars.turnNum <= computed[e].vars.turnNum {
      assert computed[k] in sorted;
    }
    assert !r.Link(computed, e);
    LoneRun(r, computed, e);
  }

  lemma SupportIsRun(r: Rules, sorted: seq<SignedState>, computed: seq<SignedState>, e: nat, m: nat)
    requires Proper(r) && WeaklyDescending(sorted) && WeaklyDescending(computed) && SameElements(sorted, computed)
    requires DistinctHashes(computed) && r.SupportEnd(computed, 0) == e < |computed|
    requires r.participants != []
    requires 0 < m < |sorted| && sorted[m] == computed[e] && sorted[..m + 1] == r.SupportOf(computed)
    ensures e == m && forall k :: 0 <= k <= m ==> r.MoverSigned(sorted[k]) && (k > 0 ==> r.Link(sorted, k))
  {
    hide *;
    SupportDescends(r, computed, e);
    FrontAlike(sorted, computed, m, e);
    if e > m {
      LinkDescends(r, computed, e);
      LoneRun(r, computed, e);
      assert false;
    }
    LongSupport(r, computed, m);
    SameFront(r, sorted, computed, m);
  }

  lemma LongSupport(r: Rules, states: seq<SignedState>, m: nat)
    requires r.SupportEnd(states, 0) == m < |states| && |r.SupportOf(states)| == m + 1
    ensures forall k :: 0 <= k <= m ==> r.MoverSigned(states[k]) && (k > 0 ==> r.Link(states, k))
  {
    hide Rules.SupportEnd, Rules.RunStart, Rules.Supporting, Rules.MoverSigned, Rules.Link;
    SupportingLength(r, states, r.RunStart(states, m), m + 1);
    RunFromStart(r, states, m);
  }

  lemma SameFront(r: Rules, sorted: seq<SignedState>, computed: seq<SignedState>, m: nat)
    requires m < |sorted| && m < |computed| && sorted[..m] == computed[..m] && sorted[m] == computed[m]
    ensures sorted[..m + 1] == computed[..m + 1]
    ensures forall k :: 0 <= k <= m ==> sorted[k] == computed[k]
    ensures forall k :: 0 < k <= m ==> (r.Link(sorted, k) <==> r.Link(computed, k))
  {
    forall k | 0 <= k <= m ensures sorted[k] == computed[k] {
      assert k < m ==> sorted[..m][k] == computed[..m][k];
    }
  }

  lemma RunIsSupport(r: Rules, sorted: seq<SignedState>, computed: seq<SignedState>, m: nat)
    requires Proper(r) && WeaklyDescending(sorted) && WeaklyDescending(computed) && SameElements(sorted, computed)
    requires DistinctHashes(computed) && r.SupportEnd(computed, 0) == m < |computed|
    requires m < |sorted| && sorted[m] == computed[m]
    requires forall k :: 0 <= k <= m ==> r.MoverSigned(sorted[k]) && (k > 0 ==> r.Link(sorted, k))
    ensures r.SupportOf(computed) == sorted[..m + 1]
  {
    hide *;
    LinkedDescend(r, sorted, m);
    FrontAlike(sorted, computed, m, m);
    SameFront(r, sorted, computed, m);
    WholeRun(r, computed, m);
  }

  lemma WholeRun(r: Rules, states: seq<SignedState>, m: nat)
    requires r.SupportEnd(states, 0) == m < |states|
    requires forall k :: 0 <= k <= m ==> r.MoverSigned(states[k]) && (k > 0 ==> r.Link(states, k))
    ensures r.SupportOf(states) == states[..m + 1]
  {
    hide Rules.SupportEnd, Rules.RunStart, Rules.Supporting, Rules.MoverSigned, Rules.Link;
    RunFromStart(r, states, m);
    SupportingLength(r, states, 0, m + 1);
  }

  lemma LinkedDescend(r: Rules, states: seq<SignedState>, m: nat)
    requires Proper(r) && m < |states| && WeaklyDescending(states)
    requires forall k :: 0 < k <= m ==> r.Link(states, k)
    ensures Descending(states[..m + 1])
  {
    forall i, j | 0 <= i < j <= m ensures states[i].vars.turnNum > states[j].vars.turnNum {
      LinkDescends(r, states, j);
      assert r.Link(states, j) && states[i].vars.turnNum >= states[j - 1].vars.turnNum;
    }
  }
}
