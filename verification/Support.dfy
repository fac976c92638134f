/** The support of a channel: which stored states prove that all participants agreed to a turn.
    Stored states are listed newest first. Everything here holds for any transition check. */
module Support {
  import opened States

  /** The participant whose turn it is. */
  function MoverAt(participants: seq<Address>, turnNum: nat): Address
    requires participants != []
  {
    participants[turnNum % |participants|]
  }

  /** Who takes part, who moves at a turn, and which state may follow which. */
  datatype Rules = Rules(participants: seq<Address>, mover: nat -> Address, links: (StateVars, StateVars) -> bool) {

    predicate MoverSigned(s: SignedState) {
      mover(s.vars.turnNum) in Signers(s)
    }

    /** The state at position k may be followed by the next newer one. */
    predicate Link(states: seq<SignedState>, k: nat) {
      0 < k < |states| && links(states[k].vars, states[k - 1].vars)
    }

    // ----- the support as it is computed -----

    /** The newest state of the longest unbroken run that goes back to position i. */
    function RunStart(states: seq<SignedState>, i: nat): (a: nat)
      requires i < |states|
      ensures a <= i
    {
      if i == 0 || !Link(states, i) then i else RunStart(states, i - 1)
    }

    /** The participants whose signatures the mover-signed states from a to b - 1 lack. */
    function Missing(states: seq<SignedState>, a: nat, b: nat): set<Address>
      requires b <= |states|
    {
      if b <= a then set p | p in participants
      else if MoverSigned(states[b - 1]) then Missing(states, a, b - 1) - Signers(states[b - 1])
      else Missing(states, a, b - 1)
    }

    /** The first position at or after i that completes a run which lacks nobody; |states| if there is none. */
    function SupportEnd(states: seq<SignedState>, i: nat): (e: nat)
      requires i <= |states|
      ensures i <= e <= |states|
      decreases |states| - i
    {
      if i == |states| then i
      else if Missing(states, RunStart(states, i), i + 1) == {} then i
      else SupportEnd(states, i + 1)
    }

    /** The mover-signed states from position a to b - 1. */
    function Supporting(states: seq<SignedState>, a: nat, b: nat): seq<SignedState>
      requires b <= |states|
    {
      if b <= a then []
      else Supporting(states, a, b - 1) + if MoverSigned(states[b - 1]) then [states[b - 1]] else []
    }

    function SupportOf(states: seq<SignedState>): seq<SignedState> {
      var e := SupportEnd(states, 0);
      if e == |states| then [] else Supporting(states, RunStart(states, e), e + 1)
    }

    predicate IsSupported(states: seq<SignedState>) {
      SupportEnd(states, 0) < |states|
    }

    // ----- what a support is, said without computing it -----

    /** The states at positions a (newest) to b - 1 (oldest) form an unbroken run. */
    ghost predicate Linked(states: seq<SignedState>, a: nat, b: nat) {
      forall k :: a < k < b ==> Link(states, k)
    }

    /** p signed the state at k, and so did its mover. */
    ghost predicate Endorses(states: seq<SignedState>, k: nat, p: Address) {
      k < |states| && MoverSigned(states[k]) && p in Signers(states[k])
    }

    ghost predicate Endorsed(states: seq<SignedState>, a: nat, b: nat, p: Address) {
      exists k :: a <= k < b && Endorses(states, k, p)
    }

    /** An unbroken run whose mover-signed states carry signatures of all participants. */
    ghost predicate CoveringRun(states: seq<SignedState>, a: nat, b: nat) {
      && a < b <= |states|
      && Linked(states, a, b)
      && forall p :: p in participants ==> Endorsed(states, a, b, p)
    }
  }

  lemma {:induction false} MissingMeans(r: Rules, states: seq<SignedState>, a: nat, b: nat, p: Address)
    requires b <= |states|
    ensures p in r.Missing(states, a, b) <==> p in r.participants && !r.Endorsed(states, a, b, p)
  {
    if a < b {
      MissingMeans(r, states, a, b - 1, p);
      if r.Endorsed(states, a, b - 1, p) {
        var k :| a <= k < b - 1 && r.Endorses(states, k, p);
        assert r.Endorsed(states, a, b, p);
      }
      if r.Endorses(states, b - 1, p) {
        assert r.Endorsed(states, a, b, p);
      }
    }
  }

  /** A longer run lacks no more participants. */
  lemma MissingShrinks(r: Rules, states: seq<SignedState>, a: nat, b: nat, a': nat, b': nat)
    requires a' <= a && b <= b' <= |states|
    ensures r.Missing(states, a', b') <= r.Missing(states, a, b)
  {
    forall p | p in r.Missing(states, a', b') ensures p in r.Missing(states, a, b) {
      MissingMeans(r, states, a', b', p);
      MissingMeans(r, states, a, b, p);
      assert r.Endorsed(states, a, b, p) ==> r.Endorsed(states, a', b', p);
    }
  }

  lemma CoveringRunMissesNone(r: Rules, states: seq<SignedState>, a: nat, b: nat)
    requires a < b <= |states| && r.Linked(states, a, b)
    ensures r.CoveringRun(states, a, b) <==> r.Missing(states, a, b) == {}
  {
    forall p ensures p in r.Missing(states, a, b) <==> p in r.participants && !r.Endorsed(states, a, b, p) {
      MissingMeans(r, states, a, b, p);
    }
  }

  lemma {:induction false} RunStartMonotone(r: Rules, states: seq<SignedState>, i: nat, j: nat)
    requires i <= j < |states|
    ensures r.RunStart(states, i) <= r.RunStart(states, j)
  {
    if i < j {
      RunStartMonotone(r, states, i, j - 1);
    }
  }

  lemma {:induction false} RunStartLinked(r: Rules, states: seq<SignedState>, i: nat)
    requires i < |states|
    ensures r.Linked(states, r.RunStart(states, i), i + 1)
  {
    if i > 0 && r.Link(states, i) {
      RunStartLinked(r, states, i - 1);
    }
  }

  /** No unbroken run that goes back to i starts before RunStart. */
  lemma {:induction false} RunStartLeast(r: Rules, states: seq<SignedState>, a: nat, i: nat)
    requires a <= i < |states| && r.Linked(states, a, i + 1)
    ensures r.RunStart(states, i) <= a
  {
    if a < i {
      assert r.Link(states, i);
      RunStartLeast(r, states, a, i - 1);
    }
  }

  lemma {:induction false} SupportEndCovers(r: Rules, states: seq<SignedState>, i: nat)
    requires i <= |states|
    ensures var e := r.SupportEnd(states, i); e < |states| ==> r.Missing(states, r.RunStart(states, e), e + 1) == {}
    decreases |states| - i
  {
    if i < |states| && r.Missing(states, r.RunStart(states, i), i + 1) != {} {
      SupportEndCovers(r, states, i + 1);
    }
  }

  lemma {:induction false} SupportEndLeast(r: Rules, states: seq<SignedState>, i: nat, j: nat)
    requires i <= j < |states| && r.Missing(states, r.RunStart(states, j), j + 1) == {}
    ensures r.SupportEnd(states, i) <= j
    decreases j - i
  {
    if i < j && r.Missing(states, r.RunStart(states, i), i + 1) != {} {
      SupportEndLeast(r, states, i + 1, j);
    }
  }

  /** The support ends with a state that its mover signed: an unsigned one would add nothing. */
  lemma OldestIsSigned(r: Rules, states: seq<SignedState>)
    requires r.participants != [] && r.IsSupported(states)
    ensures r.MoverSigned(states[r.SupportEnd(states, 0)])
  {
    var e := r.SupportEnd(states, 0);
    var a := r.RunStart(states, e);
    SupportEndCovers(r, states, 0);
    if !r.MoverSigned(states[e]) {
      assert r.participants[0] !in r.Missing(states, a, e);
      SupportEndLeast(r, states, 0, e - 1);
      assert false;
    }
  }

  /** Position f holds the newest supporting state. */
  ghost predicate IsFirst(r: Rules, states: seq<SignedState>, f: nat) {
    && r.IsSupported(states)
    && r.RunStart(states, r.SupportEnd(states, 0)) <= f <= r.SupportEnd(states, 0)
    && r.MoverSigned(states[f])
    && forall k :: r.RunStart(states, r.SupportEnd(states, 0)) <= k < f ==> !r.MoverSigned(states[k])
  }

  lemma {:induction false} SupportingEnds(r: Rules, states: seq<SignedState>, a: nat, b: nat) returns (f: nat)
    requires a < b <= |states| && r.MoverSigned(states[b - 1])
    ensures a <= f < b && r.MoverSigned(states[f])
    ensures forall k :: a <= k < f ==> !r.MoverSigned(states[k])
    ensures var run := r.Supporting(states, a, b);
            run != [] && run[0] == states[f] && run[|run| - 1] == states[b - 1]
  {
    var c := b - 1;
    while a < c && !r.MoverSigned(states[c - 1])
      invariant a <= c < b
      invariant r.Supporting(states, a, b) == r.Supporting(states, a, c) + [states[b - 1]]
      invariant forall k :: c <= k < b - 1 ==> !r.MoverSigned(states[k])
    {
      c := c - 1;
    }
    if a == c {
      f := b - 1;
    } else {
      f := SupportingEnds(r, states, a, c);
    }
  }

  /** The newest and the oldest supporting state. */
  lemma SupportEnds(r: Rules, states: seq<SignedState>) returns (f: nat)
    requires r.participants != [] && r.IsSupported(states)
    ensures IsFirst(r, states, f)
    ensures var support := r.SupportOf(states);
            && support != [] && support[0] == states[f]
            && support[|support| - 1] == states[r.SupportEnd(states, 0)]
  {
    var e := r.SupportEnd(states, 0);
    OldestIsSigned(r, states);
    f := SupportingEnds(r, states, r.RunStart(states, e), e + 1);
  }

  /** Every covering run ends at or after the support's end and starts at or after the support's start. */
  lemma CoveringRunAfter(r: Rules, states: seq<SignedState>, a: nat, b: nat)
    requires r.CoveringRun(states, a, b)
    ensures var e := r.SupportEnd(states, 0); e < b && r.RunStart(states, e) <= a
  {
    RunStartLeast(r, states, a, b - 1);
    CoveringRunMissesNone(r, states, a, b);
    MissingShrinks(r, states, a, b, r.RunStart(states, b - 1), b);
    SupportEndLeast(r, states, 0, b - 1);
    RunStartMonotone(r, states, r.SupportEnd(states, 0), b - 1);
  }

  lemma SupportIsCovering(r: Rules, states: seq<SignedState>)
    requires r.IsSupported(states)
    ensures var e := r.SupportEnd(states, 0); r.CoveringRun(states, r.RunStart(states, e), e + 1)
  {
    var e := r.SupportEnd(states, 0);
    RunStartLinked(r, states, e);
    SupportEndCovers(r, states, 0);
    CoveringRunMissesNone(r, states, r.RunStart(states, e), e + 1);
  }

  /** The support is non-empty exactly when some covering run exists. */
  lemma SupportComplete(r: Rules, states: seq<SignedState>)
    requires r.participants != []
    ensures r.SupportOf(states) != [] <==> exists a: nat, b: nat :: r.CoveringRun(states, a, b)
  {
    if a: nat, b: nat :| r.CoveringRun(states, a, b) {
      CoveringRunAfter(r, states, a, b);
    }
    if r.IsSupported(states) {
      var f := SupportEnds(r, states);
      SupportIsCovering(r, states);
    }
  }

  /** Its members are the mover-signed states of one covering run, and no covering run has a newer
      mover-signed state, or ends earlier. */
  lemma SupportSoundAndNewest(r: Rules, states: seq<SignedState>) returns (a: nat, f: nat, b: nat)
    requires r.participants != [] && r.SupportOf(states) != []
    ensures r.CoveringRun(states, a, b) && r.SupportOf(states) == r.Supporting(states, a, b)
    ensures a <= f < b && r.SupportOf(states)[0] == states[f]
    ensures forall a': nat, b': nat :: r.CoveringRun(states, a', b') ==>
              a <= a' && b <= b' && forall k :: a' <= k < b' && r.MoverSigned(states[k]) ==> f <= k
  {
    var e := r.SupportEnd(states, 0);
    f := SupportEnds(r, states);
    SupportIsCovering(r, states);
    a, b := r.RunStart(states, e), e + 1;
    forall a': nat, b': nat | r.CoveringRun(states, a', b')
      ensures a <= a' && b <= b'
    {
      CoveringRunAfter(r, states, a', b');
    }
  }

  lemma {:induction false} SupportingMembers(r: Rules, states: seq<SignedState>, a: nat, b: nat)
    requires b <= |states|
    ensures forall s :: s in r.Supporting(states, a, b) <==>
              exists k :: a <= k < b && states[k] == s && r.MoverSigned(states[k])
  {
    if a < b {
      SupportingMembers(r, states, a, b - 1);
      forall s ensures s in r.Supporting(states, a, b) <==>
                         exists k :: a <= k < b && states[k] == s && r.MoverSigned(states[k])
      {
        if k :| a <= k < b && states[k] == s && r.MoverSigned(states[k]) {
          assert k == b - 1 || s in r.Supporting(states, a, b - 1);
        }
        if s in r.Supporting(states, a, b - 1) {
          var k :| a <= k < b - 1 && states[k] == s && r.MoverSigned(states[k]);
          assert a <= k < b;
        }
      }
    }
  }

  // ----- lists that agree up to the end of the support -----

  lemma {:induction false} RunStartAgrees(r: Rules, xs: seq<SignedState>, ys: seq<SignedState>, i: nat)
    requires i < |xs| && i < |ys| && xs[..i + 1] == ys[..i + 1]
    ensures r.RunStart(xs, i) == r.RunStart(ys, i)
  {
    assert xs[i] == xs[..i + 1][i] == ys[i];
    if i > 0 {
      assert xs[i - 1] == xs[..i + 1][i - 1] == ys[i - 1];
      assert xs[..i] == xs[..i + 1][..i] == ys[..i];
      RunStartAgrees(r, xs, ys, i - 1);
    }
  }

  lemma {:induction false} RunAgrees(r: Rules, xs: seq<SignedState>, ys: seq<SignedState>, a: nat, b: nat)
    requires b <= |xs| && b <= |ys| && xs[..b] == ys[..b]
    ensures r.Missing(xs, a, b) == r.Missing(ys, a, b)
    ensures r.Supporting(xs, a, b) == r.Supporting(ys, a, b)
  {
    if a < b {
      assert xs[b - 1] == xs[..b][b - 1] == ys[b - 1];
      assert xs[..b - 1] == xs[..b][..b - 1] == ys[..b - 1];
      RunAgrees(r, xs, ys, a, b - 1);
    }
  }

  lemma RunsAgree(r: Rules, xs: seq<SignedState>, ys: seq<SignedState>, i: nat)
    requires i < |xs| && i < |ys| && xs[..i + 1] == ys[..i + 1]
    ensures r.Missing(xs, r.RunStart(xs, i), i + 1) == r.Missing(ys, r.RunStart(ys, i), i + 1)
  {
    hide Rules.Missing, Rules.RunStart, Rules.Supporting;
    RunStartAgrees(r, xs, ys, i);
    RunAgrees(r, xs, ys, r.RunStart(xs, i), i + 1);
  }

  lemma {:induction false} SupportEndAgrees(r: Rules, xs: seq<SignedState>, ys: seq<SignedState>, i: nat)
    requires i <= |xs| && i <= |ys|
    requires var e := r.SupportEnd(xs, i); e < |xs| && e < |ys| && xs[..e + 1] == ys[..e + 1]
    ensures r.SupportEnd(ys, i) == r.SupportEnd(xs, i)
    decreases |xs| - i
  {
    hide Rules.Missing, Rules.RunStart;
    var e := r.SupportEnd(xs, i);
    assert xs[..i + 1] == xs[..e + 1][..i + 1] && ys[..i + 1] == ys[..e + 1][..i + 1];
    RunsAgree(r, xs, ys, i);
    if i < e {
      SupportEndAgrees(r, xs, ys, i + 1);
    }
  }

  /** The support depends on the states down to its oldest member only. */
  lemma SupportAgrees(r: Rules, xs: seq<SignedState>, ys: seq<SignedState>)
    requires r.IsSupported(xs)
    requires var e := r.SupportEnd(xs, 0); e < |ys| && xs[..e + 1] == ys[..e + 1]
    ensures r.SupportEnd(ys, 0) == r.SupportEnd(xs, 0)
    ensures r.SupportOf(ys) == r.SupportOf(xs)
  {
    var e := r.SupportEnd(xs, 0);
    SupportEndAgrees(r, xs, ys, 0);
    RunStartAgrees(r, xs, ys, e);
    RunAgrees(r, xs, ys, r.RunStart(xs, e), e + 1);
  }

  // ----- the computation -----

  lemma DropSigner(s: SignedState, k: nat, before: set<Address>)
    requires k < |s.signatures|
    ensures before - Signers(SignedState(s.vars, s.signatures[..k + 1])) ==
              before - Signers(SignedState(s.vars, s.signatures[..k])) - {s.signatures[k].signer}
  {
    var shorter, longer := s.signatures[..k], s.signatures[..k + 1];
    assert longer == shorter + [s.signatures[k]];
    forall p ensures p in Signers(SignedState(s.vars, longer)) <==>
                       p in Signers(SignedState(s.vars, shorter)) || p == s.signatures[k].signer
    {
      if p in Signers(SignedState(s.vars, shorter)) {
        var i :| 0 <= i < k && shorter[i].signer == p;
        assert longer[i].signer == p;
      }
      assert longer[k].signer == s.signatures[k].signer;
    }
  }

  lemma SomeSignersSuffice(s: SignedState, k: nat, before: set<Address>)
    requires k <= |s.signatures|
    requires before - Signers(SignedState(s.vars, s.signatures[..k])) == {}
    ensures before - Signers(s) == {}
  {
    forall p | p in before ensures p in Signers(s) {
      assert p !in before - Signers(SignedState(s.vars, s.signatures[..k]));
      var i :| 0 <= i < k && s.signatures[..k][i].signer == p;
      assert s.signatures[i].signer == p;
    }
  }

  /** Strikes the signers of s off the list of missing participants, until nobody is missing. */
  method Strike(missing: set<Address>, s: SignedState) returns (rest: set<Address>)
    ensures rest == missing - Signers(s)
  {
    rest := missing;
    for k := 0 to |s.signatures|
      invariant rest == missing - Signers(SignedState(s.vars, s.signatures[..k]))
    {
      DropSigner(s, k, missing);
      rest := rest - {s.signatures[k].signer};
      if rest == {} {
        SomeSignersSuffice(s, k + 1, missing);
        return;
      }
    }
    assert s.signatures[..|s.signatures|] == s.signatures;
  }

  /** Walks down the stored states, collecting mover-signed states and striking off their signers, and
      starts over wherever the chain of transitions is broken. */
  method ComputeSupport(r: Rules, states: seq<SignedState>) returns (support: seq<SignedState>)
    requires r.participants != []
    ensures support == r.SupportOf(states)
  {
    support := [];
    var all := set p | p in r.participants;
    var missing := all;
    assert r.participants[0] in all;
    ghost var start := 0;
    for i := 0 to |states|
      invariant 0 <= start <= i && (i > 0 ==> start == r.RunStart(states, i - 1))
      invariant support == r.Supporting(states, start, i)
      invariant missing == r.Missing(states, start, i) && missing != {}
      invariant r.SupportEnd(states, 0) == r.SupportEnd(states, i)
    {
      var signedState := states[i];
      if i > 0 && !r.links(signedState.vars, states[i - 1].vars) {
        support := [];
        missing := all;
        start := i;
      }
      if r.MoverSigned(signedState) {
        support := support + [signedState];
        missing := Strike(missing, signedState);
        if missing == {} {
          assert start == r.RunStart(states, i) && support == r.Supporting(states, start, i + 1);
          assert r.Missing(states, r.RunStart(states, i), i + 1) == {};
          assert r.SupportEnd(states, i) == i;
          return;
        }
      }
    }
    return [];
  }
}
