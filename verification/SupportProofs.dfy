/** A computed support always makes a complete on-chain proof. */
module SupportProofs {
  import opened Lists
  import opened Options
  import opened States
  import opened Support
  import opened StoredStates
  import opened ServerStore
  import opened SupportClaims
  import opened SignatureArguments

  // ----- what the table says -----

  lemma {:induction false} WrittenMembers(states: seq<ChannelState>, signedStates: seq<SingleSigned>, ss: SingleSigned)
    ensures ss in Written(states, signedStates) <==> ss in signedStates && ss.state in states
  {
    if states != [] {
      var init, last := states[..|states| - 1], states[|states| - 1];
      WrittenMembers(init, signedStates, ss);
      WithStateMembers(signedStates, last, ss);
      assert states == init + [last];
    }
  }

  lemma {:induction false} LastByMeans(recover: Recover, participants: seq<Address>, written: seq<SingleSigned>, p: nat)
    ensures match LastBy(recover, participants, written, p)
            case None => forall ss :: ss in written ==> SignerIndex(recover, participants, ss) != p
            case Some(ss) => ss in written && SignerIndex(recover, participants, ss) == p
  {
    hide SignerIndex;
    if written != [] {
      var init, last := written[..|written| - 1], written[|written| - 1];
      assert written == init + [last];
      LastByMeans(recover, participants, init, p);
    }
  }

  lemma {:induction false} LastByOfConcat(recover: Recover, participants: seq<Address>, a: seq<SingleSigned>,
                                          b: seq<SingleSigned>, p: nat)
    ensures LastBy(recover, participants, a + b, p)
            == var last := LastBy(recover, participants, b, p);
               if last.Some? then last else LastBy(recover, participants, a, p)
  {
    hide SignerIndex;
    if b == [] {
      assert a + b == a;
    } else {
      assert (a + b)[..|a + b| - 1] == a + b[..|b| - 1];
      LastByOfConcat(recover, participants, a, b[..|b| - 1], p);
    }
  }

  lemma StateIndexOfPrefix(states: seq<ChannelState>, state: ChannelState)
    requires states != [] && state in states[..|states| - 1]
    ensures StateIndex(states, state) == StateIndex(states[..|states| - 1], state)
  {
    var init := states[..|states| - 1];
    var k := StateIndex(init, state);
    assert states[k] == state && forall i :: 0 <= i < k ==> states[i] == init[i];
  }

  lemma StateIndexOfLast(states: seq<ChannelState>)
    requires states != [] && NoDuplicates(states)
    ensures StateIndex(states, states[|states| - 1]) == |states| - 1
  {
    assert states[|states| - 1] in states;
  }

  /** The last signature that p wrote is on the last listed state that p signed. */
  lemma {:induction false} LastIsHighest(recover: Recover, participants: seq<Address>, states: seq<ChannelState>,
                                         signedStates: seq<SingleSigned>, p: nat, ss: SingleSigned)
    requires NoDuplicates(states)
    requires ss in signedStates && ss.state in states && SignerIndex(recover, participants, ss) == p
    ensures var last := LastBy(recover, participants, Written(states, signedStates), p);
            last.Some? && last.value.state in states && StateIndex(states, ss.state) <= StateIndex(states, last.value.state)
  {
    hide SignerIndex, LastBy, Written, WithState;
    var init, state := states[..|states| - 1], states[|states| - 1];
    assert states == init + [state];
    WrittenNext(states, signedStates, |states| - 1);
    assert states[..|states| - 1 + 1] == states;
    LastByOfConcat(recover, participants, Written(init, signedStates), WithState(signedStates, state), p);
    var here := LastBy(recover, participants, WithState(signedStates, state), p);
    LastByMeans(recover, participants, WithState(signedStates, state), p);
    WithStateMembers(signedStates, state, ss);
    if here.Some? {
      WithStateMembers(signedStates, state, here.value);
      StateIndexOfLast(states);
    } else {
      LastIsHighest(recover, participants, init, signedStates, p, ss);
      StateIndexOfPrefix(states, ss.state);
      StateIndexOfPrefix(states, LastBy(recover, participants, Written(init, signedStates), p).value.state);
    }
  }

  /** p's slots hold p's signature on the last listed state that p signed, or nothing if p signed none. */
  ghost predicate SlotProves(recover: Recover, signedStates: seq<SingleSigned>, args: Arguments, p: nat)
    requires signedStates != [] && p < |args.whoSignedWhat|
  {
    var participants := signedStates[0].state.participants;
    match args.whoSignedWhat[p]
    case None =>
      && (forall ss :: ss in signedStates ==> SignerIndex(recover, participants, ss) != p)
      && (p < |args.signatures| ==> args.signatures[p] == None)
    case Some(i) =>
      && 0 <= i < |args.states| && p < |args.signatures| && args.signatures[p].Some?
      && (exists ss :: ss in signedStates && ss.state == args.states[i] && ss.signature == args.signatures[p].value
                       && SignerIndex(recover, participants, ss) == p)
      && (forall ss :: ss in signedStates && SignerIndex(recover, participants, ss) == p ==>
                         StateIndex(args.states, ss.state) <= i)
  }

  /** The arguments as they are computed from the signed states. */
  ghost predicate BuiltFrom(recover: Recover, signedStates: seq<SingleSigned>, args: Arguments)
    requires signedStates != []
  {
    var unique := Unique(signedStates);
    && args.states == Unique(StatesOf(unique))
    && Tabulated(recover, signedStates[0].state.participants, args.states, Written(args.states, unique),
                 args.signatures, args.whoSignedWhat)
  }

  /** The table is a consistent proof: every slot of a participant proves what it claims. */
  lemma ArgumentsProve(recover: Recover, signedStates: seq<SingleSigned>, args: Arguments, p: nat)
    requires signedStates != [] && BuiltFrom(recover, signedStates, args)
    requires p < |signedStates[0].state.participants|
    ensures |args.whoSignedWhat| == |signedStates[0].state.participants|
    ensures SlotProves(recover, signedStates, args, p)
  {
    hide SignerIndex, LastBy, Written, StateIndex;
    var participants, unique := signedStates[0].state.participants, Unique(signedStates);
    var written := Written(args.states, unique);
    LastByMeans(recover, participants, written, p);
    var last := LastBy(recover, participants, written, p);
    forall ss | ss in signedStates ensures ss in written {
      StateListed(signedStates, ss);
      WrittenMembers(args.states, unique, ss);
    }
    if last.Some? {
      WrittenMembers(args.states, unique, last.value);
    }
    forall ss | ss in signedStates && SignerIndex(recover, participants, ss) == p
      ensures last.Some? && StateIndex(args.states, ss.state) <= StateIndex(args.states, last.value.state)
    {
      StateListed(signedStates, ss);
      LastIsHighest(recover, participants, args.states, unique, p, ss);
    }
  }

  lemma StateListed(signedStates: seq<SingleSigned>, ss: SingleSigned)
    requires ss in signedStates
    ensures ss in Unique(signedStates) && ss.state in Unique(StatesOf(Unique(signedStates)))
  {
    var unique := Unique(signedStates);
    var i :| 0 <= i < |unique| && unique[i] == ss;
    assert StatesOf(unique)[i] == ss.state;
  }

  // ----- supports -----

  /** One signed state for every signature, all on one state object. */
  function Marshal(participants: seq<Address>, id: nat, s: SignedState): (r: seq<SingleSigned>)
    ensures |r| == |s.signatures|
    ensures forall j :: 0 <= j < |r| ==>
              r[j] == SingleSigned(ChannelState(id, participants, s.vars), j, s.signatures[j].signature)
  {
    seq(|s.signatures|, j requires 0 <= j < |s.signatures| =>
      SingleSigned(ChannelState(id, participants, s.vars), j, s.signatures[j].signature))
  }

  function MarshalAll(participants: seq<Address>, support: seq<SignedState>): seq<SingleSigned> {
    if support == [] then []
    else
      var last := |support| - 1;
      MarshalAll(participants, support[..last]) + Marshal(participants, last, support[last])
  }

  predicate EarlierTurn(a: SingleSigned, b: SingleSigned) {
    a.state.vars.turnNum <= b.state.vars.turnNum
  }

  /** The order in which a challenge lists its states. */
  function ChallengeOrder(participants: seq<Address>, support: seq<SignedState>): seq<SingleSigned> {
    StableSort(MarshalAll(participants, support), EarlierTurn)
  }

  lemma {:induction false} MarshalHas(participants: seq<Address>, support: seq<SignedState>, k: nat, j: nat)
    requires k < |support| && j < |support[k].signatures|
    ensures SingleSigned(ChannelState(k, participants, support[k].vars), j, support[k].signatures[j].signature)
            in MarshalAll(participants, support)
  {
    var last := |support| - 1;
    if k == last {
      assert Marshal(participants, last, support[last])[j] in Marshal(participants, last, support[last]);
    } else {
      MarshalHas(participants, support[..last], k, j);
    }
  }

  lemma {:induction false} MarshalOnly(participants: seq<Address>, support: seq<SignedState>, ss: SingleSigned)
    requires ss in MarshalAll(participants, support)
    ensures ss.state.id < |support| && ss.state == ChannelState(ss.state.id, participants, support[ss.state.id].vars)
  {
    var last := |support| - 1;
    if ss in MarshalAll(participants, support[..last]) {
      MarshalOnly(participants, support[..last], ss);
    }
  }

  /** listed holds the marshalled states of the support, in any order. */
  ghost predicate ListsSupport(listed: seq<SingleSigned>, participants: seq<Address>, support: seq<SignedState>) {
    listed != [] && forall ss :: ss in listed <==> ss in MarshalAll(participants, support)
  }

  lemma ChallengeLists(participants: seq<Address>, support: seq<SignedState>)
    requires MarshalAll(participants, support) != []
    ensures ListsSupport(ChallengeOrder(participants, support), participants, support)
  {
    SortElements(MarshalAll(participants, support), EarlierTurn);
    SortMultiset(MarshalAll(participants, support), EarlierTurn);
  }

  /** Every participant's signature is among those of a computed support. */
  lemma SupportHasSignature(recover: Recover, r: Rules, states: seq<SignedState>, p: nat) returns (ss: SingleSigned)
    requires r.IsSupported(states) && Genuine(recover, states)
    requires p < |r.participants| && NoDuplicates(r.participants)
    ensures ss in MarshalAll(r.participants, r.SupportOf(states))
    ensures SignerIndex(recover, r.participants, ss) == p
  {
    hide Rules.SupportEnd, Rules.RunStart, Rules.Missing, Rules.Supporting;
    var e := r.SupportEnd(states, 0);
    var k := SignedWithinSupport(r, states, r.participants[p]);
    SupportingMembers(r, states, r.RunStart(states, e), e + 1);
    var support := r.SupportOf(states);
    assert states[k] in support;
    var q :| 0 <= q < |support| && support[q] == states[k];
    var j :| 0 <= j < |states[k].signatures| && states[k].signatures[j].signer == r.participants[p];
    assert GenuineState(recover, states[k]) && states[k].signatures[j] in states[k].signatures;
    MarshalHas(r.participants, support, q, j);
    ss := SingleSigned(ChannelState(q, r.participants, support[q].vars), j, support[q].signatures[j].signature);
  }

  /** Given the signed states of a computed support, in whatever order, all participants' slots are filled. */
  lemma SupportFillsSlots(recover: Recover, r: Rules, states: seq<SignedState>, listed: seq<SingleSigned>,
                          args: Arguments)
    requires r.IsSupported(states) && Genuine(recover, states) && NoDuplicates(r.participants)
    requires ListsSupport(listed, r.participants, r.SupportOf(states)) && BuiltFrom(recover, listed, args)
    ensures |args.whoSignedWhat| == |r.participants| <= |args.signatures|
    ensures forall p: nat :: p < |r.participants| ==>
              args.whoSignedWhat[p].Some? && args.signatures[p].Some? && SlotProves(recover, listed, args, p)
  {
    hide *;
    ListedParticipants(r.participants, r.SupportOf(states), listed);
    TableLength(recover, listed, args);
    forall p: nat | p < |r.participants|
      ensures p < |args.signatures|
      ensures args.whoSignedWhat[p].Some? && args.signatures[p].Some? && SlotProves(recover, listed, args, p)
    {
      SlotFilled(recover, r, states, listed, args, p);
    }
    if r.participants != [] {
      SlotFilled(recover, r, states, listed, args, |r.participants| - 1);
    }
  }

  lemma SlotFilled(recover: Recover, r: Rules, states: seq<SignedState>, listed: seq<SingleSigned>, args: Arguments,
                   p: nat)
    requires r.IsSupported(states) && Genuine(recover, states) && NoDuplicates(r.participants)
    requires ListsSupport(listed, r.participants, r.SupportOf(states)) && BuiltFrom(recover, listed, args)
    requires p < |r.participants|
    ensures p < |args.whoSignedWhat| && p < |args.signatures|
    ensures args.whoSignedWhat[p].Some? && args.signatures[p].Some? && SlotProves(recover, listed, args, p)
  {
    hide SignerIndex, BuiltFrom, Rules.SupportEnd, Rules.SupportOf, MarshalAll, GenuineState;
    ListedParticipants(r.participants, r.SupportOf(states), listed);
    ArgumentsProve(recover, listed, args, p);
    var ss := SupportHasSignature(recover, r, states, p);
    ListedMembers(r.participants, r.SupportOf(states), listed, ss);
  }

  lemma TableLength(recover: Recover, signedStates: seq<SingleSigned>, args: Arguments)
    requires signedStates != [] && BuiltFrom(recover, signedStates, args)
    ensures |args.whoSignedWhat| == |signedStates[0].state.participants|
  {
  }

  lemma ListedParticipants(participants: seq<Address>, support: seq<SignedState>, listed: seq<SingleSigned>)
    requires ListsSupport(listed, participants, support)
    ensures listed != [] && listed[0].state.participants == participants
  {
    MarshalOnly(participants, support, listed[0]);
  }

  lemma ListedMembers(participants: seq<Address>, support: seq<SignedState>, listed: seq<SingleSigned>, ss: SingleSigned)
    requires ListsSupport(listed, participants, support)
    ensures ss in listed <==> ss in MarshalAll(participants, support)
  {
  }

  // ----- no slots beyond -----

  lemma {:induction false} DistinctBelow(ids: seq<nat>, m: nat)
    requires NoDuplicates(ids) && forall i :: 0 <= i < |ids| ==> ids[i] < m
    ensures |ids| <= m
  {
    if ids != [] {
      assert ids[0] < m;
      if k :| 0 <= k < |ids| && ids[k] == m - 1 {
        var rest := ids[..k] + ids[k + 1..];
        DistinctBelow(rest, m - 1);
      } else {
        DistinctBelow(ids, m - 1);
      }
    }
  }

  lemma FewStates(participants: seq<Address>, support: seq<SignedState>, listed: seq<SingleSigned>)
    requires ListsSupport(listed, participants, support)
    ensures |Unique(StatesOf(Unique(listed)))| <= |support|
  {
    var states := Unique(StatesOf(Unique(listed)));
    var ids: seq<nat> := seq(|states|, i requires 0 <= i < |states| => states[i].id);
    forall i | 0 <= i < |states|
      ensures states[i].id < |support| && states[i] == ChannelState(states[i].id, participants, support[states[i].id].vars)
    {
      StateOfSome(listed, states[i], participants, support);
    }
    DistinctBelow(ids, |support|);
  }

  lemma StateOfSome(listed: seq<SingleSigned>, state: ChannelState, participants: seq<Address>, support: seq<SignedState>)
    requires ListsSupport(listed, participants, support) && state in Unique(StatesOf(Unique(listed)))
    ensures state.id < |support| && state == ChannelState(state.id, participants, support[state.id].vars)
  {
    hide MarshalAll;
    var unique := Unique(listed);
    var i :| 0 <= i < |unique| && StatesOf(unique)[i] == state;
    assert unique[i] in listed;
    MarshalOnly(participants, support, unique[i]);
  }

  lemma MarshalledState(participants: seq<Address>, support: seq<SignedState>, listed: seq<SingleSigned>, k: nat)
    requires ListsSupport(listed, participants, support) && k < |support| && support[k].signatures != []
    ensures ChannelState(k, participants, support[k].vars) in Unique(StatesOf(Unique(listed)))
  {
    hide MarshalAll;
    MarshalHas(participants, support, k, 0);
    StateListed(listed, SingleSigned(ChannelState(k, participants, support[k].vars), 0, support[k].signatures[0].signature));
  }

  /** Every signed state of the support is listed. */
  lemma ManyStates(participants: seq<Address>, support: seq<SignedState>, listed: seq<SingleSigned>)
    requires ListsSupport(listed, participants, support)
    requires forall k :: 0 <= k < |support| ==> support[k].signatures != []
    ensures |Unique(StatesOf(Unique(listed)))| >= |support|
  {
    hide ListsSupport;
    var states := Unique(StatesOf(Unique(listed)));
    var places: seq<nat> := seq(|support|, k requires 0 <= k < |support| =>
      StateIndex(states, ChannelState(k, participants, support[k].vars)));
    forall k | 0 <= k < |support|
      ensures places[k] < |states| && states[places[k]] == ChannelState(k, participants, support[k].vars)
    {
      MarshalledState(participants, support, listed, k);
    }
    forall i, j | 0 <= i < j < |places| ensures places[i] != places[j] {
      assert states[places[i]].id == i && states[places[j]].id == j;
    }
    DistinctBelow(places, |states|);
  }

  lemma SupportIsSigned(r: Rules, states: seq<SignedState>, k: nat)
    requires r.IsSupported(states) && k < |r.SupportOf(states)|
    ensures r.SupportOf(states)[k].signatures != []
  {
    hide Rules.SupportEnd, Rules.RunStart;
    var e := r.SupportEnd(states, 0);
    SupportingMembers(r, states, r.RunStart(states, e), e + 1);
    assert r.SupportOf(states)[k] in r.SupportOf(states);
  }

  /** The signature table has one slot for every participant, and one for every supporting state beyond. */
  lemma TableLengthExactly(recover: Recover, r: Rules, states: seq<SignedState>, listed: seq<SingleSigned>,
                           args: Arguments)
    requires r.IsSupported(states) && Genuine(recover, states) && NoDuplicates(r.participants)
    requires ListsSupport(listed, r.participants, r.SupportOf(states)) && BuiltFrom(recover, listed, args)
    ensures |args.signatures|
            == if |r.SupportOf(states)| > |r.participants| then |r.SupportOf(states)| else |r.participants|
    ensures |args.signatures| == |r.participants| <==> |r.SupportOf(states)| <= |r.participants|
  {
    hide *;
    SupportFillsSlots(recover, r, states, listed, args);
    FewStates(r.participants, r.SupportOf(states), listed);
    forall k | 0 <= k < |r.SupportOf(states)| ensures r.SupportOf(states)[k].signatures != [] {
      SupportIsSigned(r, states, k);
    }
    ManyStates(r.participants, r.SupportOf(states), listed);
    ListedParticipants(r.participants, r.SupportOf(states), listed);
    TableWidth(recover, listed, args);
  }

  /** In a gapless store there are no slots but those of the participants. */
  lemma GaplessFillsExactly(recover: Recover, r: Rules, states: seq<SignedState>, listed: seq<SingleSigned>,
                            args: Arguments)
    requires Proper(r) && RoundRobin(r) && Gapless(r, states)
    requires r.IsSupported(states) && Genuine(recover, states) && NoDuplicates(r.participants)
    requires ListsSupport(listed, r.participants, r.SupportOf(states)) && BuiltFrom(recover, listed, args)
    ensures |args.signatures| == |r.participants|
  {
    hide *;
    GaplessSupportIsShort(r, states);
    TableLengthExactly(recover, r, states, listed, args);
  }

  /** The signature table is as long as the state list, or ends with a participant's slot. */
  lemma TableWidth(recover: Recover, signedStates: seq<SingleSigned>, args: Arguments)
    requires signedStates != [] && BuiltFrom(recover, signedStates, args)
    ensures args.states == Unique(StatesOf(Unique(signedStates)))
    ensures |args.states| <= |args.signatures|
    ensures |args.signatures| <= |args.states| || |args.signatures| <= |signedStates[0].state.participants|
  {
    hide Tabulated;
    TabulatedWidth(recover, signedStates[0].state.participants, args.states, Written(args.states, Unique(signedStates)),
                   args.signatures, args.whoSignedWhat);
  }

  lemma TabulatedWidth(recover: Recover, participants: seq<Address>, states: seq<ChannelState>,
                       written: seq<SingleSigned>, signatures: seq<Option<string>>, who: seq<Option<int>>)
    requires Tabulated(recover, participants, states, written, signatures, who)
    ensures |who| == |participants| && |states| <= |signatures|
    ensures |signatures| <= |states| || |signatures| <= |participants|
  {
    hide SignerIndex, LastBy, StateIndex;
    if |signatures| > |states| {
      LastByMeans(recover, participants, written, |signatures| - 1);
    }
  }

  // ----- challenges -----

  lemma {:induction false} UniqueSorted<T(!new)>(xs: seq<T>, leq: (T, T) -> bool)
    requires SortedBy(xs, leq)
    ensures SortedBy(Unique(xs), leq)
  {
    if xs != [] {
      var init, last := xs[..|xs| - 1], xs[|xs| - 1];
      UniqueSorted(init, leq);
      var u := Unique(init);
      forall i | 0 <= i < |u| ensures leq(u[i], last) {
        assert u[i] in init;
        var k :| 0 <= k < |init| && init[k] == u[i];
      }
    }
  }

  lemma TurnsAreOrdered()
    ensures TotalPreorder(EarlierTurn)
  {
  }

  predicate ByTurn(a: ChannelState, b: ChannelState) {
    a.vars.turnNum <= b.vars.turnNum
  }

  lemma ChallengeStatesOrdered(participants: seq<Address>, support: seq<SignedState>, listed: seq<SingleSigned>)
    requires listed == ChallengeOrder(participants, support)
    ensures SortedBy(Unique(StatesOf(Unique(listed))), ByTurn)
  {
    hide MarshalAll;
    TurnsAreOrdered();
    SortIsSorted(MarshalAll(participants, support), EarlierTurn);
    UniqueSorted(listed, EarlierTurn);
    UniqueSorted(StatesOf(Unique(listed)), ByTurn);
  }

  /** In a challenge, the states are listed by increasing turn, and every participant's slot points to the
      newest supporting state that the participant signed. */
  lemma ChallengePointsToNewest(recover: Recover, participants: seq<Address>, support: seq<SignedState>,
                                listed: seq<SingleSigned>, args: Arguments, p: nat, ss: SingleSigned)
    requires listed == ChallengeOrder(participants, support) && listed != [] && BuiltFrom(recover, listed, args)
    requires p < |listed[0].state.participants| && ss in listed
    requires SignerIndex(recover, listed[0].state.participants, ss) == p
    ensures SortedBy(args.states, ByTurn)
    ensures |args.whoSignedWhat| == |listed[0].state.participants| && args.whoSignedWhat[p].Some?
    ensures 0 <= args.whoSignedWhat[p].value < |args.states|
    ensures ss.state.vars.turnNum <= args.states[args.whoSignedWhat[p].value].vars.turnNum
  {
    hide *;
    ChallengeStatesOrdered(participants, support, listed);
    TableWidth(recover, listed, args);
    ArgumentsProve(recover, listed, args, p);
    StateListed(listed, ss);
    SlotPointsToNewest(recover, listed, args, p, ss);
  }

  lemma SlotPointsToNewest(recover: Recover, signedStates: seq<SingleSigned>, args: Arguments, p: nat, ss: SingleSigned)
    requires signedStates != [] && p < |args.whoSignedWhat| && SlotProves(recover, signedStates, args, p)
    requires ss in signedStates && SignerIndex(recover, signedStates[0].state.participants, ss) == p
    requires SortedBy(args.states, ByTurn) && ss.state in args.states
    ensures args.whoSignedWhat[p].Some? && 0 <= args.whoSignedWhat[p].value < |args.states|
    ensures ss.state.vars.turnNum <= args.states[args.whoSignedWhat[p].value].vars.turnNum
  {
    hide SignerIndex;
    var k := StateIndex(args.states, ss.state);
    assert k < args.whoSignedWhat[p].value ==> ByTurn(args.states[k], args.states[args.whoSignedWhat[p].value]);
  }
}
