/** Turning signed states into the table of who signed what that the chain checks. */
module SignatureArguments {
  import opened Lists
  import opened Options
  import opened States
  import opened ServerStore

  /** A state object; id tells objects with equal contents apart. */
  datatype ChannelState = ChannelState(id: nat, participants: seq<Address>, vars: StateVars)

  /** A state object with one signature; index tells the signed states of one state object apart. */
  datatype SingleSigned = SingleSigned(state: ChannelState, index: nat, signature: string)

  /** Arrays may have holes, written None. */
  datatype Arguments = Arguments(states: seq<ChannelState>, signatures: seq<Option<string>>, whoSignedWhat: seq<Option<int>>)

  datatype ArgumentsResult = Built(arguments: Arguments) | NoStates

  /** The first position of a, -1 if there is none. */
  function IndexOf(xs: seq<Address>, a: Address): (k: int)
    ensures -1 <= k < |xs| && (k >= 0 ==> xs[k] == a)
    ensures forall i :: 0 <= i < (if k < 0 then |xs| else k) ==> xs[i] != a
  {
    if xs == [] then -1
    else if xs[0] == a then 0
    else
      var k := IndexOf(xs[1..], a);
      assert forall i :: 0 < i < |xs| ==> xs[i] == xs[1..][i - 1];
      if k < 0 then -1 else k + 1
  }

  function SignerIndex(recover: Recover, participants: seq<Address>, ss: SingleSigned): (k: int)
    ensures -1 <= k < |participants|
  {
    IndexOf(participants, recover(HashState(ss.state.vars), ss.signature))
  }

  /** Writing an array slot: the array grows if need be, and a negative index is no slot. */
  function SetAt<T>(xs: seq<Option<T>>, p: int, v: T): (r: seq<Option<T>>)
    ensures |xs| <= |r| && (p >= 0 ==> p < |r| && r[p] == Some(v))
    ensures forall q :: 0 <= q < |r| && q != p ==> r[q] == if q < |xs| then xs[q] else None
    ensures |r| == if p < |xs| then |xs| else p + 1
  {
    if p < 0 then xs
    else if p < |xs| then xs[p := Some(v)]
    else xs + seq(p - |xs|, _ => None) + [Some(v)]
  }

  function Holes<T>(n: nat): (r: seq<Option<T>>)
    ensures |r| == n && forall i :: 0 <= i < n ==> r[i] == None
  {
    seq(n, _ => None)
  }

  function StatesOf(signedStates: seq<SingleSigned>): (r: seq<ChannelState>)
    ensures |r| == |signedStates| && forall i :: 0 <= i < |r| ==> r[i] == signedStates[i].state
  {
    seq(|signedStates|, i requires 0 <= i < |signedStates| => signedStates[i].state)
  }

  /** Those of the signed states that carry the given state. */
  function WithState(signedStates: seq<SingleSigned>, state: ChannelState): seq<SingleSigned> {
    if signedStates == [] then []
    else
      var last := signedStates[|signedStates| - 1];
      WithState(signedStates[..|signedStates| - 1], state) + if last.state == state then [last] else []
  }

  lemma {:induction false} WithStateMembers(signedStates: seq<SingleSigned>, state: ChannelState, ss: SingleSigned)
    ensures ss in WithState(signedStates, state) <==> ss in signedStates && ss.state == state
  {
    if signedStates != [] {
      var init, last := signedStates[..|signedStates| - 1], signedStates[|signedStates| - 1];
      WithStateMembers(init, state, ss);
      assert signedStates == init + [last];
    }
  }

  /** The signatures in the order in which they are written: state by state. */
  function Written(states: seq<ChannelState>, signedStates: seq<SingleSigned>): seq<SingleSigned> {
    if states == [] then []
    else Written(states[..|states| - 1], signedStates) + WithState(signedStates, states[|states| - 1])
  }

  /** Those written before the j-th signature on the i-th state. */
  ghost function WrittenUpTo(states: seq<ChannelState>, signedStates: seq<SingleSigned>, i: nat, j: nat): seq<SingleSigned>
    requires i < |states| ==> j <= |WithState(signedStates, states[i])|
  {
    if i < |states| then Written(states[..i], signedStates) + WithState(signedStates, states[i])[..j]
    else Written(states, signedStates)
  }

  /** The last signature that p wrote. */
  function LastBy(recover: Recover, participants: seq<Address>, written: seq<SingleSigned>, p: nat): Option<SingleSigned> {
    if written == [] then None
    else if SignerIndex(recover, participants, written[|written| - 1]) == p then Some(written[|written| - 1])
    else LastBy(recover, participants, written[..|written| - 1], p)
  }

  /** The first position of a state object. */
  function StateIndex(states: seq<ChannelState>, state: ChannelState): (k: nat)
    ensures k <= |states| && (k < |states| ==> states[k] == state) && (state in states ==> k < |states|)
    ensures forall i :: 0 <= i < k ==> states[i] != state
  {
    if states == [] || states[0] == state then 0
    else
      assert forall i :: 0 < i < |states| ==> states[i] == states[1..][i - 1];
      StateIndex(states[1..], state) + 1
  }

  /** The tables after the given signatures have been written. */
  ghost predicate Tabulated(recover: Recover, participants: seq<Address>, states: seq<ChannelState>,
                            written: seq<SingleSigned>, signatures: seq<Option<string>>, who: seq<Option<int>>)
  {
    && |who| == |participants| && |signatures| >= |states|
    && (forall p: nat :: p < |participants| ==>
          match LastBy(recover, participants, written, p)
          case None => who[p] == None && (p < |signatures| ==> signatures[p] == None)
          case Some(ss) =>
            && who[p] == Some(StateIndex(states, ss.state))
            && p < |signatures| && signatures[p] == Some(ss.signature))
    && (forall p :: |participants| <= p < |signatures| ==> signatures[p] == None)
    && (|signatures| > |states| ==> LastBy(recover, participants, written, |signatures| - 1).Some?)
  }

  method CreateSignatureArguments(signedStates: seq<SingleSigned>, recover: Recover) returns (result: ArgumentsResult)
    ensures signedStates == [] <==> result.NoStates?
    ensures signedStates != [] ==>
              var unique := Unique(signedStates);
              && result.arguments.states == Unique(StatesOf(unique))
              && Tabulated(recover, signedStates[0].state.participants, result.arguments.states,
                           Written(result.arguments.states, unique),
                           result.arguments.signatures, result.arguments.whoSignedWhat)
  {
    if signedStates == [] {
      return NoStates;
    }
    hide *;
    var participants := signedStates[0].state.participants;
    var states: seq<ChannelState> := [];
    var whoSignedWhat: seq<Option<int>> := Holes(|participants|);
    var uniqueSignedStates := Unique(signedStates);
    var uniqueStates := Unique(StatesOf(uniqueSignedStates));
    var signatures: seq<Option<string>> := Holes(|uniqueStates|);
    NothingWritten(recover, participants, uniqueStates, uniqueSignedStates, signatures, whoSignedWhat);
    for i := 0 to |uniqueStates|
      invariant states == uniqueStates[..i]
      invariant Tabulated(recover, participants, uniqueStates, WrittenUpTo(uniqueStates, uniqueSignedStates, i, 0),
                          signatures, whoSignedWhat)
    {
      states := states + [uniqueStates[i]];
      var signedStatesForUniqueState := WithState(uniqueSignedStates, uniqueStates[i]);
      for j := 0 to |signedStatesForUniqueState|
        invariant Tabulated(recover, participants, uniqueStates, WrittenUpTo(uniqueStates, uniqueSignedStates, i, j),
                            signatures, whoSignedWhat)
      {
        var ss := signedStatesForUniqueState[j];
        var participantIndex := SignerIndex(recover, participants, ss);
        WriteStep(recover, participants, uniqueStates, uniqueSignedStates, signatures, whoSignedWhat, i, j);
        signatures := SetAt(signatures, participantIndex, ss.signature);
        whoSignedWhat := SetAt(whoSignedWhat, participantIndex, i);
      }
      StateWritten(uniqueStates, uniqueSignedStates, i);
    }
    AllWritten(uniqueStates, uniqueSignedStates);
    result := Built(Arguments(states, signatures, whoSignedWhat));
  }

  lemma WrittenNext(states: seq<ChannelState>, signedStates: seq<SingleSigned>, i: nat)
    requires i < |states|
    ensures Written(states[..i + 1], signedStates) == Written(states[..i], signedStates) + WithState(signedStates, states[i])
  {
    assert states[..i + 1][..i] == states[..i];
  }

  lemma StateWritten(states: seq<ChannelState>, signedStates: seq<SingleSigned>, i: nat)
    requires i < |states|
    ensures WrittenUpTo(states, signedStates, i, |WithState(signedStates, states[i])|)
            == WrittenUpTo(states, signedStates, i + 1, 0)
    ensures states[..i + 1] == states[..i] + [states[i]]
  {
    hide Written, WithState;
    var listed := WithState(signedStates, states[i]);
    assert listed[..|listed|] == listed;
    WrittenNext(states, signedStates, i);
    if i + 1 == |states| {
      assert states[..i + 1] == states;
    } else {
      assert WithState(signedStates, states[i + 1])[..0] == [];
    }
  }

  lemma AllWritten(states: seq<ChannelState>, signedStates: seq<SingleSigned>)
    ensures WrittenUpTo(states, signedStates, |states|, 0) == Written(states, signedStates)
    ensures states[..|states|] == states
  {
  }

  lemma NothingWritten(recover: Recover, participants: seq<Address>, states: seq<ChannelState>,
                       signedStates: seq<SingleSigned>, signatures: seq<Option<string>>, who: seq<Option<int>>)
    requires signatures == Holes(|states|) && who == Holes(|participants|)
    ensures Tabulated(recover, participants, states, WrittenUpTo(states, signedStates, 0, 0), signatures, who)
  {
    assert WrittenUpTo(states, signedStates, 0, 0) == [];
  }

  lemma WriteStep(recover: Recover, participants: seq<Address>, states: seq<ChannelState>,
                  signedStates: seq<SingleSigned>, signatures: seq<Option<string>>, who: seq<Option<int>>, i: nat, j: nat)
    requires NoDuplicates(states) && i < |states| && j < |WithState(signedStates, states[i])|
    requires Tabulated(recover, participants, states, WrittenUpTo(states, signedStates, i, j), signatures, who)
    ensures var ss := WithState(signedStates, states[i])[j]; var p := SignerIndex(recover, participants, ss);
            Tabulated(recover, participants, states, WrittenUpTo(states, signedStates, i, j + 1),
                      SetAt(signatures, p, ss.signature), SetAt(who, p, i))
  {
    hide Tabulated, SignerIndex, WithState, Written;
    var listed := WithState(signedStates, states[i]);
    WithStateMembers(signedStates, states[i], listed[j]);
    WriteNext(recover, participants, states, WrittenUpTo(states, signedStates, i, j), signatures, who, listed[j], i);
    assert WrittenUpTo(states, signedStates, i, j + 1) == WrittenUpTo(states, signedStates, i, j) + [listed[j]] by {
      assert listed[..j + 1] == listed[..j] + [listed[j]];
    }
  }

  lemma WriteNext(recover: Recover, participants: seq<Address>, states: seq<ChannelState>, written: seq<SingleSigned>,
                  signatures: seq<Option<string>>, who: seq<Option<int>>, ss: SingleSigned, i: nat)
    requires Tabulated(recover, participants, states, written, signatures, who)
    requires NoDuplicates(states) && i < |states| && states[i] == ss.state
    ensures var p := SignerIndex(recover, participants, ss);
            Tabulated(recover, participants, states, written + [ss], SetAt(signatures, p, ss.signature), SetAt(who, p, i))
  {
    var p := SignerIndex(recover, participants, ss);
    FirstIsOnly(states, i);
    hide SignerIndex, IndexOf, StateIndex, SetAt, NoDuplicates;
    var sigs, who' := SetAt(signatures, p, ss.signature), SetAt(who, p, i);
    forall q: nat | q < |participants| || q == |sigs| - 1
      ensures LastBy(recover, participants, written + [ss], q)
              == if q == p then Some(ss) else LastBy(recover, participants, written, q)
    {
      LastByNext(recover, participants, written, ss, q);
    }
    hide LastBy;
  }

  lemma FirstIsOnly(states: seq<ChannelState>, i: nat)
    requires NoDuplicates(states) && i < |states|
    ensures StateIndex(states, states[i]) == i
  {
  }

  lemma LastByNext(recover: Recover, participants: seq<Address>, written: seq<SingleSigned>, ss: SingleSigned, q: nat)
    ensures LastBy(recover, participants, written + [ss], q)
            == if q == SignerIndex(recover, participants, ss) then Some(ss)
               else LastBy(recover, participants, written, q)
  {
    hide SignerIndex;
    assert (written + [ss])[..|written|] == written;
  }
}
