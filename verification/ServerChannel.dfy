/** The server wallet's channel record and the calls that change it. */
module ServerChannel {
  import opened States
  import opened Support
  import opened StoredStates
  import opened ServerStore
  import opened ServerRuns

  /** Settings of a channel that decide whether an incoming state is checked against the supported one. */
  datatype Settings = Settings(isLedger: bool, fakeFunding: bool)

  /** Older states, states stored already, ledger states and states of the funding stage are not checked. */
  predicate ShouldValidate(r: Rules, settings: Settings, states: seq<SignedState>, vars: StateVars) {
    var support := r.SupportOf(SortedStates(states));
    && !(settings.fakeFunding && vars.turnNum == 3)
    && support != []
    && vars.turnNum >= support[0].vars.turnNum
    && FindHash(states, HashState(vars)) < 0
    && !settings.isLedger
    && vars.turnNum >= 2 * |r.participants|
  }

  /** The full check of a transition; appVerdict is what the application's bytecode says about it. */
  predicate ValidTransition(n: nat, from: StateVars, to: StateVars, appVerdict: bool) {
    match ProtocolTransition(n, from, to)
    case Valid => true
    case NeedToCheckApp => appVerdict
    case Invalid => false
  }

  predicate Refused(r: Rules, settings: Settings, states: seq<SignedState>, vars: StateVars, appVerdict: bool) {
    && ShouldValidate(r, settings, states, vars)
    && !ValidTransition(|r.participants|, r.SupportOf(SortedStates(states))[0].vars, vars, appVerdict)
  }

  // ----- which states are refused -----

  /** A state that has to follow the supported one: it is new, not older than the support, past the first two
      rounds, and not of a ledger or of a channel whose funding is faked. */
  ghost predicate MustFollow(r: Rules, settings: Settings, states: seq<SignedState>, vars: StateVars)
    requires r.participants != []
  {
    && r.IsSupported(states) && SupportedTurn(r, states) <= vars.turnNum && 2 * |r.participants| <= vars.turnNum
    && !Known(states, HashState(vars))
    && !settings.isLedger && (settings.fakeFunding ==> vars.turnNum != 3)
  }

  /** It does: its turn is the next one, a final state stays final and keeps the outcome, and the application
      allows all others. */
  ghost predicate MayFollow(supported: StateVars, vars: StateVars, appVerdict: bool) {
    && vars.turnNum == supported.turnNum + 1
    && (supported.isFinal ==> vars.isFinal)
    && (vars.isFinal ==> SameOnChain(supported.outcome, vars.outcome))
    && (!vars.isFinal ==> appVerdict)
  }

  ghost predicate Violates(r: Rules, settings: Settings, states: seq<SignedState>, vars: StateVars, appVerdict: bool)
    requires r.participants != []
  {
    && MustFollow(r, settings, states, vars)
    && !MayFollow(SupportedState(r, states).vars, vars, appVerdict)
  }

  /** Exactly the states that have to follow the supported one and do not are refused. */
  lemma RefusedExactly(r: Rules, settings: Settings, states: seq<SignedState>, vars: StateVars, appVerdict: bool)
    requires r.participants != [] && Descending(states)
    ensures Refused(r, settings, states, vars, appVerdict) <==> Violates(r, settings, states, vars, appVerdict)
  {
    hide Rules.SupportEnd, Rules.RunStart, Rules.Supporting, FindHash, HashState, NitroOutcome, SameOnChain;
    SortedOfDescending(states);
    FindHashKnown(states, HashState(vars));
    if r.IsSupported(states) {
      SupportNonEmpty(r, states);
      NitroOutcomeMeans(SupportedState(r, states).vars.outcome, vars.outcome);
    }
  }

  /** Only states that are exempt from the check can roll a channel back. */
  lemma CheckedNeverRollsBack(r: Rules, settings: Settings, states: seq<SignedState>, s: SignedState)
    requires r.participants != [] && Tidy(r, states) && ShouldValidate(r, settings, states, s.vars)
    ensures !RollsBack(r, states, s)
  {
    hide Rules.SupportEnd, FindHash, Undercuts;
    SortedOfDescending(states);
  }

  class Channel {
    const participants: seq<Address>
    const myIndex: nat
    const settings: Settings
    const chainNetworkId: nat
    const rules: Rules
    var vars: seq<SignedState>

    ghost predicate Valid() {
      myIndex < |participants| && rules.participants == participants && Proper(rules)
    }

    function MyAddress(): Address
      requires Valid()
    {
      participants[myIndex]
    }

    constructor (participants: seq<Address>, myIndex: nat, nullApp: bool, settings: Settings, chainNetworkId: nat,
                 vars: seq<SignedState>)
      requires myIndex < |participants|
      ensures Valid() && this.participants == participants && this.myIndex == myIndex
      ensures rules == ServerRules(participants, nullApp) && this.settings == settings
      ensures this.chainNetworkId == chainNetworkId && this.vars == vars
    {
      this.participants := participants;
      this.myIndex := myIndex;
      this.settings := settings;
      this.chainNetworkId := chainNetworkId;
      this.rules := ServerRules(participants, nullApp);
      this.vars := vars;
      ServerRulesAreProper(participants, nullApp);
    }

    /** Stores a signed state, drops what is older than the support, and checks the result. */
    method Store(s: SignedState) returns (result: Result<()>)
      requires Valid()
      modifies this`vars
      ensures (vars, result) == Storing(rules, MyAddress(), old(vars), s)
      ensures Judges(vars, MyAddress(), result)
    {
      vars := AddState(vars, s);
      ghost var added := vars;
      var support := ComputeSupport(rules, SortedStates(vars));
      vars := ClearOldStates(vars, support);
      assert vars == ClearOldStates(added, rules.SupportOf(SortedStates(added)));
      result := ValidateInvariants(vars, MyAddress());
    }

    method AddMyState(s: SignedState) returns (result: Result<()>)
      requires Valid()
      modifies this`vars
      ensures if s.signatures == [] then
                vars == old(vars) && result == Err(NoSignature)
              else if |s.signatures| > 1 || s.signatures[0].signer != MyAddress() then
                vars == old(vars) && result == Err(NotSignedByMe)
              else
                && (vars, result) == Storing(rules, MyAddress(), old(vars), s)
                && Judges(vars, MyAddress(), result)
    {
      if s.signatures == [] {
        return Err(NoSignature);
      }
      if |s.signatures| > 1 || s.signatures[0].signer != MyAddress() {
        return Err(NotSignedByMe);
      }
      result := Store(s);
    }

    /** Checks a state against the supported one, if that applies. */
    method CheckTransition(vars: StateVars, appVerdict: bool) returns (refused: bool)
      requires Valid()
      ensures refused == Refused(rules, settings, this.vars, vars, appVerdict)
      ensures Descending(this.vars) ==> (refused <==> Violates(rules, settings, this.vars, vars, appVerdict))
    {
      hide Violates;
      if Descending(this.vars) {
        RefusedExactly(rules, settings, this.vars, vars, appVerdict);
      }
      var support := ComputeSupport(rules, SortedStates(this.vars));
      if support == [] || !ShouldValidate(rules, settings, this.vars, vars) {
        return false;
      }
      refused := !ValidTransition(|participants|, support[0].vars, vars, appVerdict);
    }

    /** Signs a state and stores it. What a successful call keeps is stated for signatures that recover to
        their signers. */
    method SignState(vars: StateVars, signature: string, appVerdict: bool, ghost recover: Recover)
      returns (result: Result<()>)
      requires Valid()
      modifies this`vars
      ensures var s := SignedState(vars, [SignatureEntry(signature, MyAddress())]);
              if LatestSignedBy(old(this.vars), MyAddress()) >= vars.turnNum then
                this.vars == old(this.vars) && result == Err(StaleState)
              else if Refused(rules, settings, old(this.vars), vars, appVerdict) then
                this.vars == old(this.vars) && result == Err(InvalidTransition)
              else
                (this.vars, result) == Storing(rules, MyAddress(), old(this.vars), s)
      ensures result.Ok? && Sound(rules, recover, old(this.vars)) && recover(HashState(vars), signature) == MyAddress() ==>
                && Sound(rules, recover, this.vars)
                && LatestSignedBy(old(this.vars), MyAddress()) < vars.turnNum == LatestSignedBy(this.vars, MyAddress())
                && (ShouldValidate(rules, settings, old(this.vars), vars) ==>
                      KeepsSupport(rules, old(this.vars), this.vars))
      ensures Descending(old(this.vars)) ==>
                (result == Err(InvalidTransition)
                 <==> && LatestSignedBy(old(this.vars), MyAddress()) < vars.turnNum
                      && Violates(rules, settings, old(this.vars), vars, appVerdict))
    {
      hide Violates, Storing, Refused, Sound, KeepsSupport, RollsBack, ShouldValidate, LatestSignedBy, HashState;
      if LatestSignedBy(this.vars, MyAddress()) >= vars.turnNum {
        return Err(StaleState);
      }
      var refused := CheckTransition(vars, appVerdict);
      if refused {
        return Err(InvalidTransition);
      }
      ghost var before := this.vars;
      result := AddMyState(SignedState(vars, [SignatureEntry(signature, MyAddress())]));
      if result.Ok? && Sound(rules, recover, before) && recover(HashState(vars), signature) == MyAddress() {
        SigningStores(rules, recover, settings, MyAddress(), before, vars, signature, this.vars);
      }
    }

    /** Stores a state that arrived with signatures, after finding out who made them. */
    method AddSignedState(vars: StateVars, chainId: nat, signatures: seq<string>, recover: Recover, appVerdict: bool)
      returns (result: Result<()>)
      requires Valid()
      modifies this`vars
      ensures var s := Signed(recover, vars, signatures);
              if exists e :: e in s.signatures && e.signer !in participants then
                this.vars == old(this.vars) && result == Err(NotAParticipant)
              else if chainId != chainNetworkId then
                this.vars == old(this.vars) && result == Err(WrongChain)
              else if Refused(rules, settings, old(this.vars), vars, appVerdict) then
                this.vars == old(this.vars) && result == Err(InvalidTransition)
              else
                (this.vars, result) == Storing(rules, MyAddress(), old(this.vars), s)
      ensures result.Ok? && Sound(rules, recover, old(this.vars)) ==>
                && Sound(rules, recover, this.vars)
                && LatestSignedBy(old(this.vars), MyAddress()) <= LatestSignedBy(this.vars, MyAddress())
                && (KeepsSupport(rules, old(this.vars), this.vars)
                    <==> !RollsBack(rules, old(this.vars), Signed(recover, vars, signatures)))
                && (ShouldValidate(rules, settings, old(this.vars), vars) ==>
                      KeepsSupport(rules, old(this.vars), this.vars))
      ensures Descending(old(this.vars)) ==>
                (result == Err(InvalidTransition)
                 <==> && (forall e :: e in Signed(recover, vars, signatures).signatures ==> e.signer in participants)
                      && chainId == chainNetworkId
                      && Violates(rules, settings, old(this.vars), vars, appVerdict))
    {
      hide Violates, Storing, Refused, Sound, KeepsSupport, RollsBack, ShouldValidate, LatestSignedBy, HashState;
      var s := Signed(recover, vars, signatures);
      if exists e :: e in s.signatures && e.signer !in participants {
        return Err(NotAParticipant);
      }
      if chainId != chainNetworkId {
        return Err(WrongChain);
      }
      var refused := CheckTransition(vars, appVerdict);
      if refused {
        return Err(InvalidTransition);
      }
      ghost var before := this.vars;
      result := Store(s);
      if result.Ok? && Sound(rules, recover, before) {
        ArrivalStores(rules, recover, settings, MyAddress(), before, vars, signatures, this.vars);
      }
    }
  }

  lemma SigningStores(r: Rules, recover: Recover, settings: Settings, me: Address, before: seq<SignedState>, vars: StateVars,
                      signature: string, after: seq<SignedState>)
    requires Proper(r) && Sound(r, recover, before) && me in r.participants
    requires recover(HashState(vars), signature) == me && LatestSignedBy(before, me) < vars.turnNum
    requires Stores(r, me, before, SignedState(vars, [SignatureEntry(signature, me)]), after)
    ensures Sound(r, recover, after)
    ensures LatestSignedBy(before, me) < vars.turnNum == LatestSignedBy(after, me)
    ensures ShouldValidate(r, settings, before, vars) ==> KeepsSupport(r, before, after)
  {
    hide Stores, ShouldValidate, KeepsSupport, RollsBack;
    assert Signed(recover, vars, [signature]).signatures == [SignatureEntry(signature, me)];
    CallMeans(r, recover, me, before, SignState(vars, signature), after);
    if ShouldValidate(r, settings, before, vars) {
      CheckedNeverRollsBack(r, settings, before, Signed(recover, vars, [signature]));
    }
  }

  lemma ArrivalStores(r: Rules, recover: Recover, settings: Settings, me: Address, before: seq<SignedState>,
                      vars: StateVars, signatures: seq<string>, after: seq<SignedState>)
    requires Proper(r) && Sound(r, recover, before) && me in r.participants
    requires Stores(r, me, before, Signed(recover, vars, signatures), after)
    ensures Sound(r, recover, after)
    ensures LatestSignedBy(before, me) <= LatestSignedBy(after, me)
    ensures KeepsSupport(r, before, after) <==> !RollsBack(r, before, Signed(recover, vars, signatures))
    ensures ShouldValidate(r, settings, before, vars) ==> KeepsSupport(r, before, after)
  {
    hide ShouldValidate, KeepsSupport, RollsBack, Storing, Stores;
    CallMeans(r, recover, me, before, AddSigned(vars, signatures), after);
    if ShouldValidate(r, settings, before, vars) {
      CheckedNeverRollsBack(r, settings, before, Signed(recover, vars, signatures));
    }
  }

  /** States of the first two rounds are not checked against the supported one. */
  lemma SetUpIsNotChecked(r: Rules, settings: Settings, states: seq<SignedState>, vars: StateVars, appVerdict: bool)
    requires vars.turnNum < 2 * |r.participants|
    ensures !Refused(r, settings, states, vars, appVerdict)
  {
  }
}
