/** The browser wallet's list of signed states for one channel: what a call stores and what it returns. */
module BrowserStore {
  import opened Lists
  import opened States
  import opened Support
  import opened StoredStates

  /** The browser wallet's rules: turns go round, and transitions are checked by ValidChain. */
  function BrowserRules(participants: seq<Address>): Rules
    requires participants != []
  {
    Rules(participants,
          (t: nat) => if participants == [] then "" else MoverAt(participants, t),
          (older, newer) => ValidChain(|participants|, older, newer))
  }

  lemma BrowserRulesAreProper(participants: seq<Address>)
    requires participants != []
    ensures Proper(BrowserRules(participants))
  {
    var r := BrowserRules(participants);
    forall t: nat ensures r.mover(t) in r.participants {
      assert r.mover(t) == participants[t % |participants|];
    }
  }

  // ----- what a call does to the stored list -----

  /** The stored list with one more signature: on the state with the same hash, or on a new entry. */
  function AddEntry(states: seq<SignedState>, vars: StateVars, sig: SignatureEntry): seq<SignedState> {
    var k := FindHash(states, HashState(vars));
    if k < 0 then states + [SignedState(vars, [sig])]
    else states[k := states[k].(signatures := Unique(states[k].signatures + [sig]))]
  }

  /** The entry that the signature goes to. */
  function AddedEntry(states: seq<SignedState>, vars: StateVars, sig: SignatureEntry): SignedState {
    var k := FindHash(states, HashState(vars));
    if k < 0 then SignedState(vars, [sig])
    else states[k].(signatures := Unique(states[k].signatures + [sig]))
  }

  /** The stored list after a call, and what the call returns or throws. An unknown signer is noticed
      only after a new state has been stored, without signatures. */
  function Adding(r: Rules, me: Address, states: seq<SignedState>, vars: StateVars, sig: SignatureEntry)
    : (seq<SignedState>, Result<SignedState>)
  {
    if sig.signer !in r.participants then
      var k := FindHash(states, HashState(vars));
      (if k < 0 then states + [SignedState(vars, [])] else states, Err(NotAParticipant))
    else
      var added := AddEntry(states, vars, sig);
      var cleared := ClearOldStates(added, r.SupportOf(NewestFirst(added)));
      (cleared, match Invariants(cleared, me)
                case Ok(_) => Ok(AddedEntry(states, vars, sig))
                case Err(e) => Err(e))
  }

  function Signing(r: Rules, me: Address, states: seq<SignedState>, vars: StateVars, signature: string)
    : (seq<SignedState>, Result<SignedState>)
  {
    if LatestSignedBy(states, me) >= vars.turnNum then (states, Err(StaleState))
    else Adding(r, me, states, vars, SignatureEntry(signature, me))
  }

  // ----- what a call returns -----

  /** value has the given hash, and exactly once each the signatures stored for that hash and the new one. */
  ghost predicate Gathers(states: seq<SignedState>, vars: StateVars, sig: SignatureEntry, value: SignedState) {
    && (if Known(states, HashState(vars)) then
          exists s :: s in states && HashState(s.vars) == HashState(vars) && s.vars == value.vars
        else value.vars == vars)
    && HashState(value.vars) == HashState(vars) && NoDuplicates(value.signatures)
    && forall e :: e in value.signatures <==>
         e == sig || exists s :: s in states && HashState(s.vars) == HashState(vars) && e in s.signatures
  }

  /** What is stored: value, and states that were stored before under other hashes. */
  ghost predicate OthersStay(before: seq<SignedState>, value: SignedState, after: seq<SignedState>) {
    forall s :: s in after ==> s == value || (s in before && HashState(s.vars) != HashState(value.vars))
  }

  lemma KnownAt(states: seq<SignedState>, vars: StateVars)
    requires DistinctHashes(states)
    ensures var k := FindHash(states, HashState(vars));
            if k < 0 then !Known(states, HashState(vars))
            else HashState(states[k].vars) == HashState(vars)
                 && forall s :: s in states && HashState(s.vars) == HashState(vars) ==> s == states[k]
  {
    hide HashState;
    FindHashFinds(states, HashState(vars));
  }

  lemma AddedGathers(states: seq<SignedState>, vars: StateVars, sig: SignatureEntry)
    requires DistinctHashes(states)
    ensures Gathers(states, vars, sig, AddedEntry(states, vars, sig))
    ensures OthersStay(states, AddedEntry(states, vars, sig), AddEntry(states, vars, sig))
  {
    hide HashState, FindHash, Unique;
    var k := FindHash(states, HashState(vars));
    KnownAt(states, vars);
    if k >= 0 {
      assert states[k] in states;
    }
  }

  lemma ClearedMembers(states: seq<SignedState>, support: seq<SignedState>)
    ensures forall s :: s in ClearOldStates(states, support) ==> s in states
  {
    hide NewestFirst, FindHash;
    NewestFirstElements(states);
  }

  /** A successful call returns the state with all signatures known for it, and stores nothing else that is new. */
  lemma AddingReturns(r: Rules, me: Address, states: seq<SignedState>, vars: StateVars, sig: SignatureEntry)
    requires DistinctHashes(states) && Adding(r, me, states, vars, sig).1.Ok?
    ensures var (after, result) := Adding(r, me, states, vars, sig);
            Gathers(states, vars, sig, result.value) && OthersStay(states, result.value, after)
  {
    hide ClearOldStates, AddEntry, AddedEntry, Gathers, Rules.SupportOf, NewestFirst, Invariants;
    AddedGathers(states, vars, sig);
    var added := AddEntry(states, vars, sig);
    ClearedMembers(added, r.SupportOf(NewestFirst(added)));
  }
}
