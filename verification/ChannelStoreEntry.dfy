/** The browser wallet's store entry for one channel. */
module StoreEntry {
  import opened Lists
  import opened States
  import opened Support
  import opened StoredStates
  import opened BrowserStore
  import opened BrowserRuns

  class ChannelStoreEntry {
    const participants: seq<Address>
    const myIndex: nat
    const rules: Rules
    var stateVariables: seq<SignedState>

    ghost predicate Valid() {
      myIndex < |participants| && rules.participants == participants && Proper(rules)
    }

    function MyAddress(): Address
      requires Valid()
    {
      participants[myIndex]
    }

    constructor (participants: seq<Address>, myIndex: nat, stateVariables: seq<SignedState>)
      requires myIndex < |participants|
      ensures Valid() && this.participants == participants && this.myIndex == myIndex
      ensures rules == BrowserRules(participants)
      ensures this.stateVariables == stateVariables
    {
      this.participants := participants;
      this.myIndex := myIndex;
      this.rules := BrowserRules(participants);
      this.stateVariables := stateVariables;
      BrowserRulesAreProper(participants);
    }

    method CheckInvariants() returns (result: Result<()>)
      requires Valid()
      ensures result == Invariants(stateVariables, MyAddress()) && Judges(stateVariables, MyAddress(), result)
    {
      result := ValidateInvariants(stateVariables, MyAddress());
    }

    /** Sorts the stored states and drops those older than the support. */
    method ClearOld()
      requires Valid()
      modifies this`stateVariables
      ensures stateVariables == ClearOldStates(old(stateVariables), rules.SupportOf(NewestFirst(old(stateVariables))))
    {
      hide Rules.SupportOf, NewestFirst, UpTo;
      stateVariables := NewestFirst(stateVariables);
      ghost var sorted := stateVariables;
      var support := ComputeSupport(rules, stateVariables);
      assert support == rules.SupportOf(sorted);
      if support != [] {
        stateVariables := UpTo(stateVariables, HashState(support[|support| - 1].vars));
      }
      assert stateVariables == if support == [] then sorted else UpTo(sorted, HashState(support[|support| - 1].vars));
    }

    method AddState(vars: StateVars, sig: SignatureEntry) returns (result: Result<SignedState>)
      requires Valid()
      modifies this`stateVariables
      ensures (stateVariables, result) == Adding(rules, MyAddress(), old(stateVariables), vars, sig)
      ensures result.Ok? && Tidy(rules, old(stateVariables)) ==>
                && Tidy(rules, stateVariables) && KeepsSupport(rules, old(stateVariables), stateVariables)
                && LatestSignedBy(old(stateVariables), MyAddress()) <= LatestSignedBy(stateVariables, MyAddress())
      ensures result.Ok? && Tidy(rules, old(stateVariables)) ==>
                && Gathers(old(stateVariables), vars, sig, result.value)
                && OthersStay(old(stateVariables), result.value, stateVariables)
      ensures result == Err(NotAParticipant) <==> sig.signer !in participants
      ensures sig.signer !in participants ==>
                stateVariables == old(stateVariables)
                                  + if Known(old(stateVariables), HashState(vars)) then [] else [SignedState(vars, [])]
    {
      hide Rules.SupportOf, NewestFirst, ClearOldStates, Invariants, Tidy, KeepsSupport, LatestSignedBy;
      hide FindHash, Unique, HashState;
      FindHashKnown(stateVariables, HashState(vars));
      var index := FindHash(stateVariables, HashState(vars));
      if index < 0 {
        index := |stateVariables|;
        stateVariables := stateVariables + [SignedState(vars, [])];
      }
      if sig.signer !in participants {
        return Err(NotAParticipant);
      }
      var entry := stateVariables[index];
      entry := entry.(signatures := Unique(entry.signatures + [sig]));
      stateVariables := stateVariables[index := entry];
      UniqueOfDistinct([sig]);
      assert [] + [sig] == [sig];
      assert entry == AddedEntry(old(stateVariables), vars, sig);
      assert stateVariables == AddEntry(old(stateVariables), vars, sig);
      hide AddEntry, AddedEntry;
      ClearOld();
      var checked := CheckInvariants();
      match checked
      case Err(e) => return Err(e);
      case Ok(_) =>
        AddingKeeps(rules, MyAddress(), old(stateVariables), vars, sig, stateVariables);
        if Tidy(rules, old(stateVariables)) {
          TidyHashes(rules, old(stateVariables));
          AddingReturns(rules, MyAddress(), old(stateVariables), vars, sig);
        }
        return Ok(entry);
    }

    /** Signs the next state with the key of this participant and stores it. */
    method SignAndAdd(vars: StateVars, signature: string) returns (result: Result<SignedState>)
      requires Valid()
      modifies this`stateVariables
      ensures (stateVariables, result) == Signing(rules, MyAddress(), old(stateVariables), vars, signature)
      ensures result.Ok? && Tidy(rules, old(stateVariables)) ==>
                && Tidy(rules, stateVariables) && KeepsSupport(rules, old(stateVariables), stateVariables)
                && LatestSignedBy(old(stateVariables), MyAddress()) < vars.turnNum
                && vars.turnNum == LatestSignedBy(stateVariables, MyAddress())
      ensures result.Ok? && Tidy(rules, old(stateVariables)) ==>
                && Gathers(old(stateVariables), vars, SignatureEntry(signature, MyAddress()), result.value)
                && OthersStay(old(stateVariables), result.value, stateVariables)
      ensures result == Err(StaleState) <==> LatestSignedBy(old(stateVariables), MyAddress()) >= vars.turnNum
    {
      hide LatestSignedBy, Gathers, OthersStay, KeepsSupport, FindHash, ClearOldStates, NewestFirst;
      if LatestSignedBy(stateVariables, MyAddress()) >= vars.turnNum {
        return Err(StaleState);
      }
      ghost var before := stateVariables;
      result := AddState(vars, SignatureEntry(signature, MyAddress()));
      if result.Ok? && Tidy(rules, before) {
        SigningRemembers(rules, MyAddress(), before, vars, signature, stateVariables);
      }
    }
  }

  lemma TidyHashes(r: Rules, states: seq<SignedState>)
    requires Tidy(r, states)
    ensures DistinctHashes(states)
  {
    DescendingHashes(states);
  }

  lemma AddingKeeps(r: Rules, me: Address, before: seq<SignedState>, vars: StateVars, sig: SignatureEntry,
                    after: seq<SignedState>)
    requires Proper(r) && me in r.participants && Adding(r, me, before, vars, sig).1.Ok?
    requires after == Adding(r, me, before, vars, sig).0
    ensures Tidy(r, before) ==> Tidy(r, after) && KeepsSupport(r, before, after)
    ensures Tidy(r, before) ==> LatestSignedBy(before, me) <= LatestSignedBy(after, me)
  {
    hide Adding;
    if Tidy(r, before) {
      CallKeepsSupport(r, me, before, Add(vars, sig), after);
      CallRemembers(r, me, before, Add(vars, sig), after);
    }
  }

  lemma SigningRemembers(r: Rules, me: Address, before: seq<SignedState>, vars: StateVars, signature: string,
                         after: seq<SignedState>)
    requires Proper(r) && Tidy(r, before) && me in r.participants && Signing(r, me, before, vars, signature).1.Ok?
    requires after == Signing(r, me, before, vars, signature).0
    ensures LatestSignedBy(before, me) < vars.turnNum == LatestSignedBy(after, me)
  {
    hide Signing;
    CallRemembers(r, me, before, Sign(vars, signature), after);
  }
}
