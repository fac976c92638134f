/** The server wallet's list of signed states for one channel: what a call stores, and what survives it. */
module ServerStore {
  import opened Lists
  import opened States
  import opened Support
  import opened StoredStates

  /** The server wallet's rules: transitions are checked by ValidateTransition. */
  function ServerRules(participants: seq<Address>, nullApp: bool): Rules
    requires participants != []
  {
    Rules(participants,
          (t: nat) => if participants == [] then "" else MoverAt(participants, t),
          (older, newer) => ValidateTransition(|participants|, nullApp, older, newer))
  }

  lemma ServerRulesAreProper(participants: seq<Address>, nullApp: bool)
    requires participants != []
    ensures Proper(ServerRules(participants, nullApp))
  {
    var r := ServerRules(participants, nullApp);
    forall t: nat ensures r.mover(t) in r.participants {
      assert r.mover(t) == participants[t % |participants|];
    }
  }

  predicate NewerFirst(s: SignedState, t: SignedState) {
    s.vars.turnNum >= t.vars.turnNum
  }

  /** The states as the support is computed from them: the newest first, ties in order of arrival. */
  function SortedStates(states: seq<SignedState>): seq<SignedState> {
    StableSort(states, NewerFirst)
  }

  /** Signature entries without those whose signature occurred before. */
  function UniqueSignatures(entries: seq<SignatureEntry>): seq<SignatureEntry> {
    if entries == [] then []
    else
      var kept := UniqueSignatures(entries[..|entries| - 1]);
      var last := entries[|entries| - 1];
      if exists i :: 0 <= i < |kept| && kept[i].signature == last.signature then kept else kept + [last]
  }

  /** Folds a signed state into the stored ones: its signatures join the state with the same hash, or it is
      pushed to the end. */
  function AddState(states: seq<SignedState>, s: SignedState): seq<SignedState> {
    var k := FindHash(states, HashState(s.vars));
    if k < 0 then states + [s]
    else states[k := states[k].(signatures := UniqueSignatures(states[k].signatures + s.signatures))]
  }

  /** Who made a signature on a state, recovered from the state's hash. */
  type Recover = (StateHash, string) -> Address

  ghost predicate GenuineState(recover: Recover, s: SignedState) {
    forall e :: e in s.signatures ==> e.signer == recover(HashState(s.vars), e.signature)
  }

  ghost predicate Genuine(recover: Recover, states: seq<SignedState>) {
    forall s :: s in states ==> GenuineState(recover, s)
  }

  /** What storing s leaves, and the verdict on it. */
  function Storing(r: Rules, me: Address, states: seq<SignedState>, s: SignedState): (seq<SignedState>, Result<()>) {
    var added := AddState(states, s);
    var cleared := ClearOldStates(added, r.SupportOf(SortedStates(added)));
    (cleared, Invariants(cleared, me))
  }

  ghost predicate Stores(r: Rules, me: Address, before: seq<SignedState>, s: SignedState, after: seq<SignedState>) {
    var (next, verdict) := Storing(r, me, before, s);
    verdict.Ok? && after == next
  }

  // ----- signatures are kept -----

  lemma {:induction false} UniqueSignaturesKeeps(entries: seq<SignatureEntry>, recover: Recover, h: StateHash)
    requires forall e :: e in entries ==> e.signer == recover(h, e.signature)
    ensures forall e :: e in UniqueSignatures(entries) <==> e in entries
  {
    if entries != [] {
      var init, last := entries[..|entries| - 1], entries[|entries| - 1];
      assert entries == init + [last];
      UniqueSignaturesKeeps(init, recover, h);
      var kept := UniqueSignatures(init);
      if i :| 0 <= i < |kept| && kept[i].signature == last.signature {
        assert kept[i] in kept;
        assert kept[i] == last;
      }
    }
  }

  ghost predicate HasSignature(entries: seq<SignatureEntry>, signature: string) {
    exists i :: 0 <= i < |entries| && entries[i].signature == signature
  }

  ghost predicate DistinctSignatures(entries: seq<SignatureEntry>) {
    forall i, j :: 0 <= i < j < |entries| ==> entries[i].signature != entries[j].signature
  }

  /** No signature is left twice, however often it arrives, and none is lost. */
  lemma {:induction false} UniqueSignaturesOnce(entries: seq<SignatureEntry>)
    ensures DistinctSignatures(UniqueSignatures(entries))
    ensures forall signature :: HasSignature(UniqueSignatures(entries), signature) <==> HasSignature(entries, signature)
  {
    if entries != [] {
      var init, last := entries[..|entries| - 1], entries[|entries| - 1];
      var kept := UniqueSignatures(init);
      UniqueSignaturesOnce(init);
      HasNext(init, last);
      HasNext(kept, last);
      assert entries == init + [last];
      assert UniqueSignatures(entries) == if HasSignature(kept, last.signature) then kept else kept + [last];
    }
  }

  lemma HasNext(entries: seq<SignatureEntry>, e: SignatureEntry)
    ensures forall signature :: HasSignature(entries + [e], signature)
              <==> HasSignature(entries, signature) || signature == e.signature
    ensures DistinctSignatures(entries) && !HasSignature(entries, e.signature) ==> DistinctSignatures(entries + [e])
  {
    var all := entries + [e];
    forall signature
      ensures HasSignature(all, signature) <==> HasSignature(entries, signature) || signature == e.signature
    {
      if i :| 0 <= i < |entries| && entries[i].signature == signature {
        assert all[i].signature == signature;
      }
      assert all[|entries|].signature == e.signature;
    }
  }

  lemma JoinedSigners(recover: Recover, s: SignedState, t: SignedState)
    requires GenuineState(recover, s) && GenuineState(recover, t) && HashState(s.vars) == HashState(t.vars)
    ensures var j := s.(signatures := UniqueSignatures(s.signatures + t.signatures));
            GenuineState(recover, j) && Signers(j) == Signers(s) + Signers(t)
  {
    var j := s.(signatures := UniqueSignatures(s.signatures + t.signatures));
    UniqueSignaturesKeeps(s.signatures + t.signatures, recover, HashState(s.vars));
    forall p ensures p in Signers(j) <==> p in Signers(s) || p in Signers(t) {
      SignersOfEntries(s, p);
      SignersOfEntries(t, p);
      SignersOfEntries(j, p);
    }
  }

  // ----- order -----

  lemma {:induction false} SortedOfDescending(states: seq<SignedState>)
    requires Descending(states)
    ensures SortedStates(states) == states
  {
    SortOfSorted(states, NewerFirst);
  }

  /** n placed behind the states of its own turn. */
  lemma {:induction false} SortedInsert(states: seq<SignedState>, n: SignedState, q: nat)
    requires Descending(states) && q <= |states|
    requires forall k :: 0 <= k < q ==> states[k].vars.turnNum >= n.vars.turnNum
    requires forall k :: q <= k < |states| ==> states[k].vars.turnNum < n.vars.turnNum
    ensures Insert(n, states, NewerFirst) == states[..q] + [n] + states[q..]
  {
    if q == |states| {
      assert states[..q] == states && states[q..] == [];
      assert states == [] || NewerFirst(states[|states| - 1], n);
    } else {
      var init, last := states[..|states| - 1], states[|states| - 1];
      assert !NewerFirst(last, n);
      SortedInsert(init, n, q);
      SplitLast(states, q);
    }
  }

  lemma SplitLast(states: seq<SignedState>, q: nat)
    requires q < |states|
    ensures var init, last := states[..|states| - 1], states[|states| - 1];
            states[..q] == init[..q] && states[q..] == init[q..] + [last]
  {
  }

  lemma SortedOfPushed(states: seq<SignedState>, n: SignedState, q: nat)
    requires Descending(states) && q <= |states|
    requires forall k :: 0 <= k < q ==> states[k].vars.turnNum >= n.vars.turnNum
    requires forall k :: q <= k < |states| ==> states[k].vars.turnNum < n.vars.turnNum
    ensures SortedStates(states + [n]) == states[..q] + [n] + states[q..]
  {
    var all := states + [n];
    assert all[..|all| - 1] == states;
    SortedOfDescending(states);
    SortedInsert(states, n, q);
  }

  // ----- clean-up -----

  /** A tidy list, such as every successful call leaves, is clean: cleaning up again changes nothing. */
  lemma TidyIsClean(r: Rules, states: seq<SignedState>)
    requires r.participants != [] && Tidy(r, states)
    ensures ClearOldStates(states, r.SupportOf(SortedStates(states))) == states
  {
    hide Rules.SupportEnd, Rules.RunStart, Rules.Missing, Rules.Supporting;
    SortedOfDescending(states);
    NewestFirstOfDescending(states);
    DescendingHashes(states);
    ClearIsCut(r, states);
  }

  /** A newer state goes on top, if nothing is left below the support then. */
  lemma StoresOnTop(r: Rules, me: Address, states: seq<SignedState>, n: SignedState, stacked: seq<SignedState>)
    requires r.participants != [] && stacked == [n] + states && Tidy(r, stacked)
    ensures Stores(r, me, states, n, stacked)
  {
    hide Rules.SupportEnd, Rules.RunStart, Rules.Missing, Rules.Supporting, NewestFirst, SortedStates, FindHash;
    OnTopIsNewest(states, n, stacked);
    OnTopIsNew(states, n);
    NewestFirstOfPushed(states, n);
    PlacedThere(states, n, 0);
    SortedOfPushed(states, n, 0);
    assert states[..0] + [n] + states[0..] == stacked;
    TidyPasses(r, states + [n], stacked, me);
  }

  lemma TidyPasses(r: Rules, added: seq<SignedState>, sorted: seq<SignedState>, me: Address)
    requires r.participants != [] && Tidy(r, sorted) && NewestFirst(added) == SortedStates(added) == sorted
    ensures ClearOldStates(added, r.SupportOf(SortedStates(added))) == sorted && Invariants(sorted, me).Ok?
  {
    hide Rules.SupportEnd, Rules.RunStart, Rules.Missing, Rules.Supporting, NewestFirst, SortedStates;
    DescendingHashes(sorted);
    ClearIsCut(r, added);
  }
}
