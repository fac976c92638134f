/** The states that the participants of a channel sign, and when one state may follow another. */
module States {

  type Address = string

  datatype AllocationItem = AllocationItem(destination: string, amount: nat)

  datatype SimpleAllocation = SimpleAllocation(asset: Address, allocationItems: seq<AllocationItem>)

  datatype Outcome =
    | Allocation(allocation: SimpleAllocation)
    | Guarantee(asset: Address, targetChannelId: string, destinations: seq<string>)
    | MixedAllocation(allocations: seq<SimpleAllocation>)

  /** The part of a state that changes from turn to turn. */
  datatype StateVars = StateVars(turnNum: nat, outcome: Outcome, appData: string, isFinal: bool)

  datatype SignatureEntry = SignatureEntry(signature: string, signer: Address)

  datatype SignedState = SignedState(vars: StateVars, signatures: seq<SignatureEntry>)

  function Signers(s: SignedState): set<Address> {
    set i | 0 <= i < |s.signatures| :: s.signatures[i].signer
  }

  predicate SimpleAllocationsEqual(left: SimpleAllocation, right: SimpleAllocation) {
    && left.asset == right.asset
    && |left.allocationItems| == |right.allocationItems|
    && forall i :: 0 <= i < |left.allocationItems| ==>
         && left.allocationItems[i].destination == right.allocationItems[i].destination
         && left.allocationItems[i].amount == right.allocationItems[i].amount
  }

  predicate OutcomesEqual(left: Outcome, right: Outcome) {
    match (left, right)
    case (Allocation(l), Allocation(r)) => SimpleAllocationsEqual(l, r)
    case (Guarantee(_, _, _), Guarantee(_, _, _)) => left == right
    case (MixedAllocation(ls), MixedAllocation(rs)) =>
      |ls| == |rs| && forall i :: 0 <= i < |ls| ==> SimpleAllocationsEqual(ls[i], rs[i])
    case _ => false
  }

  lemma SimpleAllocationsEqualMeansSame(left: SimpleAllocation, right: SimpleAllocation)
    ensures SimpleAllocationsEqual(left, right) <==> left == right
  {
    if SimpleAllocationsEqual(left, right) {
      assert left.allocationItems == right.allocationItems;
    }
  }

  /** The comparison by parts is an equivalence, in fact equality: amounts are compared by value. */
  lemma OutcomesEqualMeansSame(left: Outcome, right: Outcome)
    ensures OutcomesEqual(left, right) <==> left == right
  {
    match (left, right)
    case (Allocation(l), Allocation(r)) => SimpleAllocationsEqualMeansSame(l, r);
    case (MixedAllocation(ls), MixedAllocation(rs)) =>
      if |ls| == |rs| {
        forall i | 0 <= i < |ls| ensures SimpleAllocationsEqual(ls[i], rs[i]) <==> ls[i] == rs[i] {
          SimpleAllocationsEqualMeansSame(ls[i], rs[i]);
        }
        if OutcomesEqual(left, right) {
          assert ls == rs;
        }
      }
    case _ =>
  }

  /** What remains of an outcome in the on-chain format: of a mixed allocation, only the first part. */
  function NitroOutcome(outcome: Outcome): Outcome {
    match outcome
    case MixedAllocation(parts) => if parts == [] then MixedAllocation([]) else Allocation(parts[0])
    case _ => outcome
  }

  /** Outcomes that look alike on chain, where a mixed allocation counts for its first part only. */
  ghost predicate SameOnChain(a: Outcome, b: Outcome) {
    a == b || exists part :: ShowsAs(a, part) && ShowsAs(b, part)
  }

  ghost predicate ShowsAs(o: Outcome, part: SimpleAllocation) {
    o == Allocation(part) || (o.MixedAllocation? && o.allocations != [] && o.allocations[0] == part)
  }

  lemma NitroOutcomeMeans(a: Outcome, b: Outcome)
    ensures NitroOutcome(a) == NitroOutcome(b) <==> SameOnChain(a, b)
  {
    if NitroOutcome(a) == NitroOutcome(b) && NitroOutcome(a).Allocation? {
      assert ShowsAs(a, NitroOutcome(a).allocation) && ShowsAs(b, NitroOutcome(a).allocation);
    }
  }

  /** The hash of a state, idealised as the preimage it is taken of; the channel constants are fixed. */
  datatype StateHash = StateHash(turnNum: nat, outcome: Outcome, appData: string, isFinal: bool)

  function HashState(v: StateVars): StateHash {
    StateHash(v.turnNum, NitroOutcome(v.outcome), v.appData, v.isFinal)
  }

  /** States have one hash exactly if they differ in outcome parts at most that the chain does not see. */
  lemma SameHashExactly(v: StateVars, w: StateVars)
    ensures HashState(v) == HashState(w)
            <==> && v.turnNum == w.turnNum && v.appData == w.appData && v.isFinal == w.isFinal
                 && SameOnChain(v.outcome, w.outcome)
  {
    NitroOutcomeMeans(v.outcome, w.outcome);
  }

  /** The browser wallet's simple transition check, for a channel of n participants. */
  predicate ValidChain(n: nat, first: StateVars, second: StateVars) {
    if first.turnNum + 1 != second.turnNum then false
    else if second.isFinal then OutcomesEqual(first.outcome, second.outcome)
    else if second.turnNum < 2 * n then
      OutcomesEqual(first.outcome, second.outcome) && first.appData == second.appData
    else true
  }

  /** What the protocol rules say about a transition; Invalid stands for a thrown error. */
  datatype TransitionStatus = Valid | NeedToCheckApp | Invalid

  function ProtocolTransition(n: nat, from: StateVars, to: StateVars): TransitionStatus {
    var sameOutcome := NitroOutcome(to.outcome) == NitroOutcome(from.outcome);
    if to.turnNum != from.turnNum + 1 then Invalid
    else if to.isFinal then if sameOutcome then Valid else Invalid
    else if from.isFinal then Invalid
    else if to.turnNum < 2 * n then
      if sameOutcome && to.appData == from.appData then Valid else Invalid
    else NeedToCheckApp
  }

  /** The server wallet's transition check as its support computation calls it: without bytecode,
      and skipping the application's own check unless the channel runs the null application. */
  predicate ValidateTransition(n: nat, nullApp: bool, from: StateVars, to: StateVars) {
    match ProtocolTransition(n, from, to)
    case Valid => true
    case NeedToCheckApp => !nullApp
    case Invalid => false
  }
}
