/** Funding a channel in turn: every participant waits until all earlier shares are held, and deposits its own. */
module Depositing {
  import opened Options
  import opened Waterfall

  /** When to deposit, up to which holdings, and when the channel is funded. */
  datatype DepositInfo = DepositInfo(depositAt: nat, totalAfterDeposit: nat, fundedAt: nat)

  datatype InfoResult = Info(info: DepositInfo) | NothingAllocated | NoAllocationFor(index: int)

  /** The shares of the participants before i. */
  function Before(amounts: seq<nat>, i: nat): nat
    requires i <= |amounts|
  {
    Sum(amounts[..i])
  }

  method GetDepositingInfo(amounts: seq<nat>, myIndex: int) returns (result: InfoResult)
    ensures amounts == [] ==> result == NothingAllocated
    ensures amounts != [] && !(0 <= myIndex < |amounts|) ==> result == NoAllocationFor(myIndex)
    ensures 0 <= myIndex < |amounts| ==>
              result == Info(DepositInfo(Before(amounts, myIndex), Before(amounts, myIndex + 1), Sum(amounts)))
  {
    if amounts == [] {
      return NothingAllocated;
    }
    var fundedAt := amounts[0];
    for j := 1 to |amounts|
      invariant fundedAt == Sum(amounts[..j])
    {
      SumNext(amounts, j);
      fundedAt := fundedAt + amounts[j];
    }
    assert amounts[..|amounts|] == amounts;
    var depositAt: nat := 0;
    for i := 0 to |amounts|
      invariant depositAt == Sum(amounts[..i])
      invariant !(0 <= myIndex < i)
    {
      SumNext(amounts, i);
      if i != myIndex {
        depositAt := depositAt + amounts[i];
      } else {
        var totalAfterDeposit := depositAt + amounts[i];
        return Info(DepositInfo(depositAt, totalAfterDeposit, fundedAt));
      }
    }
    return NoAllocationFor(myIndex);
  }

  // ----- the chain -----

  /** A deposit counts only if the channel holds what the depositor expects. */
  function Deposited(held: nat, expectedHeld: nat, amount: nat): nat {
    if held >= expectedHeld then held + amount else held
  }

  class FakeChain {
    var holdings: map<string, nat>
    var updates: seq<(string, nat)>

    constructor ()
      ensures holdings == map[] && updates == []
    {
      holdings, updates := map[], [];
    }

    function Held(channelId: string): nat
      reads this
    {
      if channelId in holdings then holdings[channelId] else 0
    }

    /** Emits the new holdings if the deposit counts. */
    method DepositSync(channelId: string, expectedHeld: nat, amount: nat)
      modifies this
      ensures Held(channelId) == Deposited(old(Held(channelId)), expectedHeld, amount)
      ensures Held(channelId) == old(Held(channelId)) + if old(Held(channelId)) >= expectedHeld then amount else 0
      ensures forall c :: c != channelId ==> Held(c) == old(Held(c))
      ensures updates == if old(Held(channelId)) >= expectedHeld then old(updates) + [(channelId, Held(channelId))]
                         else old(updates)
    {
      var current := Held(channelId);
      if current >= expectedHeld {
        holdings := holdings[channelId := current + amount];
        updates := updates + [(channelId, current + amount)];
      }
    }
  }

  // ----- the participants -----

  datatype Mode = Idle | Submit | Done | Failure

  /** A participant's machine; pending is the holdings that its unfinished deposit was started with. */
  datatype Participant = Participant(mode: Mode, pending: Option<nat>)

  datatype State = State(held: nat, paid: seq<nat>, participants: seq<Participant>)

  /** A chain event reaches participant i, or its submission completes, or the submission fails. */
  datatype Event = Deliver(i: nat) | Complete(i: nat) | Fail(i: nat)

  /** How a machine takes the news that the channel holds the given amount. */
  function Observe(p: Participant, info: DepositInfo, held: nat): Participant {
    if held >= info.fundedAt then p.(mode := Done)
    else if held >= info.depositAt && p.mode == Idle then Participant(Submit, Some(held))
    else p
  }

  function InfoOf(amounts: seq<nat>, i: nat): DepositInfo
    requires i < |amounts|
  {
    DepositInfo(Before(amounts, i), Before(amounts, i + 1), Sum(amounts))
  }

  /** Submits the deposit: what is missing from the participant's share, as far as it could see. */
  function SubmitDeposit(s: State, info: DepositInfo, i: nat, observed: nat): State
    requires i < |s.paid|
  {
    var amount: int := info.totalAfterDeposit - observed;
    if amount <= 0 then s
    else
      var held := Deposited(s.held, observed, amount);
      s.(held := held, paid := s.paid[i := s.paid[i] + (held - s.held)])
  }

  function Step(amounts: seq<nat>, s: State, e: Event): State
    requires |s.paid| == |s.participants| == |amounts|
  {
    if e.i >= |amounts| then s
    else
      var p := s.participants[e.i];
      match e
      case Deliver(i) => s.(participants := s.participants[i := Observe(p, InfoOf(amounts, i), s.held)])
      case Complete(i) =>
        if p.pending.None? then s
        else
          var next := Participant(if p.mode == Submit then Idle else p.mode, None);
          SubmitDeposit(s, InfoOf(amounts, i), i, p.pending.value).(participants := s.participants[i := next])
      case Fail(i) =>
        if p.pending.None? then s
        else
          var next := Participant(if p.mode == Submit then Failure else p.mode, None);
          s.(participants := s.participants[i := next])
  }

  function Start(n: nat): (s: State)
    ensures |s.paid| == |s.participants| == n
  {
    State(0, seq(n, _ => 0), seq(n, _ => Participant(Idle, None)))
  }

  // ----- what every step keeps -----

  lemma {:induction false} BeforeIncreases(amounts: seq<nat>, i: nat, j: nat)
    requires i <= j <= |amounts|
    ensures Before(amounts, i) <= Before(amounts, j) <= Sum(amounts)
    ensures i < j ==> Before(amounts, i) + amounts[i] <= Before(amounts, j)
  {
    assert amounts[..j] == amounts[..i] + amounts[i..j];
    assert amounts == amounts[..j] + amounts[j..];
    SumConcat(amounts[..i], amounts[i..j]);
    SumConcat(amounts[..j], amounts[j..]);
    if i < j {
      assert amounts[i..j] == [amounts[i]] + amounts[i + 1..j];
    }
  }

  /** The shares of the first c participants are held, and nothing else. */
  ghost predicate HeldInOrder(amounts: seq<nat>, s: State, c: nat) {
    && c <= |amounts| == |s.paid| && s.held == Before(amounts, c)
    && forall j :: 0 <= j < |amounts| ==> s.paid[j] == if j < c then amounts[j] else 0
  }

  /** The deposit of participant i is on its way, and will pay something. */
  ghost predicate InFlight(amounts: seq<nat>, s: State, i: nat)
    requires |s.participants| == |amounts|
  {
    i < |amounts| && s.participants[i].pending.Some? && s.participants[i].pending.value < Before(amounts, i + 1)
  }

  ghost predicate ParticipantSafe(amounts: seq<nat>, s: State, i: nat)
    requires i < |amounts| == |s.participants|
  {
    var p := s.participants[i];
    && (p.mode == Submit ==> p.pending.Some?)
    && (p.mode == Idle || p.mode == Failure ==> p.pending.None?)
    && (p.mode == Done ==> s.held == Sum(amounts))
    && (p.pending.Some? ==> Before(amounts, i) <= p.pending.value <= s.held)
    && (InFlight(amounts, s, i) ==> p.pending.value == s.held == Before(amounts, i))
  }

  ghost predicate Safe(amounts: seq<nat>, s: State) {
    && |s.participants| == |amounts| && (exists c: nat :: HeldInOrder(amounts, s, c))
    && forall i :: 0 <= i < |amounts| ==> ParticipantSafe(amounts, s, i)
  }

  lemma StartIsSafe(amounts: seq<nat>)
    ensures Safe(amounts, Start(|amounts|))
  {
    assert HeldInOrder(amounts, Start(|amounts|), 0);
  }

  /** At most one deposit that pays something is on its way. */
  lemma OneInFlight(amounts: seq<nat>, s: State, i: nat, j: nat)
    requires Safe(amounts, s) && InFlight(amounts, s, i) && InFlight(amounts, s, j)
    ensures i == j
  {
    assert ParticipantSafe(amounts, s, i) && ParticipantSafe(amounts, s, j);
    if i < j {
      BeforeIncreases(amounts, i + 1, j);
    } else if j < i {
      BeforeIncreases(amounts, j + 1, i);
    }
  }

  /** Whoever is about to pay finds all earlier shares held in full, and has paid nothing. */
  lemma EarlierSharesHeld(amounts: seq<nat>, s: State, i: nat, c: nat)
    requires Safe(amounts, s) && InFlight(amounts, s, i) && HeldInOrder(amounts, s, c)
    ensures amounts[i] > 0 && c <= i && s.paid[i] == 0
    ensures s.held == Before(amounts, i) && forall j :: 0 <= j < i ==> s.paid[j] == amounts[j]
  {
    assert ParticipantSafe(amounts, s, i);
    SumNext(amounts, i);
    if c > i {
      BeforeIncreases(amounts, i + 1, c);
    }
    forall j | c <= j < i ensures amounts[j] == 0 {
      BeforeIncreases(amounts, c, j);
      BeforeIncreases(amounts, j, i);
    }
  }

  lemma DeliverIsSafe(amounts: seq<nat>, s: State, i: nat)
    requires Safe(amounts, s) && |s.paid| == |amounts| && i < |amounts|
    ensures Safe(amounts, Step(amounts, s, Deliver(i)))
  {
    hide Before, Sum;
    var t := Step(amounts, s, Deliver(i));
    var c: nat :| HeldInOrder(amounts, s, c);
    assert HeldInOrder(amounts, t, c);
    BeforeIncreases(amounts, c, |amounts|);
    if c <= i {
      BeforeIncreases(amounts, c, i);
    } else {
      BeforeIncreases(amounts, i + 1, c);
    }
    forall j | 0 <= j < |amounts| ensures ParticipantSafe(amounts, t, j) {
      assert ParticipantSafe(amounts, s, j);
    }
  }

  lemma CompleteIsSafe(amounts: seq<nat>, s: State, i: nat)
    requires Safe(amounts, s) && |s.paid| == |amounts| && i < |amounts|
    ensures Safe(amounts, Step(amounts, s, Complete(i)))
  {
    hide Before, Sum;
    var t := Step(amounts, s, Complete(i));
    var c: nat :| HeldInOrder(amounts, s, c);
    assert ParticipantSafe(amounts, s, i);
    if InFlight(amounts, s, i) {
      EarlierSharesHeld(amounts, s, i, c);
      ShareOf(amounts, i);
      assert HeldInOrder(amounts, t, i + 1);
      BeforeIncreases(amounts, i + 1, |amounts|);
    } else {
      assert HeldInOrder(amounts, t, c);
    }
    forall j | 0 <= j < |amounts| ensures ParticipantSafe(amounts, t, j) {
      assert ParticipantSafe(amounts, s, j);
      if InFlight(amounts, s, i) && InFlight(amounts, s, j) {
        OneInFlight(amounts, s, i, j);
      }
    }
  }

  lemma ShareOf(amounts: seq<nat>, i: nat)
    requires i < |amounts|
    ensures Before(amounts, i + 1) == Before(amounts, i) + amounts[i] <= Sum(amounts)
  {
    SumNext(amounts, i);
    BeforeIncreases(amounts, i + 1, |amounts|);
  }

  lemma FailIsSafe(amounts: seq<nat>, s: State, i: nat)
    requires Safe(amounts, s) && |s.paid| == |amounts| && i < |amounts|
    ensures Safe(amounts, Step(amounts, s, Fail(i)))
  {
    hide Before, Sum;
    var t := Step(amounts, s, Fail(i));
    var c: nat :| HeldInOrder(amounts, s, c);
    assert HeldInOrder(amounts, t, c);
    forall j | 0 <= j < |amounts| ensures ParticipantSafe(amounts, t, j) {
      assert ParticipantSafe(amounts, s, j);
    }
  }

  lemma StepIsSafe(amounts: seq<nat>, s: State, e: Event)
    requires Safe(amounts, s) && |s.paid| == |amounts|
    ensures Safe(amounts, Step(amounts, s, e)) && |Step(amounts, s, e).paid| == |amounts|
  {
    hide Safe;
    if e.i < |amounts| {
      match e
      case Deliver(i) => DeliverIsSafe(amounts, s, i);
      case Complete(i) => CompleteIsSafe(amounts, s, i);
      case Fail(i) => FailIsSafe(amounts, s, i);
    }
  }

  // ----- all interleavings -----

  function Perform(amounts: seq<nat>, s: State, events: seq<Event>): (t: State)
    requires |s.paid| == |s.participants| == |amounts|
    ensures |t.paid| == |t.participants| == |amounts|
  {
    if events == [] then s
    else
      var last := |events| - 1;
      Step(amounts, Perform(amounts, s, events[..last]), events[last])
  }

  lemma {:induction false} PerformIsSafe(amounts: seq<nat>, s: State, events: seq<Event>)
    requires |s.paid| == |s.participants| == |amounts| && Safe(amounts, s)
    ensures Safe(amounts, Perform(amounts, s, events))
  {
    hide Safe, Step;
    if events != [] {
      PerformIsSafe(amounts, s, events[..|events| - 1]);
      StepIsSafe(amounts, Perform(amounts, s, events[..|events| - 1]), events[|events| - 1]);
    }
  }

  /** In every interleaving: the holdings are what was paid and never exceed what funds the channel, nobody
      pays more than the own share, one deposit at most is on its way, and the payer finds all earlier
      shares held. */
  lemma DepositsAreSafe(amounts: seq<nat>, events: seq<Event>)
    ensures var s := Perform(amounts, Start(|amounts|), events);
            && s.held == Sum(s.paid) <= Sum(amounts) && Within(s.paid, amounts)
            && (forall i: nat, j: nat :: InFlight(amounts, s, i) && InFlight(amounts, s, j) ==> i == j)
            && (forall i: nat :: InFlight(amounts, s, i) ==>
                  s.paid[i] == 0 && s.held == Before(amounts, i) && forall j :: 0 <= j < i ==> s.paid[j] == amounts[j])
  {
    var s := Perform(amounts, Start(|amounts|), events);
    hide Before, InFlight, Perform, Step, Start;
    StartIsSafe(amounts);
    PerformIsSafe(amounts, Start(|amounts|), events);
    var c: nat :| HeldInOrder(amounts, s, c);
    PaidSum(amounts, s, c);
    forall i: nat, j: nat | InFlight(amounts, s, i) && InFlight(amounts, s, j) ensures i == j {
      OneInFlight(amounts, s, i, j);
    }
    forall i: nat | InFlight(amounts, s, i)
      ensures i < |amounts| && s.paid[i] == 0 && s.held == Before(amounts, i)
      ensures forall j :: 0 <= j < i ==> s.paid[j] == amounts[j]
    {
      InFlightIsParticipant(amounts, s, i);
      EarlierSharesHeld(amounts, s, i, c);
    }
  }

  lemma InFlightIsParticipant(amounts: seq<nat>, s: State, i: nat)
    requires |s.participants| == |amounts| && InFlight(amounts, s, i)
    ensures i < |amounts|
  {
  }

  lemma PaidSum(amounts: seq<nat>, s: State, c: nat)
    requires HeldInOrder(amounts, s, c)
    ensures s.held == Sum(s.paid) <= Sum(amounts) && Within(s.paid, amounts)
  {
    SumWithin(s.paid, amounts);
    assert s.paid == amounts[..c] + s.paid[c..];
    SumConcat(amounts[..c], s.paid[c..]);
    SumOfZeros(s.paid[c..]);
  }

  /** A machine is done only when everybody has paid exactly the own share. */
  lemma DoneMeansFunded(amounts: seq<nat>, events: seq<Event>, i: nat)
    requires i < |amounts| && Perform(amounts, Start(|amounts|), events).participants[i].mode == Done
    ensures Perform(amounts, Start(|amounts|), events).paid == amounts
  {
    var s := Perform(amounts, Start(|amounts|), events);
    hide Perform, Step, Start;
    StartIsSafe(amounts);
    PerformIsSafe(amounts, Start(|amounts|), events);
    assert ParticipantSafe(amounts, s, i);
    FundedMeansPaid(amounts, s);
  }

  lemma FundedMeansPaid(amounts: seq<nat>, s: State)
    requires Safe(amounts, s) && |s.paid| == |amounts| && s.held >= Sum(amounts)
    ensures s.held == Sum(amounts) && s.paid == amounts
  {
    var c: nat :| HeldInOrder(amounts, s, c);
    BeforeIncreases(amounts, c, |amounts|);
    forall j | 0 <= j < |amounts| ensures s.paid[j] == amounts[j] {
      if c <= j {
        BeforeIncreases(amounts, c, j);
        ShareOf(amounts, j);
      }
    }
  }

  /** Whoever pays, pays the own share in full, once, and after everybody before. */
  lemma DepositsInTurn(amounts: seq<nat>, events: seq<Event>, e: Event)
    ensures var s := Perform(amounts, Start(|amounts|), events);
            var t := Step(amounts, s, e);
            t.paid == s.paid
            || (&& e.Complete? && e.i < |amounts| && t.paid == s.paid[e.i := amounts[e.i]] && s.paid[e.i] == 0
                && s.held == Before(amounts, e.i) && forall j :: 0 <= j < e.i ==> s.paid[j] == amounts[j])
  {
    var s := Perform(amounts, Start(|amounts|), events);
    hide Perform, Start, Step;
    StartIsSafe(amounts);
    PerformIsSafe(amounts, Start(|amounts|), events);
    if e.Complete? && InFlight(amounts, s, e.i) {
      CompletionPays(amounts, s, e.i);
    } else {
      OthersPayNothing(amounts, s, e);
    }
  }

  lemma CompletionPays(amounts: seq<nat>, s: State, i: nat)
    requires |s.paid| == |s.participants| == |amounts| && Safe(amounts, s) && InFlight(amounts, s, i)
    ensures Step(amounts, s, Complete(i)).paid == s.paid[i := amounts[i]] && s.paid[i] == 0
    ensures s.held == Before(amounts, i) && forall j :: 0 <= j < i ==> s.paid[j] == amounts[j]
  {
    hide Before, Sum;
    var c: nat :| HeldInOrder(amounts, s, c);
    EarlierSharesHeld(amounts, s, i, c);
    ShareOf(amounts, i);
    assert ParticipantSafe(amounts, s, i);
  }

  lemma OthersPayNothing(amounts: seq<nat>, s: State, e: Event)
    requires |s.paid| == |s.participants| == |amounts| && !(e.Complete? && InFlight(amounts, s, e.i))
    ensures Step(amounts, s, e).paid == s.paid
  {
  }

  // ----- progress -----

  /** Every participant in turn hears of the holdings, and completes its submission. */
  function Round(n: nat): (r: seq<Event>)
    ensures |r| == 2 * n
    ensures forall k :: 0 <= k < 2 * n ==> r[k] == if k % 2 == 0 then Deliver(k / 2) else Complete(k / 2)
  {
    seq(2 * n, k requires 0 <= k < 2 * n => if k % 2 == 0 then Deliver(k / 2) else Complete(k / 2))
  }

  /** The events of the pattern occur in the schedule in their order, with any others between them. */
  ghost predicate Contains(schedule: seq<Event>, pattern: seq<Event>)
    decreases |schedule|
  {
    pattern == []
    || (&& schedule != []
        && (|| Contains(schedule[..|schedule| - 1], pattern)
            || (&& schedule[|schedule| - 1] == pattern[|pattern| - 1]
                && Contains(schedule[..|schedule| - 1], pattern[..|pattern| - 1]))))
  }

  ghost predicate NobodyFailed(s: State) {
    forall i :: 0 <= i < |s.participants| ==> s.participants[i].mode != Failure
  }

  ghost predicate WithoutFailure(schedule: seq<Event>) {
    forall k :: 0 <= k < |schedule| ==> !schedule[k].Fail?
  }

  /** How far k events of a round have brought the funding. */
  ghost predicate Stage(amounts: seq<nat>, s: State, k: nat)
    requires |s.participants| == |amounts| && k <= 2 * |amounts|
  {
    && s.held >= Before(amounts, k / 2)
    && (k % 2 == 1 ==> s.held >= Before(amounts, k / 2 + 1) || s.participants[k / 2].pending.Some?)
  }

  /** Completing a submission or delivering an event never lowers the holdings, and fails nobody. */
  lemma StepKeepsHoldings(amounts: seq<nat>, s: State, e: Event)
    requires |s.paid| == |s.participants| == |amounts| && NobodyFailed(s) && !e.Fail?
    ensures Step(amounts, s, e).held >= s.held && NobodyFailed(Step(amounts, s, e))
  {
    hide Before, Sum;
  }

  /** A completed submission leaves its participant's share held. */
  lemma CompletionHolds(amounts: seq<nat>, s: State, i: nat)
    requires |s.paid| == |s.participants| == |amounts| && Safe(amounts, s) && i < |amounts|
    requires s.participants[i].pending.Some?
    ensures Step(amounts, s, Complete(i)).held >= Before(amounts, i + 1)
  {
    hide Before, Sum;
    assert ParticipantSafe(amounts, s, i);
  }

  /** No event sets the funding back. */
  lemma StageStays(amounts: seq<nat>, s: State, e: Event, k: nat)
    requires |s.paid| == |s.participants| == |amounts| && Safe(amounts, s) && NobodyFailed(s) && !e.Fail?
    requires k <= 2 * |amounts| && Stage(amounts, s, k)
    ensures Stage(amounts, Step(amounts, s, e), k)
  {
    hide Before, Sum, Safe;
    StepKeepsHoldings(amounts, s, e);
    if k % 2 == 1 && e == Complete(k / 2) && s.participants[k / 2].pending.Some? {
      CompletionHolds(amounts, s, k / 2);
    }
  }

  /** The next event of the round takes the funding to the next stage. */
  lemma StageNext(amounts: seq<nat>, s: State, k: nat)
    requires |s.paid| == |s.participants| == |amounts| && Safe(amounts, s) && NobodyFailed(s)
    requires k < 2 * |amounts| && Stage(amounts, s, k)
    ensures Stage(amounts, Step(amounts, s, Round(|amounts|)[k]), k + 1)
  {
    hide Before, Sum;
    var i := k / 2;
    assert ParticipantSafe(amounts, s, i);
    ShareOf(amounts, i);
    StepKeepsHoldings(amounts, s, Round(|amounts|)[k]);
    if k % 2 == 1 && s.participants[i].pending.Some? {
      CompletionHolds(amounts, s, i);
    }
  }

  lemma {:induction false} ScheduleFunds(amounts: seq<nat>, s: State, schedule: seq<Event>, k: nat)
    requires |s.paid| == |s.participants| == |amounts| && Safe(amounts, s) && NobodyFailed(s)
    requires WithoutFailure(schedule) && k <= 2 * |amounts| && Contains(schedule, Round(|amounts|)[..k])
    ensures var t := Perform(amounts, s, schedule);
            Safe(amounts, t) && NobodyFailed(t) && Stage(amounts, t, k)
    decreases |schedule|
  {
    hide Safe, Step, NobodyFailed, Stage, Before;
    if schedule == [] {
      NothingBefore(amounts, s);
    } else {
      var init, last := schedule[..|schedule| - 1], schedule[|schedule| - 1];
      var t, round := Perform(amounts, s, init), Round(|amounts|);
      if Contains(init, round[..k]) {
        ScheduleFunds(amounts, s, init, k);
        StageStays(amounts, t, last, k);
      } else {
        assert round[..k][..k - 1] == round[..k - 1];
        ScheduleFunds(amounts, s, init, k - 1);
        StageNext(amounts, t, k - 1);
      }
      StepIsSafe(amounts, t, last);
      StepKeepsHoldings(amounts, t, last);
    }
  }

  lemma NothingBefore(amounts: seq<nat>, s: State)
    requires |s.participants| == |amounts|
    ensures Stage(amounts, s, 0)
  {
  }

  lemma LastStage(amounts: seq<nat>, s: State)
    requires |s.paid| == |s.participants| == |amounts| && Safe(amounts, s) && Stage(amounts, s, 2 * |amounts|)
    ensures s.held == Sum(amounts) && s.paid == amounts
  {
    hide Safe, Sum;
    assert amounts[..|amounts|] == amounts;
    FundedMeansPaid(amounts, s);
  }

  /** Whatever happened before: as long as nobody fails, any schedule that gives every participant its turn,
      in order, funds the channel. */
  lemma ChannelGetsFunded(amounts: seq<nat>, events: seq<Event>, schedule: seq<Event>)
    requires NobodyFailed(Perform(amounts, Start(|amounts|), events))
    requires WithoutFailure(schedule) && Contains(schedule, Round(|amounts|))
    ensures var t := Perform(amounts, Perform(amounts, Start(|amounts|), events), schedule);
            t.held == Sum(amounts) && t.paid == amounts
  {
    var n, s := |amounts|, Perform(amounts, Start(|amounts|), events);
    hide Perform, Step, Start, NobodyFailed, WithoutFailure, Contains, Safe, Stage, Round, Sum;
    StartIsSafe(amounts);
    PerformIsSafe(amounts, Start(n), events);
    assert Round(n)[..2 * n] == Round(n);
    ScheduleFunds(amounts, s, schedule, 2 * n);
    LastStage(amounts, Perform(amounts, s, schedule));
  }
}
