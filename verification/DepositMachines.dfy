/** What becomes of a single participant's machine while a channel is funded. */
module DepositMachines {
  import opened Options
  import opened Waterfall
  import opened Depositing

  lemma ReachableIsSafe(amounts: seq<nat>, events: seq<Event>)
    ensures Safe(amounts, Perform(amounts, Start(|amounts|), events))
  {
    StartIsSafe(amounts);
    PerformIsSafe(amounts, Start(|amounts|), events);
  }

  /** A deposit is started exactly by the news that all earlier shares are held but not all shares, in an idle
      machine, and for the holdings it sees. */
  lemma DepositStarts(amounts: seq<nat>, events: seq<Event>, e: Event, i: nat)
    requires i < |amounts|
    ensures var s := Perform(amounts, Start(|amounts|), events);
            var p, q := s.participants[i], Step(amounts, s, e).participants[i];
            && (p.pending.None? && q.pending.Some?
                <==> e == Deliver(i) && p.mode == Idle && Sum(amounts[..i]) <= s.held < Sum(amounts))
            && (q.pending.Some? && q.pending != p.pending ==> q == Participant(Submit, Some(s.held)))
  {
    var s := Perform(amounts, Start(|amounts|), events);
    ReachableIsSafe(amounts, events);
    hide Perform, Start, Sum;
    assert ParticipantSafe(amounts, s, i);
  }

  /** A failed submission changes no holdings, and leaves its machine in failure. */
  lemma SubmissionFails(amounts: seq<nat>, events: seq<Event>, i: nat)
    requires i < |amounts| && Perform(amounts, Start(|amounts|), events).participants[i].mode == Submit
    ensures var s := Perform(amounts, Start(|amounts|), events);
            var t := Step(amounts, s, Fail(i));
            t == s.(participants := s.participants[i := Participant(Failure, None)])
  {
    var s := Perform(amounts, Start(|amounts|), events);
    ReachableIsSafe(amounts, events);
    hide Perform, Start;
    assert ParticipantSafe(amounts, s, i);
  }

  /** The machine has given up, and is told that the channel is funded at most. */
  ghost predicate GivenUp(p: Participant) {
    (p.mode == Failure || p.mode == Done) && p.pending.None?
  }

  lemma {:induction false} StaysGivenUp(amounts: seq<nat>, s: State, events: seq<Event>, i: nat)
    requires |s.paid| == |s.participants| == |amounts| && i < |amounts| && GivenUp(s.participants[i])
    ensures var t := Perform(amounts, s, events); GivenUp(t.participants[i]) && t.paid[i] == s.paid[i]
  {
    hide Before;
    if events != [] {
      var t := Perform(amounts, s, events[..|events| - 1]);
      StaysGivenUp(amounts, s, events[..|events| - 1], i);
      assert Perform(amounts, s, events) == Step(amounts, t, events[|events| - 1]);
    }
  }

  /** After that it never submits a deposit again, and pays nothing. */
  lemma FailedNeverPays(amounts: seq<nat>, events: seq<Event>, more: seq<Event>, i: nat)
    requires i < |amounts| && Perform(amounts, Start(|amounts|), events).participants[i].mode == Failure
    ensures var s := Perform(amounts, Start(|amounts|), events);
            var t := Perform(amounts, s, more);
            t.participants[i].mode in {Failure, Done} && t.participants[i].pending.None? && t.paid[i] == s.paid[i]
  {
    var s := Perform(amounts, Start(|amounts|), events);
    ReachableIsSafe(amounts, events);
    hide Perform, Start;
    assert ParticipantSafe(amounts, s, i);
    StaysGivenUp(amounts, s, more, i);
  }

  /** Once the channel is funded it stays so, and whoever hears of it is done, failed or not. */
  lemma {:induction false} EverybodyLearns(amounts: seq<nat>, s: State, events: seq<Event>, i: nat)
    requires |s.paid| == |s.participants| == |amounts| && i < |amounts| && s.held >= Sum(amounts)
    ensures Perform(amounts, s, events).held >= Sum(amounts)
    ensures Deliver(i) in events || s.participants[i].mode == Done ==>
              Perform(amounts, s, events).participants[i].mode == Done
  {
    hide Before, Sum;
    if events != [] {
      var init, last := events[..|events| - 1], events[|events| - 1];
      var t := Perform(amounts, s, init);
      EverybodyLearns(amounts, s, init, i);
      assert events == init + [last];
      assert Perform(amounts, s, events) == Step(amounts, t, last);
    }
  }

  /** So a round without failures, followed by news for everybody, ends with all machines done. */
  lemma AllGetDone(amounts: seq<nat>, events: seq<Event>, schedule: seq<Event>, more: seq<Event>)
    requires NobodyFailed(Perform(amounts, Start(|amounts|), events))
    requires WithoutFailure(schedule) && Contains(schedule, Round(|amounts|))
    requires forall i: nat :: i < |amounts| ==> Deliver(i) in more
    ensures var s := Perform(amounts, Perform(amounts, Start(|amounts|), events), schedule);
            var t := Perform(amounts, s, more);
            forall i :: 0 <= i < |amounts| ==> t.participants[i].mode == Done
  {
    hide Perform, Start, NobodyFailed, WithoutFailure, Contains, Round, Sum;
    var s := Perform(amounts, Perform(amounts, Start(|amounts|), events), schedule);
    ChannelGetsFunded(amounts, events, schedule);
    forall i | 0 <= i < |amounts| ensures Perform(amounts, s, more).participants[i].mode == Done {
      EverybodyLearns(amounts, s, more, i);
    }
  }
}
