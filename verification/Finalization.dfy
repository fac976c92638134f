/** The queue of channels that are about to be finalized on chain, and what every block does to it. */
module Finalization {
  import opened Lists

  datatype Entry = Entry(channelId: string, finalizesAt: nat)

  /** What the chain says about a channel: when it finalizes, 0 for never. It does not change during a block. */
  type Chain = string -> nat

  predicate Sooner(a: Entry, b: Entry) {
    a.finalizesAt <= b.finalizesAt
  }

  ghost predicate DistinctChannels(queue: seq<Entry>) {
    forall i, j :: 0 <= i < j < |queue| ==> queue[i].channelId != queue[j].channelId
  }

  /** Sorted by time, with one entry for every channel. */
  ghost predicate InOrder(queue: seq<Entry>) {
    SortedBy(queue, Sooner) && DistinctChannels(queue)
  }

  predicate HasChannel(queue: seq<Entry>, channelId: string) {
    exists i :: 0 <= i < |queue| && queue[i].channelId == channelId
  }

  function Enqueue(queue: seq<Entry>, e: Entry): seq<Entry> {
    if HasChannel(queue, e.channelId) then queue else StableSort(queue + [e], Sooner)
  }

  /** A channel is queued once, whatever its time. */
  lemma EnqueueMeans(queue: seq<Entry>, e: Entry)
    ensures if exists x :: x in queue && x.channelId == e.channelId then Enqueue(queue, e) == queue
            else multiset(Enqueue(queue, e)) == multiset(queue) + multiset{e}
  {
    if x :| x in queue && x.channelId == e.channelId {
      var i :| 0 <= i < |queue| && queue[i] == x;
    } else {
      forall i | 0 <= i < |queue| ensures queue[i].channelId != e.channelId {
        assert queue[i] in queue;
      }
      SortMultiset(queue + [e], Sooner);
    }
  }

  // ----- termination -----

  /** A stale entry may come back once, with the time that the chain knows. */
  function Weight(queue: seq<Entry>, chain: Chain): nat {
    if queue == [] then 0
    else
      var last := queue[|queue| - 1];
      Weight(queue[..|queue| - 1], chain) + if chain(last.channelId) == last.finalizesAt then 1 else 2
  }

  lemma {:induction false} WeightOfConcat(queue: seq<Entry>, more: seq<Entry>, chain: Chain)
    ensures Weight(queue + more, chain) == Weight(queue, chain) + Weight(more, chain)
  {
    if more == [] {
      assert queue + more == queue;
    } else {
      assert (queue + more)[..|queue + more| - 1] == queue + more[..|more| - 1];
      WeightOfConcat(queue, more[..|more| - 1], chain);
    }
  }

  lemma {:induction false} WeightOfInsert(e: Entry, queue: seq<Entry>, chain: Chain)
    ensures Weight(Insert(e, queue, Sooner), chain) == Weight(queue, chain) + Weight([e], chain)
  {
    if queue == [] || Sooner(queue[|queue| - 1], e) {
      WeightOfConcat(queue, [e], chain);
    } else {
      var init, last := queue[..|queue| - 1], queue[|queue| - 1];
      WeightOfInsert(e, init, chain);
      WeightOfConcat(Insert(e, init, Sooner), [last], chain);
    }
  }

  lemma {:induction false} WeightOfSort(queue: seq<Entry>, chain: Chain)
    ensures Weight(StableSort(queue, Sooner), chain) == Weight(queue, chain)
  {
    if queue == [] {
      assert StableSort(queue, Sooner) == queue;
    } else {
      var init, last := queue[..|queue| - 1], queue[|queue| - 1];
      var sorted := StableSort(init, Sooner);
      assert StableSort(queue, Sooner) == Insert(last, sorted, Sooner);
      assert queue == init + [last];
      hide Weight, StableSort, Insert;
      WeightOfSort(init, chain);
      WeightOfInsert(last, sorted, chain);
      WeightOfConcat(init, [last], chain);
    }
  }

  /** Adding an entry that agrees with the chain costs one at most; taking a stale one away gains two. */
  lemma WeightOfAdded(queue: seq<Entry>, e: Entry, chain: Chain)
    requires chain(e.channelId) == e.finalizesAt
    ensures Weight(Enqueue(queue, e), chain) <= Weight(queue, chain) + 1
  {
    WeightOfSort(queue + [e], chain);
    WeightOfConcat(queue, [e], chain);
  }

  lemma WeightOfRest(queue: seq<Entry>, chain: Chain)
    requires queue != []
    ensures Weight(queue, chain)
            == Weight(queue[1..], chain) + if chain(queue[0].channelId) == queue[0].finalizesAt then 1 else 2
  {
    assert queue == [queue[0]] + queue[1..];
    WeightOfConcat([queue[0]], queue[1..], chain);
  }

  // ----- one block -----

  /** The queue that a block leaves, and the channels it reports as finalized. */
  function Drain(queue: seq<Entry>, chain: Chain, timestamp: nat): (seq<Entry>, seq<Entry>)
    decreases Weight(queue, chain)
  {
    if queue == [] then ([], [])
    else
      var (head, rest) := (queue[0], queue[1..]);
      WeightOfRest(queue, chain);
      if head.finalizesAt > timestamp then (Enqueue(rest, head), [])
      else
        var finalizesAt := chain(head.channelId);
        if finalizesAt == head.finalizesAt then
          var (left, notified) := Drain(rest, chain, timestamp);
          (left, [head] + notified)
        else if finalizesAt != 0 then
          WeightOfAdded(rest, Entry(head.channelId, finalizesAt), chain);
          Drain(Enqueue(rest, Entry(head.channelId, finalizesAt)), chain, timestamp)
        else
          Drain(rest, chain, timestamp)
  }

  class ChainService {
    var finalizingChannels: seq<Entry>
    /** The reports that went to the trackers of the channels. */
    var notifications: seq<Entry>

    constructor ()
      ensures finalizingChannels == [] && notifications == []
    {
      finalizingChannels, notifications := [], [];
    }

    method AddFinalizingChannel(arg: Entry)
      modifies this`finalizingChannels
      ensures finalizingChannels == Enqueue(old(finalizingChannels), arg)
      ensures if exists e :: e in old(finalizingChannels) && e.channelId == arg.channelId then
                finalizingChannels == old(finalizingChannels)
              else
                multiset(finalizingChannels) == multiset(old(finalizingChannels)) + multiset{arg}
      ensures InOrder(old(finalizingChannels)) ==> InOrder(finalizingChannels)
    {
      ghost var before := finalizingChannels;
      EnqueueMeans(before, arg);
      if !HasChannel(finalizingChannels, arg.channelId) {
        finalizingChannels := finalizingChannels + [arg];
        finalizingChannels := StableSort(finalizingChannels, Sooner);
      }
      if InOrder(before) {
        EnqueueKeepsInOrder(before, arg);
      }
    }

    method CheckFinalizingChannels(chain: Chain, timestamp: nat)
      modifies this
      ensures (finalizingChannels, notifications)
              == (Drain(old(finalizingChannels), chain, timestamp).0,
                  old(notifications) + Drain(old(finalizingChannels), chain, timestamp).1)
      decreases Weight(finalizingChannels, chain)
    {
      hide Weight, Enqueue, InOrder, HasChannel;
      assert notifications + [] == notifications;
      if finalizingChannels == [] {
        return;
      }
      WeightOfRest(finalizingChannels, chain);
      var finalizingChannel := finalizingChannels[0];
      finalizingChannels := finalizingChannels[1..];
      if finalizingChannel.finalizesAt > timestamp {
        AddFinalizingChannel(finalizingChannel);
        return;
      }
      var channelId := finalizingChannel.channelId;
      var finalizesAt := chain(channelId);
      if finalizesAt == finalizingChannel.finalizesAt {
        notifications := notifications + [finalizingChannel];
      } else if finalizesAt != 0 {
        WeightOfAdded(finalizingChannels, Entry(channelId, finalizesAt), chain);
        AddFinalizingChannel(Entry(channelId, finalizesAt));
      }
      ghost var reported := Drain(finalizingChannels, chain, timestamp).1;
      CheckFinalizingChannels(chain, timestamp);
      assert old(notifications) + [finalizingChannel] + reported == old(notifications) + ([finalizingChannel] + reported);
    }
  }

  // ----- what stays in the queue -----

  lemma SoonerIsTotal()
    ensures TotalPreorder(Sooner)
  {
  }

  lemma AddedElements(queue: seq<Entry>, e: Entry)
    requires !HasChannel(queue, e.channelId)
    ensures forall x :: x in Enqueue(queue, e) <==> x in queue || x == e
  {
    SortElements(queue + [e], Sooner);
  }

  lemma {:induction false} InsertKeepsDistinct(e: Entry, queue: seq<Entry>)
    requires DistinctChannels(queue) && !HasChannel(queue, e.channelId)
    ensures DistinctChannels(Insert(e, queue, Sooner))
    ensures forall x :: x in Insert(e, queue, Sooner) <==> x in queue || x == e
  {
    if queue != [] && !Sooner(queue[|queue| - 1], e) {
      var init, last := queue[..|queue| - 1], queue[|queue| - 1];
      assert queue == init + [last];
      InsertKeepsDistinct(e, init);
      assert last.channelId != e.channelId && !HasChannel(init, last.channelId);
      var r := Insert(e, init, Sooner);
      forall i | 0 <= i < |r| ensures r[i].channelId != last.channelId {
        assert r[i] in init || r[i] == e;
      }
    }
  }

  lemma EnqueueKeepsInOrder(queue: seq<Entry>, e: Entry)
    requires InOrder(queue)
    ensures InOrder(Enqueue(queue, e))
  {
    if !HasChannel(queue, e.channelId) {
      SoonerIsTotal();
      assert (queue + [e])[..|queue|] == queue;
      SortOfSorted(queue, Sooner);
      InsertSorted(e, queue, Sooner);
      InsertKeepsDistinct(e, queue);
    }
  }

  // ----- what a block means -----

  /** After a block, e is still queued: it was not due, or the chain has put its channel off. */
  ghost predicate Stays(queue: seq<Entry>, chain: Chain, timestamp: nat, e: Entry) {
    && e.finalizesAt > timestamp
    && (e in queue
        || (chain(e.channelId) == e.finalizesAt && DueChannel(queue, timestamp, e.channelId)))
  }

  /** An entry for the channel is due. */
  ghost predicate DueChannel(queue: seq<Entry>, timestamp: nat, channelId: string) {
    exists t: nat :: t <= timestamp && Entry(channelId, t) in queue
  }

  /** e is reported: its channel is due, and the chain knows that it is finalized by now. */
  ghost predicate Reported(queue: seq<Entry>, chain: Chain, timestamp: nat, e: Entry) {
    && chain(e.channelId) == e.finalizesAt <= timestamp
    && DueChannel(queue, timestamp, e.channelId)
    && (e.finalizesAt != 0 || e in queue)
  }

  /** What a block's outcome looks like, without saying how it is computed. */
  ghost predicate Processed(queue: seq<Entry>, chain: Chain, timestamp: nat, left: seq<Entry>, notified: seq<Entry>) {
    && InOrder(left) && DistinctChannels(notified)
    && (forall e :: e in left <==> Stays(queue, chain, timestamp, e))
    && (forall e :: e in notified <==> Reported(queue, chain, timestamp, e))
  }

  /** A block keeps the queue in order, leaves exactly the entries that are not due or have been put off, and
      reports exactly once each due channel that the chain has finalized by the time of the block. */
  lemma {:induction false} DrainMeans(queue: seq<Entry>, chain: Chain, timestamp: nat)
    requires InOrder(queue)
    ensures Processed(queue, chain, timestamp, Drain(queue, chain, timestamp).0, Drain(queue, chain, timestamp).1)
    decreases Weight(queue, chain)
  {
    if queue == [] {
    } else {
      var head, rest := queue[0], queue[1..];
      WeightOfRest(queue, chain);
      RestIsInOrder(queue);
      if head.finalizesAt > timestamp {
        NothingDue(queue, chain, timestamp);
      } else if chain(head.channelId) == head.finalizesAt {
        DrainMeans(rest, chain, timestamp);
        var (left, notified) := Drain(rest, chain, timestamp);
        HeadReported(queue, chain, timestamp, left, notified);
      } else if chain(head.channelId) != 0 {
        var e := Entry(head.channelId, chain(head.channelId));
        WeightOfAdded(rest, e, chain);
        EnqueueKeepsInOrder(rest, e);
        DrainMeans(Enqueue(rest, e), chain, timestamp);
        var (left, notified) := Drain(Enqueue(rest, e), chain, timestamp);
        HeadPutOff(queue, chain, timestamp, left, notified);
      } else {
        DrainMeans(rest, chain, timestamp);
        var (left, notified) := Drain(rest, chain, timestamp);
        HeadDropped(queue, chain, timestamp, left, notified);
      }
    }
  }

  lemma RestIsInOrder(queue: seq<Entry>)
    requires InOrder(queue) && queue != []
    ensures InOrder(queue[1..]) && !HasChannel(queue[1..], queue[0].channelId)
    ensures forall e :: e in queue <==> e == queue[0] || e in queue[1..]
    ensures forall e :: e in queue ==> e.finalizesAt >= queue[0].finalizesAt
  {
    assert queue == [queue[0]] + queue[1..];
  }

  lemma NothingDue(queue: seq<Entry>, chain: Chain, timestamp: nat)
    requires InOrder(queue) && queue != [] && queue[0].finalizesAt > timestamp
    ensures Processed(queue, chain, timestamp, Enqueue(queue[1..], queue[0]), [])
  {
    RestIsInOrder(queue);
    EnqueueKeepsInOrder(queue[1..], queue[0]);
    AddedElements(queue[1..], queue[0]);
  }

  lemma NoChannel(queue: seq<Entry>, e: Entry)
    requires !HasChannel(queue, e.channelId)
    ensures e !in queue
  {
  }

  lemma NotDue(queue: seq<Entry>, timestamp: nat, channelId: string)
    requires !HasChannel(queue, channelId)
    ensures !DueChannel(queue, timestamp, channelId)
  {
  }

  lemma HeadReported(queue: seq<Entry>, chain: Chain, timestamp: nat, left: seq<Entry>, notified: seq<Entry>)
    requires InOrder(queue) && queue != [] && chain(queue[0].channelId) == queue[0].finalizesAt <= timestamp
    requires Processed(queue[1..], chain, timestamp, left, notified)
    ensures Processed(queue, chain, timestamp, left, [queue[0]] + notified)
  {
    RestIsInOrder(queue);
    NotDue(queue[1..], timestamp, queue[0].channelId);
    forall e ensures DueChannel(queue, timestamp, e) <==> DueChannel(queue[1..], timestamp, e) || e == queue[0].channelId {
      assert queue[0] == Entry(queue[0].channelId, queue[0].finalizesAt);
    }
    forall i | 0 <= i < |notified| ensures notified[i].channelId != queue[0].channelId {
      assert notified[i] in notified;
    }
  }

  lemma HeadPutOff(queue: seq<Entry>, chain: Chain, timestamp: nat, left: seq<Entry>, notified: seq<Entry>)
    requires InOrder(queue) && queue != [] && queue[0].finalizesAt <= timestamp
    requires chain(queue[0].channelId) != 0 && chain(queue[0].channelId) != queue[0].finalizesAt
    requires Processed(Enqueue(queue[1..], Entry(queue[0].channelId, chain(queue[0].channelId))), chain, timestamp,
                       left, notified)
    ensures Processed(queue, chain, timestamp, left, notified)
  {
    var e := Entry(queue[0].channelId, chain(queue[0].channelId));
    var next := Enqueue(queue[1..], e);
    RestIsInOrder(queue);
    AddedElements(queue[1..], e);
    NoChannel(queue[1..], e);
    forall c | c != e.channelId ensures DueChannel(queue, timestamp, c) <==> DueChannel(next, timestamp, c) {}
    assert DueChannel(queue, timestamp, e.channelId) by {
      assert queue[0] == Entry(e.channelId, queue[0].finalizesAt);
    }
    assert DueChannel(next, timestamp, e.channelId) <==> e.finalizesAt <= timestamp;
  }

  lemma HeadDropped(queue: seq<Entry>, chain: Chain, timestamp: nat, left: seq<Entry>, notified: seq<Entry>)
    requires InOrder(queue) && queue != [] && queue[0].finalizesAt <= timestamp
    requires chain(queue[0].channelId) == 0 != queue[0].finalizesAt
    requires Processed(queue[1..], chain, timestamp, left, notified)
    ensures Processed(queue, chain, timestamp, left, notified)
  {
    RestIsInOrder(queue);
    NotDue(queue[1..], timestamp, queue[0].channelId);
    forall c | c != queue[0].channelId ensures DueChannel(queue, timestamp, c) <==> DueChannel(queue[1..], timestamp, c) {}
  }

  /** The channel is due, and the chain has finalized it at that time. */
  ghost predicate Finalized(queue: seq<Entry>, chain: Chain, timestamp: nat, e: Entry) {
    && chain(e.channelId) == e.finalizesAt && 0 < e.finalizesAt <= timestamp
    && DueChannel(queue, timestamp, e.channelId)
  }

  /** A block reports just the due channels with a positive finalization time up to now, exactly if no queued
      entry has time zero while the chain has none for its channel either. */
  lemma ReportsExactly(queue: seq<Entry>, chain: Chain, timestamp: nat)
    requires InOrder(queue)
    ensures (forall e :: e in Drain(queue, chain, timestamp).1 <==> Finalized(queue, chain, timestamp, e))
            <==> forall e :: e in queue && e.finalizesAt == 0 ==> chain(e.channelId) != 0
  {
    hide Drain, InOrder;
    DrainMeans(queue, chain, timestamp);
    forall e | e in queue && e.finalizesAt == 0 && chain(e.channelId) == 0
      ensures e in Drain(queue, chain, timestamp).1 && !Finalized(queue, chain, timestamp, e)
    {
      assert e == Entry(e.channelId, 0);
      assert Reported(queue, chain, timestamp, e);
    }
  }

  /** An entry with time zero is reported of a channel that the chain does not finalize. */
  lemma ZeroIsReported(channelId: string, timestamp: nat)
    ensures Drain([Entry(channelId, 0)], _ => 0, timestamp).1 == [Entry(channelId, 0)]
  {
    var chain: Chain := _ => 0;
    assert Drain([], chain, timestamp).1 == [];
  }

  /** As long as the chain agrees with the queue, the due channels are reported in the order of the queue. */
  lemma {:induction false} DueInOrder(queue: seq<Entry>, chain: Chain, timestamp: nat)
    requires InOrder(queue) && forall e :: e in queue ==> chain(e.channelId) == e.finalizesAt
    ensures var notified := Drain(queue, chain, timestamp).1;
            && notified <= queue
            && forall i :: 0 <= i < |queue| ==> (i < |notified| <==> queue[i].finalizesAt <= timestamp)
  {
    if queue != [] {
      var head, rest := queue[0], queue[1..];
      RestIsInOrder(queue);
      if head.finalizesAt <= timestamp {
        DueInOrder(rest, chain, timestamp);
        var notified := Drain(rest, chain, timestamp).1;
        assert Drain(queue, chain, timestamp).1 == [head] + notified;
        forall i | 0 <= i < |queue| ensures i < |notified| + 1 <==> queue[i].finalizesAt <= timestamp {
          assert i > 0 ==> queue[i] == rest[i - 1];
        }
      } else {
        assert forall i :: 0 <= i < |queue| ==> queue[i] in queue;
      }
    }
  }

  // ----- several blocks -----

  /** Two blocks with the same chain status leave and report what the later one alone would. */
  lemma BlocksCompose(queue: seq<Entry>, chain: Chain, first: nat, second: nat)
    requires InOrder(queue) && first <= second
    ensures var (left, notified) := Drain(queue, chain, first);
            var (left', notified') := Drain(left, chain, second);
            var (all, reported) := Drain(queue, chain, second);
            && (forall e :: e in left' <==> e in all)
            && (forall e :: e in reported <==> e in notified || e in notified')
            && (forall e :: e in notified ==> e !in notified')
  {
    var (left, notified) := Drain(queue, chain, first);
    DrainMeans(queue, chain, first);
    DrainMeans(left, chain, second);
    DrainMeans(queue, chain, second);
  }
}
