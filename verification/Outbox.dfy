/** The messages that a call of the server wallet sends: queued one by one, and merged by recipient. */
module Outbox {
  import opened Lists
  import opened Options
  import opened MessageKeys

  datatype Payload = Payload(walletVersion: string, signedStates: Option<seq<Item>>, requests: Option<seq<Item>>,
                             objectives: Option<seq<Item>>)

  datatype Notice = Notice(sender: string, recipient: string, data: Payload)

  datatype MergeResult = Merged(outgoing: seq<Notice>) | DifferentSenders

  // ----- merging -----

  function Recipients(outgoing: seq<Notice>): (r: seq<string>)
    ensures |r| == |outgoing| && forall i :: 0 <= i < |r| ==> r[i] == outgoing[i].recipient
  {
    seq(|outgoing|, i requires 0 <= i < |outgoing| => outgoing[i].recipient)
  }

  /** The recipients, once each, in the order in which their group is enumerated. */
  function Groups(outgoing: seq<Notice>): seq<string> {
    StableSort(Unique(Recipients(outgoing)), KeyBefore)
  }

  datatype Kind = SignedStates | Requests | Objectives

  function ItemsOf(data: Payload, kind: Kind): seq<Item> {
    var items := match kind
      case SignedStates => data.signedStates
      case Requests => data.requests
      case Objectives => data.objectives;
    if items.Some? then items.value else []
  }

  /** Everything of one kind that is sent to the recipient. */
  function Collected(outgoing: seq<Notice>, recipient: string, kind: Kind): seq<Item> {
    if outgoing == [] then []
    else
      var last := outgoing[|outgoing| - 1];
      Collected(outgoing[..|outgoing| - 1], recipient, kind)
      + if last.recipient == recipient then ItemsOf(last.data, kind) else []
  }

  function UniqueAndSorted(items: seq<Item>): seq<Item> {
    StableSort(Unique(items), SortsBefore)
  }

  function Present(items: seq<Item>): Option<seq<Item>> {
    if |items| > 0 then Some(items) else None
  }

  function MergedFor(version: string, outgoing: seq<Notice>, sender: string, recipient: string): Notice {
    Notice(sender, recipient,
           Payload(version,
                   Present(UniqueAndSorted(Collected(outgoing, recipient, SignedStates))),
                   Present(UniqueAndSorted(Collected(outgoing, recipient, Requests))),
                   Present(UniqueAndSorted(Collected(outgoing, recipient, Objectives)))))
  }

  function MergeOutgoing(version: string, outgoing: seq<Notice>): MergeResult {
    if outgoing == [] then Merged([])
    else if exists i :: 0 <= i < |outgoing| && outgoing[i].sender != outgoing[0].sender then DifferentSenders
    else
      var groups := Groups(outgoing);
      Merged(seq(|groups|, g requires 0 <= g < |groups| =>
               MergedFor(version, outgoing, outgoing[0].sender, groups[g])))
  }

  /** Messages, outbox and output of a call: each one merges what the one before has merged. */
  function AllMessages(version: string, messages: seq<Notice>): MergeResult {
    MergeOutgoing(version, messages)
  }

  function OutboxOf(version: string, messages: seq<Notice>): MergeResult {
    var all := AllMessages(version, messages);
    if all.Merged? then MergeOutgoing(version, all.outgoing) else all
  }

  function Output(version: string, messages: seq<Notice>): MergeResult {
    var outbox := OutboxOf(version, messages);
    if outbox.Merged? then MergeOutgoing(version, outbox.outgoing) else outbox
  }

  // ----- lossless -----

  lemma GroupsMean(outgoing: seq<Notice>)
    ensures NoDuplicates(Groups(outgoing)) && SortedBy(Groups(outgoing), KeyBefore)
    ensures forall x :: x in Groups(outgoing) <==> exists n :: n in outgoing && n.recipient == x
  {
    KeysAreOrdered();
    var recipients := Recipients(outgoing);
    SortNoDuplicates(Unique(recipients), KeyBefore);
    SortIsSorted(Unique(recipients), KeyBefore);
    SortElements(Unique(recipients), KeyBefore);
    forall x ensures x in recipients <==> exists n :: n in outgoing && n.recipient == x {
      if n :| n in outgoing && n.recipient == x {
        var i :| 0 <= i < |outgoing| && outgoing[i] == n;
        assert recipients[i] == x;
      }
      if x in recipients {
        var i :| 0 <= i < |recipients| && recipients[i] == x;
        assert outgoing[i] in outgoing;
      }
    }
  }

  lemma {:induction false} CollectedMeans(outgoing: seq<Notice>, recipient: string, kind: Kind)
    ensures forall x :: x in Collected(outgoing, recipient, kind) <==>
              exists n :: n in outgoing && n.recipient == recipient && x in ItemsOf(n.data, kind)
  {
    hide ItemsOf;
    if outgoing != [] {
      var init, last := outgoing[..|outgoing| - 1], outgoing[|outgoing| - 1];
      CollectedMeans(init, recipient, kind);
      assert outgoing == init + [last];
      assert forall n :: n in outgoing <==> n in init || n == last;
    }
  }

  lemma UniqueAndSortedMeans(items: seq<Item>)
    ensures NoDuplicates(UniqueAndSorted(items)) && SortedBy(UniqueAndSorted(items), SortsBefore)
    ensures forall x :: x in UniqueAndSorted(items) <==> x in items
  {
    SortingIsTotal();
    SortNoDuplicates(Unique(items), SortsBefore);
    SortIsSorted(Unique(items), SortsBefore);
    SortElements(Unique(items), SortsBefore);
  }

  ghost predicate InMessageOrder(items: seq<Item>) {
    forall i, j :: 0 <= i < j < |items| ==> MayPrecede(items[i], items[j])
  }

  lemma MessageOrderMeans(items: seq<Item>)
    ensures InMessageOrder(items) <==> SortedBy(items, SortsBefore)
  {
    hide SortsBefore, MayPrecede;
    forall i, j | 0 <= i < j < |items| ensures SortsBefore(items[i], items[j]) <==> MayPrecede(items[i], items[j]) {
      SortsBeforeMeans(items[i], items[j]);
    }
  }

  /** A message to a is queued before any to b. */
  ghost predicate AddressedFirst(outgoing: seq<Notice>, a: string, b: string) {
    exists i :: 0 <= i < |outgoing| && outgoing[i].recipient == a
      && forall j :: 0 <= j <= i ==> outgoing[j].recipient != b
  }

  /** Recipients that look like array indices are served first, by number, all others as they were first addressed. */
  ghost predicate ServedBefore(outgoing: seq<Notice>, a: string, b: string) {
    if IsElement(a) && IsElement(b) then exists m: nat, n: nat :: m <= n && a == Shown(m) && b == Shown(n)
    else !IsElement(b) && (!IsElement(a) ==> AddressedFirst(outgoing, a, b))
  }

  lemma GroupsInOrder(outgoing: seq<Notice>, g: nat, h: nat)
    requires g < h < |Groups(outgoing)|
    ensures ServedBefore(outgoing, Groups(outgoing)[g], Groups(outgoing)[h])
  {
    hide IsElement, KeyBefore, StableSort;
    var a, b := Groups(outgoing)[g], Groups(outgoing)[h];
    GroupsMean(outgoing);
    KeyBeforeMeans(a, b);
    KeyBeforeMeans(b, a);
    if !IsElement(a) && !IsElement(b) {
      TiesKeepOrder(Recipients(outgoing), KeyBefore, g, h);
      var recipients := Recipients(outgoing);
      var i :| 0 <= i < |recipients| && recipients[i] == a && b !in recipients[..i + 1];
      forall j | 0 <= j <= i ensures outgoing[j].recipient != b {
        assert recipients[..i + 1][j] == outgoing[j].recipient;
      }
    }
  }

  /** A list as it comes out of a merge: sorted, and without duplicates. */
  ghost predicate SortedUnique(items: seq<Item>) {
    NoDuplicates(items) && SortedBy(items, SortsBefore)
  }

  /** x is sent to the recipient by one of the notices. */
  ghost predicate Sends(outgoing: seq<Notice>, recipient: string, kind: Kind, x: Item) {
    exists n :: n in outgoing && n.recipient == recipient && x in ItemsOf(n.data, kind)
  }

  /** The items of one kind are those sent to the recipient, sorted and without duplicates. */
  ghost predicate HoldsJust(outgoing: seq<Notice>, recipient: string, data: Payload, kind: Kind) {
    && NoDuplicates(ItemsOf(data, kind)) && InMessageOrder(ItemsOf(data, kind))
    && forall x :: x in ItemsOf(data, kind) <==> Sends(outgoing, recipient, kind, x)
  }

  ghost predicate HoldsAll(version: string, outgoing: seq<Notice>, m: Notice) {
    && (forall kind :: HoldsJust(outgoing, m.recipient, m.data, kind))
    && m.data.walletVersion == version
    && m.data.signedStates != Some([]) && m.data.requests != Some([]) && m.data.objectives != Some([])
  }

  /** merged carries to every recipient what outgoing does, in one message, sorted and once each. */
  ghost predicate Delivers(version: string, outgoing: seq<Notice>, merged: seq<Notice>) {
    && (forall g, h :: 0 <= g < h < |merged| ==>
          && merged[g].recipient != merged[h].recipient
          && ServedBefore(outgoing, merged[g].recipient, merged[h].recipient))
    && (forall n :: n in outgoing ==> exists m :: m in merged && m.recipient == n.recipient)
    && (forall m :: m in merged ==> exists n :: n in outgoing && n.recipient == m.recipient && n.sender == m.sender)
    && (forall m :: m in merged ==> HoldsAll(version, outgoing, m))
  }

  lemma MergedItems(version: string, outgoing: seq<Notice>, sender: string, recipient: string, kind: Kind)
    ensures ItemsOf(MergedFor(version, outgoing, sender, recipient).data, kind)
            == UniqueAndSorted(Collected(outgoing, recipient, kind))
  {
    hide UniqueAndSorted, Collected;
  }

  lemma MergedItemsMean(version: string, outgoing: seq<Notice>, sender: string, recipient: string, kind: Kind)
    ensures HoldsJust(outgoing, recipient, MergedFor(version, outgoing, sender, recipient).data, kind)
  {
    hide UniqueAndSorted, Collected, MergedFor, ItemsOf;
    MergedItems(version, outgoing, sender, recipient, kind);
    CollectedMeans(outgoing, recipient, kind);
    UniqueAndSortedMeans(Collected(outgoing, recipient, kind));
    MessageOrderMeans(UniqueAndSorted(Collected(outgoing, recipient, kind)));
  }

  lemma MergedSortedUnique(version: string, outgoing: seq<Notice>, sender: string, recipient: string, kind: Kind)
    ensures SortedUnique(ItemsOf(MergedFor(version, outgoing, sender, recipient).data, kind))
  {
    hide UniqueAndSorted, Collected, MergedFor, ItemsOf;
    MergedItems(version, outgoing, sender, recipient, kind);
    UniqueAndSortedMeans(Collected(outgoing, recipient, kind));
  }

  /** Merging loses nothing, invents nothing and repeats nothing; it fails only for different senders. */
  lemma MergeDelivers(version: string, outgoing: seq<Notice>)
    ensures var result := MergeOutgoing(version, outgoing);
            if result.Merged? then Delivers(version, outgoing, result.outgoing)
            else exists m, n :: m in outgoing && n in outgoing && m.sender != n.sender
  {
    var result := MergeOutgoing(version, outgoing);
    hide UniqueAndSorted, Collected, ItemsOf, Groups;
    if result.DifferentSenders? {
      var i :| 0 <= i < |outgoing| && outgoing[i].sender != outgoing[0].sender;
      assert outgoing[i] in outgoing && outgoing[0] in outgoing;
    } else if outgoing != [] {
      MergedDelivers(version, outgoing, result.outgoing);
    }
  }

  lemma MergedHeader(version: string, outgoing: seq<Notice>, sender: string, recipient: string)
    ensures var m := MergedFor(version, outgoing, sender, recipient);
            && m.recipient == recipient && m.sender == sender && m.data.walletVersion == version
            && m.data.signedStates != Some([]) && m.data.requests != Some([]) && m.data.objectives != Some([])
  {
    hide UniqueAndSorted, Collected;
  }

  lemma MergedHoldsAll(version: string, outgoing: seq<Notice>, sender: string, recipient: string)
    ensures HoldsAll(version, outgoing, MergedFor(version, outgoing, sender, recipient))
  {
    hide MergedFor, HoldsJust;
    MergedHeader(version, outgoing, sender, recipient);
    forall kind
      ensures HoldsJust(outgoing, recipient, MergedFor(version, outgoing, sender, recipient).data, kind)
    {
      MergedItemsMean(version, outgoing, sender, recipient, kind);
    }
  }

  /** Every recipient gets one notice, and only recipients get one. */
  lemma MergedRecipients(outgoing: seq<Notice>, merged: seq<Notice>, sender: string)
    requires forall n :: n in outgoing ==> n.sender == sender
    requires |merged| == |Groups(outgoing)|
    requires forall g :: 0 <= g < |merged| ==> merged[g].recipient == Groups(outgoing)[g] && merged[g].sender == sender
    ensures forall g, h :: 0 <= g < h < |merged| ==>
              && merged[g].recipient != merged[h].recipient
              && ServedBefore(outgoing, merged[g].recipient, merged[h].recipient)
    ensures forall n :: n in outgoing ==> exists m :: m in merged && m.recipient == n.recipient
    ensures forall m :: m in merged ==> exists n :: n in outgoing && n.recipient == m.recipient && n.sender == m.sender
  {
    hide Groups, SortedBy, KeyBefore, ServedBefore;
    var groups := Groups(outgoing);
    GroupsMean(outgoing);
    forall g, h | 0 <= g < h < |merged|
      ensures ServedBefore(outgoing, merged[g].recipient, merged[h].recipient)
    {
      GroupsInOrder(outgoing, g, h);
    }
    forall n | n in outgoing ensures exists m :: m in merged && m.recipient == n.recipient {
      assert n.recipient in groups;
      var g :| 0 <= g < |groups| && groups[g] == n.recipient;
      assert merged[g] in merged;
    }
    forall m | m in merged ensures exists n :: n in outgoing && n.recipient == m.recipient && n.sender == m.sender {
      var g :| 0 <= g < |merged| && merged[g] == m;
      assert groups[g] in groups;
    }
  }

  lemma MergedDelivers(version: string, outgoing: seq<Notice>, merged: seq<Notice>)
    requires outgoing != [] && forall i :: 0 <= i < |outgoing| ==> outgoing[i].sender == outgoing[0].sender
    requires |merged| == |Groups(outgoing)|
    requires forall g :: 0 <= g < |merged| ==>
               merged[g] == MergedFor(version, outgoing, outgoing[0].sender, Groups(outgoing)[g])
    ensures Delivers(version, outgoing, merged)
  {
    hide Groups, MergedFor, HoldsAll, ServedBefore;
    var groups, sender := Groups(outgoing), outgoing[0].sender;
    forall g | 0 <= g < |merged|
      ensures merged[g].recipient == groups[g] && merged[g].sender == sender && HoldsAll(version, outgoing, merged[g])
    {
      MergedHeader(version, outgoing, sender, groups[g]);
      MergedHoldsAll(version, outgoing, sender, groups[g]);
    }
    MergedRecipients(outgoing, merged, sender);
  }

  // ----- idempotent -----

  lemma {:induction false} CollectedNothing(outgoing: seq<Notice>, recipient: string, kind: Kind)
    requires forall n :: n in outgoing ==> n.recipient != recipient
    ensures Collected(outgoing, recipient, kind) == []
  {
    hide ItemsOf;
    if outgoing != [] {
      assert outgoing[|outgoing| - 1] in outgoing;
      CollectedNothing(outgoing[..|outgoing| - 1], recipient, kind);
    }
  }

  /** With one message for every recipient, nothing is left to collect. */
  lemma {:induction false} CollectedOnce(outgoing: seq<Notice>, g: nat, kind: Kind)
    requires g < |outgoing|
    requires forall i, j :: 0 <= i < j < |outgoing| ==> outgoing[i].recipient != outgoing[j].recipient
    ensures Collected(outgoing, outgoing[g].recipient, kind) == ItemsOf(outgoing[g].data, kind)
  {
    hide ItemsOf;
    var init := outgoing[..|outgoing| - 1];
    if g == |outgoing| - 1 {
      forall n | n in init ensures n.recipient != outgoing[g].recipient {
        var i :| 0 <= i < |init| && init[i] == n;
      }
      CollectedNothing(init, outgoing[g].recipient, kind);
    } else {
      CollectedOnce(init, g, kind);
    }
  }

  lemma SortedUniqueStays(items: seq<Item>)
    requires SortedUnique(items)
    ensures UniqueAndSorted(items) == items
  {
    UniqueOfDistinct(items);
    SortOfSorted(items, SortsBefore);
  }

  lemma PayloadStays(version: string, merged: seq<Notice>, g: nat)
    requires g < |merged|
    requires forall i, j :: 0 <= i < j < |merged| ==> merged[i].recipient != merged[j].recipient
    requires forall kind :: SortedUnique(ItemsOf(merged[g].data, kind))
    requires merged[g].data.walletVersion == version && merged[g].data.signedStates != Some([])
             && merged[g].data.requests != Some([]) && merged[g].data.objectives != Some([])
    ensures MergedFor(version, merged, merged[g].sender, merged[g].recipient) == merged[g]
  {
    hide UniqueAndSorted, Collected, SortedUnique;
    forall kind ensures UniqueAndSorted(Collected(merged, merged[g].recipient, kind)) == ItemsOf(merged[g].data, kind) {
      CollectedOnce(merged, g, kind);
      SortedUniqueStays(ItemsOf(merged[g].data, kind));
    }
  }

  lemma GroupsStay(merged: seq<Notice>, groups: seq<string>)
    requires Recipients(merged) == groups && NoDuplicates(groups) && SortedBy(groups, KeyBefore)
    ensures Groups(merged) == groups
  {
    UniqueOfDistinct(groups);
    SortOfSorted(groups, KeyBefore);
  }

  /** Merging again a list that has one message of the right shape for every group. */
  lemma MergeOfMerged(version: string, merged: seq<Notice>, sender: string, groups: seq<string>)
    requires merged != [] && forall i :: 0 <= i < |merged| ==> merged[i].sender == sender
    requires Groups(merged) == groups && |groups| == |merged|
    requires forall g :: 0 <= g < |merged| ==> merged[g] == MergedFor(version, merged, sender, groups[g])
    ensures MergeOutgoing(version, merged) == Merged(merged)
  {
    hide Groups, MergedFor;
    var again := MergeOutgoing(version, merged);
    assert again.Merged? && again.outgoing == merged;
  }

  lemma MergeShape(version: string, outgoing: seq<Notice>, merged: seq<Notice>)
    requires outgoing != [] && MergeOutgoing(version, outgoing) == Merged(merged)
    ensures |merged| == |Groups(outgoing)| > 0
    ensures forall g :: 0 <= g < |merged| ==>
              merged[g] == MergedFor(version, outgoing, outgoing[0].sender, Groups(outgoing)[g])
  {
    hide MergedFor, Groups;
    GroupsMean(outgoing);
    assert outgoing[0] in outgoing && outgoing[0].recipient in Groups(outgoing);
  }

  /** Merging what has been merged changes nothing. */
  lemma MergeTwice(version: string, outgoing: seq<Notice>, merged: seq<Notice>)
    requires MergeOutgoing(version, outgoing) == Merged(merged)
    ensures MergeOutgoing(version, merged) == Merged(merged)
  {
    if outgoing == [] {
      assert merged == [];
    } else {
      hide Groups, MergedFor, SortedUnique, ItemsOf, MergeOutgoing, Recipients;
      var groups, sender := Groups(outgoing), outgoing[0].sender;
      MergeShape(version, outgoing, merged);
      GroupsMean(outgoing);
      forall g | 0 <= g < |merged|
        ensures merged[g].recipient == groups[g] && merged[g].sender == sender && merged[g].data.walletVersion == version
        ensures merged[g].data.signedStates != Some([]) && merged[g].data.requests != Some([])
                && merged[g].data.objectives != Some([])
      {
        MergedHeader(version, outgoing, sender, groups[g]);
      }
      assert Recipients(merged) == groups;
      GroupsStay(merged, groups);
      forall g | 0 <= g < |merged| ensures merged[g] == MergedFor(version, merged, sender, groups[g]) {
        forall kind ensures SortedUnique(ItemsOf(merged[g].data, kind)) {
          MergedSortedUnique(version, outgoing, sender, groups[g], kind);
        }
        PayloadStays(version, merged, g);
      }
      MergeOfMerged(version, merged, sender, groups);
    }
  }

  /** The three merges on the way out are one merge. */
  lemma OutputMergesOnce(version: string, messages: seq<Notice>)
    ensures Output(version, messages) == OutboxOf(version, messages) == MergeOutgoing(version, messages)
  {
    hide MergeOutgoing;
    var result := MergeOutgoing(version, messages);
    if result.Merged? {
      MergeTwice(version, messages, result.outgoing);
    }
  }

  // ----- queueing -----

  /** One message with the payload for each of the first i participants except the sender. */
  function Addressed(data: Payload, participants: seq<string>, myIndex: nat, i: nat): seq<Notice>
    requires myIndex < |participants| && i <= |participants|
  {
    if i == 0 then []
    else
      Addressed(data, participants, myIndex, i - 1)
      + if i - 1 == myIndex then [] else [Notice(participants[myIndex], participants[i - 1], data)]
  }

  /** One message with the payload has been queued for every participant but the sender, in their order. */
  ghost predicate ToOthers(data: Payload, participants: seq<string>, myIndex: nat, before: seq<Notice>,
                           after: seq<Notice>)
    requires myIndex < |participants|
  {
    && before <= after && |after| == |before| + |participants| - 1
    && (forall i :: 0 <= i < myIndex ==>
          after[|before| + i] == Notice(participants[myIndex], participants[i], data))
    && (forall i :: myIndex < i < |participants| ==>
          after[|before| + i - 1] == Notice(participants[myIndex], participants[i], data))
  }

  lemma {:induction false} AddressedAt(data: Payload, participants: seq<string>, myIndex: nat, i: nat)
    requires myIndex < |participants| && i <= |participants|
    ensures var r := Addressed(data, participants, myIndex, i);
            && |r| == (if i <= myIndex then i else i - 1)
            && forall k :: 0 <= k < |r| ==>
                 r[k] == Notice(participants[myIndex], participants[if k < myIndex then k else k + 1], data)
  {
    if i > 0 {
      AddressedAt(data, participants, myIndex, i - 1);
    }
  }

  lemma AddressedToOthers(data: Payload, participants: seq<string>, myIndex: nat, before: seq<Notice>)
    requires myIndex < |participants|
    ensures ToOthers(data, participants, myIndex, before,
                     before + Addressed(data, participants, myIndex, |participants|))
  {
    hide Addressed;
    AddressedAt(data, participants, myIndex, |participants|);
  }

  /** An objective of the wallet, and the form in which it is sent. */
  datatype Objective = Objective(kind: string, item: Item)

  predicate IsShared(objective: Objective) {
    objective.kind == "OpenChannel" || objective.kind == "CloseChannel"
  }

  class EngineResponse {
    const version: string
    var messages: seq<Notice>

    constructor (version: string)
      ensures this.version == version && messages == []
    {
      this.version := version;
      messages := [];
    }

    /** Queues the payload for everybody else. */
    method QueueForOthers(data: Payload, myIndex: nat, participants: seq<string>)
      requires myIndex < |participants|
      modifies this`messages
      ensures messages == old(messages) + Addressed(data, participants, myIndex, |participants|)
      ensures ToOthers(data, participants, myIndex, old(messages), messages)
    {
      AddressedToOthers(data, participants, myIndex, old(messages));
      for i := 0 to |participants|
        invariant messages == old(messages) + Addressed(data, participants, myIndex, i)
      {
        if i != myIndex {
          messages := messages + [Notice(participants[myIndex], participants[i], data)];
        }
      }
    }

    method QueueState(state: Item, myIndex: nat, participants: seq<string>)
      requires myIndex < |participants|
      modifies this`messages
      ensures ToOthers(Payload(version, Some([state]), None, None), participants, myIndex, old(messages), messages)
    {
      QueueForOthers(Payload(version, Some([state]), None, None), myIndex, participants);
    }

    /** Only objectives of a shared kind are sent. */
    method QueueSendObjective(objective: Objective, myIndex: nat, participants: seq<string>)
      requires myIndex < |participants|
      modifies this`messages
      ensures if objective.kind == "OpenChannel" || objective.kind == "CloseChannel" then
                ToOthers(Payload(version, Some([]), None, Some([objective.item])), participants, myIndex,
                         old(messages), messages)
              else
                messages == old(messages)
    {
      if IsShared(objective) {
        QueueForOthers(Payload(version, Some([]), None, Some([objective.item])), myIndex, participants);
      }
    }

    method QueueChannelRequest(request: Item, myIndex: nat, participants: seq<string>)
      requires myIndex < |participants|
      modifies this`messages
      ensures ToOthers(Payload(version, Some([]), Some([request]), None), participants, myIndex, old(messages), messages)
    {
      QueueForOthers(Payload(version, Some([]), Some([request]), None), myIndex, participants);
    }
  }

  lemma {:induction false} AddressedTo(data: Payload, participants: seq<string>, myIndex: nat, i: nat, j: nat)
    requires myIndex < |participants| && j < i <= |participants| && j != myIndex
    ensures Notice(participants[myIndex], participants[j], data) in Addressed(data, participants, myIndex, i)
  {
    if j < i - 1 {
      AddressedTo(data, participants, myIndex, i - 1, j);
    }
  }

  /** Whatever is queued for everybody else reaches them in the output, whatever was queued before or after. */
  lemma QueuedArrives(version: string, before: seq<Notice>, data: Payload, participants: seq<string>, myIndex: nat,
                      after: seq<Notice>, output: seq<Notice>, j: nat, kind: Kind, x: Item)
    requires myIndex < |participants| && j < |participants| && j != myIndex && x in ItemsOf(data, kind)
    requires Output(version, before + Addressed(data, participants, myIndex, |participants|) + after) == Merged(output)
    ensures exists m :: m in output && m.sender == participants[myIndex] && m.recipient == participants[j]
              && x in ItemsOf(m.data, kind)
  {
    var queued := before + Addressed(data, participants, myIndex, |participants|) + after;
    var n := Notice(participants[myIndex], participants[j], data);
    AddressedTo(data, participants, myIndex, |participants|, j);
    assert n in queued;
    hide Output, MergeOutgoing, ItemsOf, Delivers, Addressed;
    OutputMergesOnce(version, queued);
    MergeDelivers(version, queued);
    var m := DeliveredTo(version, queued, output, n, kind, x);
    SameSender(version, queued, output, m, n);
  }

  lemma HoldsSent(version: string, outgoing: seq<Notice>, m: Notice, n: Notice, kind: Kind, x: Item)
    requires HoldsAll(version, outgoing, m) && n in outgoing && n.recipient == m.recipient
    requires x in ItemsOf(n.data, kind)
    ensures x in ItemsOf(m.data, kind)
  {
    hide ItemsOf, InMessageOrder;
    assert HoldsJust(outgoing, m.recipient, m.data, kind);
    assert Sends(outgoing, m.recipient, kind, x);
  }

  lemma DeliveredTo(version: string, outgoing: seq<Notice>, merged: seq<Notice>, n: Notice, kind: Kind, x: Item)
    returns (m: Notice)
    requires Delivers(version, outgoing, merged) && n in outgoing && x in ItemsOf(n.data, kind)
    ensures m in merged && m.recipient == n.recipient && x in ItemsOf(m.data, kind)
  {
    hide ItemsOf, InMessageOrder, HoldsAll, HoldsJust, ServedBefore;
    m :| m in merged && m.recipient == n.recipient;
    hide Delivers;
    HoldsSent(version, outgoing, m, n, kind, x);
  }

  lemma SameSender(version: string, outgoing: seq<Notice>, merged: seq<Notice>, m: Notice, n: Notice)
    requires MergeOutgoing(version, outgoing) == Merged(merged) && m in merged && n in outgoing
    ensures m.sender == n.sender
  {
    hide Groups;
    var i :| 0 <= i < |outgoing| && outgoing[i] == n;
    MergeShape(version, outgoing, merged);
  }
}
