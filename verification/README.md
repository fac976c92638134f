# State channel wallets: a model with proofs

Several participants of a state channel sign numbered states off chain, fund a shared holding in turn, and are
paid from it in a fixed order. This project models the parts of the wallets and of the protocol library that this
rests on, and proves what they keep. `dafny verify dfyconfig.toml` checks all of it.

**Signed states and supports** (`States`, `Support`, `StoredStates`). A wallet stores signed states, newest first. A
*support* is a run of stored states linked by valid transitions whose mover-signed members carry signatures of all
participants. The theory of supports holds for any transition check; it is instantiated with the browser wallet's
`validChain` and with the server wallet's port of the protocol rules. A list is *tidy* if its turns strictly descend
and nothing is stored below its support; a store is *gapless* if every stored state is signed by its mover.

**Rounds** (`FullRounds`). When the newest n states, signed by their movers, support a channel at its newest turn:
exactly what either wallet asks of a step, and that running, set-up and concluding channels do move on.

**Browser store** (`BrowserStore`, `Monotonicity`, `BrowserRuns`, `StoreEntry`). Over any run of successful calls the
supported turn never decreases, even when a conflicting state pushes out a stored one, and the turns that a wallet
signs strictly increase. The proof needs that a call brings one signature.

**Server store** (`ServerStore`, `ServerCleanUp`, `ServerRuns`, `ServerChannel`, `Rollback`, `OwnSignatures`). States
arrive with any number of signatures, so the supported turn can fall. `StoreKeepsSupportExactly` says when, in terms
of the stored list and the incoming state; `RollbackExample` is such a case. It takes the wallet's own signature on a
conflicting state: `OwnSupportNeverGoesBack` shows that it cannot happen to a wallet whose key signs through this
store only.

**What supports prove** (`SupportClaims`, `SetUpClaims`, `ConclusionClaims`, `SignatureArguments`, `SupportProofs`).
What a finished set-up and a conclusion proof mean, when they mean less than they seem to, and what table of who
signed what a computed support makes for the chain. `Gaps` has the lists that show where a description fails, and the
calls that lead there.

**Payouts** (`Waterfall`, `Transfer`, `PartialTransfers`, `Claim`, `ClaimRefinement`, `PartialClaims`). Transfers pay
allocations in order from limited holdings; partial transfers do not depend on history. A claim is a transfer of the
guarantee's share over the matched targets in the order of the guarantee.

**Deposits** (`Depositing`, `DepositMachines`). Participants watch the holdings and deposit in turn; an unfinished submission outlives
the state that started it. All interleavings are covered.

**Finalization queue** (`Finalization`), **outgoing messages** (`Outbox`, `MessageKeys`) and the **status word** (`StatusWord`).

## Where the code and its descriptions differ

Each difference has an input that shows it and a condition that says exactly when it arises. The lists of the first
three points and of the signature table can be built up from nothing, by calls with one signature each
(`ReachedInBrowser`, `ReachedOnServer`).

- `postFundComplete` is described as implying that a full set of post-fund signatures has been seen. With gaps it need
  not: `PostFundGap`. `PostFundExactly` says for which turns and moves it always does, in the lists that a wallet
  leaves; gapless stores are among them (`GaplessMoves`, `PostFundCompleteMeans`). `SignedSinceExactly` has the
  condition for lists that may hold states below their support. For signatures on supporting states,
  `AllSignedSinceExactly` gives the condition on a single store: the turn of the oldest supporting state.
- The browser wallet's conclusion proof looks at supporting states only. A non-final state that its mover has not
  signed can hide between two final ones with different outcomes (`ConclusionGap`). `ConclusionExactly` says for which
  turns and flags this is impossible. That everybody signed a final state holds always (`ConclusionMeansFinal`). The
  server wallet's check forbids a non-final state after a final one; its proofs show one outcome in all stores
  (`ServerConclusion`).
- Clean-up is described as removing the states that are not part of the support. It removes the older ones. Newer
  states stay, and so do unsigned ones within the run (`CleanUpGap`). `StoredStates.ClearLeavesSupportExactly` says
  for the browser wallet when nothing but the support is left, `ServerCleanUp.ClearLeavesSupportExactly` for the
  server wallet, which computes the support from the other order of states of one turn.
- In both wallets clean-up is idempotent exactly if it leaves no two states of one turn (`ClearOldStatesTwice`,
  `ClearTwice`, `ClearFlips`), which the checks behind it make sure of.
- The signature table can be longer than the list of participants (`WideTable`): it starts with one slot for every
  listed state. It has a slot for every participant and no other exactly if the support has no more states than there
  are participants (`TableLengthExactly`), as in a gapless store.
- A queue entry with finalization time zero is reported even if the chain knows no finalization time for the channel,
  as both are zero (`ZeroIsReported`). Registering a channel and re-inserting an entry keep time zero out
  (`chain-service.ts:404-409` and `386`), so only the two event handlers that pass an event's time on (`103`, `117`)
  could let such an entry in. Without one exactly the finalized channels are reported (`ReportsExactly`).

## Modelling choices

Hashes are idealised: the hash of a state is the tuple it is taken of, with a mixed allocation reduced to its first
part as the conversion to the on-chain format does, and the channel's constants fixed. Who made a signature is a
function of hash and signature; an entry is *genuine* if its recorded signer is that function's value. Loops that
update variables are methods proved against specification functions, and the wallets' records are classes; lemmas
about the functions then say what the source promises. Amounts, turns and times are natural numbers; destinations
are compared by value, as the code compares them. Arrays with holes are sequences of options. Objects compared by
reference carry an identifier.

## Model

| member | source | states |
|---|---|---|
| `Support.Strike` | packages/browser-wallet/src/store/channel-store-entry.ts:136-141 | striking off signers one by one, with the early return, removes exactly the signers of the state |
| `Support.ComputeSupport` | packages/browser-wallet/src/store/channel-store-entry.ts:116-146 | the loop with resets, skipped states and early return computes `SupportOf`, for any transition check |
| `Support.SupportComplete` | packages/browser-wallet/src/store/channel-store-entry.ts:116-146 | there is a support exactly when some contiguous linked run has mover-signed states whose signatures cover everybody |
| `Support.SupportSoundAndNewest` | packages/browser-wallet/src/store/channel-store-entry.ts:116-146 | the support consists of the mover-signed states of one covering run; no covering run starts newer, ends earlier or has a newer mover-signed state |
| `Support.OldestIsSigned` | packages/browser-wallet/src/store/channel-store-entry.ts:132-142 | the run of a support ends with a state that its mover signed |
| `Support.SupportAgrees` | packages/browser-wallet/src/store/channel-store-entry.ts:116-146 | states older than the support have no influence on it |
| `States.OutcomesEqualMeansSame` | packages/wallet-core/src/state-utils.ts:123-152 | comparing outcomes part by part is equality, hence an equivalence |
| `States.SameHashExactly` | packages/wallet-core/src/state-utils.ts:32-45 | two states have one hash exactly if turn, app data and final flag agree and their outcomes look alike on chain, where only the first part of a mixed allocation shows |
| `FullRounds.BrowserRoundExactly` | packages/browser-wallet/src/store/channel-store-entry.ts:79-146 | n newest states, each signed by its mover only, support the newest turn exactly if every step raises the turn by one, keeps the outcome in the first two rounds and into final states, and keeps the app data in the first two rounds |
| `FullRounds.ServerRoundExactly` | packages/server-wallet/src/models/channel.ts:592-632 | the same for the server wallet, which also wants final states followed by final ones, compares outcomes as the chain sees them, and lets a channel without application only conclude after the first two rounds |
| `FullRounds.RunningIsSupported` | packages/server-wallet/src/models/channel.ts:592-632 | a running application channel is supported at its newest turn by n turns in a row that their movers signed, whatever they do to outcome and app data, in either wallet |
| `FullRounds.SetUpIsSupported` | packages/server-wallet/src/models/channel.ts:592-632 | so it is by n turns in a row of the first two rounds with one outcome and one app data |
| `FullRounds.FinalIsSupported` | packages/server-wallet/src/models/channel.ts:592-632 | and by n final turns in a row with one outcome |
| `StoredStates.NewestFirstOfPushed` | packages/browser-wallet/src/store/channel-store-entry.ts:266 | sorting by turn and reversing puts a pushed state in front of the stored state of its own turn |
| `StoredStates.FindSupportEnd` | packages/browser-wallet/src/store/channel-store-entry.ts:268-278 | finding the hash of the oldest supporting state and slicing cuts right behind it |
| `StoredStates.CutKeepsSupport` | packages/browser-wallet/src/store/channel-store-entry.ts:265-279 | cutting below the support leaves the computed support unchanged, and cutting again changes nothing |
| `StoredStates.ClearOldStatesMeans` | packages/browser-wallet/src/store/channel-store-entry.ts:265-279 | clean-up leaves a prefix of the sorted list that ends at the oldest supporting state and has the same support; without a support it leaves everything; the result is tidy if its turns are distinct |
| `StoredStates.ClearOldStatesTwice` | packages/browser-wallet/src/store/channel-store-entry.ts:265-279 | cleaning up again changes nothing exactly if what is left has distinct turns; sorting flips states of one turn every time |
| `Gaps.ClearFlips` | packages/browser-wallet/src/store/channel-store-entry.ts:265-279 | two states of one turn that change places with the second clean-up |
| `ServerCleanUp.ClearTwice` | packages/server-wallet/src/state-utils.ts:88-108 | in the server wallet, which computes the support from the other order of states of one turn, cleaning up again changes nothing exactly if what is left has distinct turns |
| `ServerCleanUp.ClearedIsTidy` | packages/server-wallet/src/state-utils.ts:88-108 | whatever is stored, clean-up that leaves distinct turns leaves a tidy list |
| `ServerCleanUp.ClearLeavesSupportExactly` | packages/server-wallet/src/state-utils.ts:80-108 | clean-up leaves nothing but the support exactly if it leaves a single state, or the oldest supporting state stands at the same place in both orders, with an unbroken run of mover-signed states down to it |
| `StoredStates.ClearLeavesSupportExactly` | packages/browser-wallet/src/store/channel-store-entry.ts:265-279 | clean-up leaves nothing but the support exactly if the states down to the oldest supporting one are one unbroken run of mover-signed states |
| `Gaps.CleanUpGap` | packages/server-wallet/src/state-utils.ts:80-108 | a list that clean-up leaves as it is, with two states besides the support, under either wallet's rules |
| `StoredStates.LatestSignedIsHighest` | packages/browser-wallet/src/store/channel-store-entry.ts:158-170 | the first stored state that carries my signature has the highest turn that I signed |
| `StoredStates.CutRemembersSigner` | packages/browser-wallet/src/store/channel-store-entry.ts:265-279 | clean-up never forgets the highest turn that a participant has signed |
| `StoredStates.IsReverseSorted` | packages/server-wallet/src/utilities/helpers.ts:9-17 | the loop tells whether no element is smaller than a later one |
| `StoredStates.ValidateInvariants` | packages/server-wallet/src/engine/store.ts:768-804 | exactly strictly descending turns pass; otherwise the error says, in this order, that two states of one turn carry an own signature, that a turn occurs twice, or that the order is wrong |
| `StoreEntry.ChannelStoreEntry.constructor` | packages/browser-wallet/src/store/channel-store-entry.ts:33-46 | a new entry keeps the given states and uses the rules of `validChain` |
| `StoreEntry.ChannelStoreEntry.CheckInvariants` | packages/browser-wallet/src/store/channel-store-entry.ts:237-259 | reports exactly the violated invariant |
| `StoreEntry.ChannelStoreEntry.ClearOld` | packages/browser-wallet/src/store/channel-store-entry.ts:265-279 | reassigns the sorted list, cut below the support of that list |
| `StoreEntry.ChannelStoreEntry.AddState` | packages/browser-wallet/src/store/channel-store-entry.ts:201-235 | the stored list and the result in every case, failures included; a successful call keeps the list tidy, keeps the support, and forgets no turn I signed; it returns the state with exactly the signatures stored for its hash and the new one, once each, and everything else it leaves was stored before; a stranger's signature fails after a new state has been stored without it |
| `StoreEntry.ChannelStoreEntry.SignAndAdd` | packages/browser-wallet/src/store/channel-store-entry.ts:188-199 | refuses exactly the stale turns; a successful call signs a turn above all I signed before, which then is the highest, and returns the state with my signature and all that were stored for it |
| `BrowserStore.AddingReturns` | packages/browser-wallet/src/store/channel-store-entry.ts:228-234 | what a successful call returns and stores, for any rules |
| `Monotonicity.SignatureKeepsSupport` | packages/browser-wallet/src/store/channel-store-entry.ts:228-230 | one more signature on a stored state never lowers the supported turn |
| `Monotonicity.NewTurnKeepsSupport` | packages/browser-wallet/src/store/channel-store-entry.ts:219-230 | a state of a new turn never lowers the supported turn, wherever it is placed |
| `Monotonicity.ConflictCutsAt` | packages/browser-wallet/src/store/channel-store-entry.ts:219-259 | a conflicting state that passes the checks ends the support, right at its place |
| `Monotonicity.LinkedConflictKeepsSupport` | packages/browser-wallet/src/store/channel-store-entry.ts:124-142 | a conflict that links to the next newer state never lowers the supported turn |
| `Monotonicity.LoneConflictKeepsSupport` | packages/browser-wallet/src/store/channel-store-entry.ts:132-142 | neither does an unlinked one with a single signature |
| `BrowserRuns.CallKeepsSupport` | packages/browser-wallet/src/store/channel-store-entry.ts:188-279 | one successful call keeps the list tidy and the supported turn at least as high |
| `BrowserRuns.CallRemembers` | packages/browser-wallet/src/store/channel-store-entry.ts:188-279 | one successful call forgets no signed turn; signing raises the highest one |
| `BrowserRuns.RunIsTidy` | packages/browser-wallet/src/store/channel-store-entry.ts:188-279 | after any run: strictly descending turns, nothing stored below the support |
| `BrowserRuns.SupportNeverGoesBack` | packages/browser-wallet/src/store/channel-store-entry.ts:188-279 | over any run of successful calls a supported channel stays supported and its supported turn never decreases |
| `BrowserRuns.SignedTurnsIncrease` | packages/browser-wallet/src/store/channel-store-entry.ts:188-279 | in any run of successful calls the turns I sign strictly increase |
| `SupportClaims.GaplessSupportIsShort` | packages/browser-wallet/src/store/channel-store-entry.ts:116-146 | if all stored states are mover-signed, a support is a contiguous stretch of at most n states |
| `SupportClaims.AllSignedSinceExactly` | packages/server-wallet/src/models/channel.ts:436-451 | everybody signed a supporting state of turn m or later exactly if the oldest supporting state has turn m or later |
| `SupportClaims.PostFundCompleteMeans` | packages/server-wallet/src/models/channel.ts:446-451 | in a gapless store a supported turn of at least 2n - 1 means that everybody signed turn n or later |
| `SetUpClaims.PostFundExactly` | packages/server-wallet/src/models/channel.ts:446-451 | among the tidy lists that differ in who else signed mover-signed states, `postFundComplete` always means that everybody has signed a stored state of turn n or later exactly if everybody moved, or signed where the mover did not, at turn n or later, or the list does not end in an unbroken run that leads from a mover-signed state before turn n to one of turn 2n - 1 or later and in which somebody moves at its end only or not at all |
| `SetUpClaims.TidySignedSinceExactly` | packages/server-wallet/src/models/channel.ts:436-451 | the same for any supported turn and any earlier turn |
| `SetUpClaims.SignedSinceExactly` | packages/server-wallet/src/models/channel.ts:436-451 | for descending lists that need not be tidy it does so exactly if no unbroken run with mover-signed ends leads from before the earlier turn to the supported one, or everybody moved, or signed where the mover did not, since the earlier turn |
| `SetUpClaims.GaplessMoves` | packages/server-wallet/src/models/channel.ts:446-451 | gapless stores meet both conditions |
| `Gaps.PostFundGap` | packages/server-wallet/src/models/channel.ts:446-451 | a list for which `postFundComplete` holds although a participant has signed no stored state since the first round, under either wallet's rules |
| `SupportClaims.GaplessConclusion` | packages/browser-wallet/src/store/channel-store-entry.ts:79-81 | in a gapless store a conclusion proof shows that everybody signed a final state, and one outcome |
| `ConclusionClaims.ConclusionMeansFinal` | packages/browser-wallet/src/store/channel-store-entry.ts:79-81 | a conclusion proof always shows that everybody signed a final state |
| `ConclusionClaims.ConclusionExactly` | packages/browser-wallet/src/store/channel-store-entry.ts:79-114 | all conclusion proofs with given turns, flags, app data and signatures show one outcome exactly if every state between the newest and the oldest supporting one is final or of the first two rounds |
| `ConclusionClaims.TwoOutcomes` | packages/browser-wallet/src/store/channel-store-entry.ts:79-114 | where one of these states is neither, a proof that differs in outcomes only shows two of them |
| `Gaps.ConclusionGap` | packages/browser-wallet/src/store/channel-store-entry.ts:79-114 | a list whose conclusion proof holds two different outcomes |
| `Gaps.ReachedInBrowser` | packages/browser-wallet/src/store/channel-store-entry.ts:201-235 | four calls with one signature each take the browser wallet from an empty list to each of these lists |
| `Gaps.ReachedOnServer` | packages/server-wallet/src/engine/store.ts:511-575 | and the server wallet to those that its rules allow; no transition check refuses these calls, and the signers are participants |
| `SupportClaims.StrictConclusion` | packages/server-wallet/src/models/channel.ts:323-325 | where only final states follow final ones, conclusion proofs are sound without that assumption |
| `SupportClaims.ServerConclusion` | packages/server-wallet/src/models/channel.ts:323-325 | so they are in the server wallet, with or without gaps: everybody signed a final state, and on chain there is one outcome |
| `SupportClaims.BrowserSetUpAgrees` | packages/browser-wallet/src/store/channel-store-entry.ts:79-114 | in the browser wallet all states that support a turn of the first two rounds carry one outcome and, without final states, one app data |
| `SupportClaims.ServerSetUpAgrees` | packages/server-wallet/src/models/channel.ts:436-451 | so they do in the server wallet, for outcomes as they appear on chain |
| `SupportClaims.LedgerSupportIsUnanimous` | packages/server-wallet/src/models/channel.ts:592-632 | without an application, a non-final support after the set-up is a single state that everybody signed |
| `ServerStore.UniqueSignaturesKeeps` | packages/server-wallet/src/state-utils.ts:71-73 | merging signatures by value loses none, as equal signatures on one state have one signer |
| `ServerStore.UniqueSignaturesOnce` | packages/server-wallet/src/state-utils.ts:71-73 | and leaves no signature value twice, however often it arrives |
| `ServerStore.JoinedSigners` | packages/server-wallet/src/state-utils.ts:61-78 | adding a stored state again joins the signers of both |
| `ServerStore.SortedOfPushed` | packages/server-wallet/src/models/channel.ts:293-297 | the support is computed with a pushed state behind the stored state of its own turn |
| `ServerRuns.StoredAgain` | packages/server-wallet/src/state-utils.ts:61-108 | a state stored already gains signatures and stays in place |
| `ServerRuns.StoredNew` | packages/server-wallet/src/state-utils.ts:61-108 | a state of a new turn is put in its place, and the list is cut below the support |
| `ServerRuns.StoredConflict` | packages/server-wallet/src/engine/store.ts:559-565 | a conflicting state is stored only if everybody signed it; it then replaces the other one and everything older |
| `ServerRuns.StoreKeepsSupportExactly` | packages/server-wallet/src/engine/store.ts:559-565 | a successful call keeps the list tidy and the channel supported; the supported turn falls exactly if the state conflicts below it and does not lead up to the next stored state |
| `ServerRuns.StoreRemembers` | packages/server-wallet/src/engine/store.ts:188-221 | the highest turn I signed becomes the maximum of the old one and the stored one |
| `ServerRuns.CallMeans` | packages/server-wallet/src/engine/store.ts:142-221 | what one successful call keeps: tidy list, genuine signatures, signed turns, and the support unless it rolls back |
| `ServerRuns.SupportGoesBackOnlyByRollback` | packages/server-wallet/src/engine/store.ts:142-575 | over any run without such a roll-back the supported turn never decreases |
| `ServerRuns.SignedTurnsIncrease` | packages/server-wallet/src/engine/store.ts:142-221 | in any run of successful calls the turns I sign strictly increase |
| `ServerChannel.Channel.constructor` | packages/server-wallet/src/models/channel.ts:592-612 | a channel record uses the server wallet's transition check, with the null application treated apart |
| `ServerChannel.Channel.Store` | packages/server-wallet/src/engine/store.ts:559-565 | folds in the state, cuts below the support of the sorted states, and reports the checks on what is left |
| `ServerChannel.Channel.AddMyState` | packages/server-wallet/src/engine/store.ts:188-221 | refuses a state that is not signed by me alone |
| `ServerChannel.RefusedExactly` | packages/server-wallet/src/utilities/validate-transition.ts:10-60 | exactly those states are refused that have to follow the supported one and do not: new ones, not older than it, past the first two rounds, of no ledger and no faked funding, whose turn is not the next one, or that are not final after a final one, or final with another on-chain outcome, or neither final nor allowed by the application |
| `ServerChannel.Channel.CheckTransition` | packages/server-wallet/src/utilities/validate-transition.ts:10-28 | the check as it is written does that |
| `ServerChannel.Channel.SignState` | packages/server-wallet/src/engine/store.ts:142-186 | refuses stale turns, and otherwise as an invalid transition exactly the states that have to follow the supported one and do not; a successful call raises the highest turn I signed, and keeps the support if its state was checked |
| `ServerChannel.Channel.AddSignedState` | packages/server-wallet/src/engine/store.ts:511-575 | refuses strangers' signatures and other chains, and otherwise as an invalid transition exactly the states that have to follow the supported one and do not; a successful call keeps the support if its state was checked, and otherwise unless it rolls back |
| `Rollback.RollbackExample` | packages/server-wallet/src/engine/store.ts:511-575 | four successful calls from an empty list, none of them refused, after which a channel supported at turn 5 is supported at turn 4 |
| `OwnSignatures.RunSettles` | packages/server-wallet/src/engine/store.ts:142-575 | whatever I signed is still stored, or the supported channel has left its turn behind |
| `OwnSignatures.OwnSupportNeverGoesBack` | packages/server-wallet/src/engine/store.ts:142-575 | if my key signs through this store only, the supported turn never decreases in any run from the channel's creation, whatever others send |
| `Waterfall.AffordsIsTheOrderedPayment` | packages/nitro-protocol/src/contract/multi-asset-holder.ts:219-244 | what the running surplus affords is the one payment that is made in order, within the amounts, and as far as the funds reach |
| `Waterfall.AffordsAt` | packages/nitro-protocol/src/contract/multi-asset-holder.ts:219-244 | every amount gets what is left of the funds once all earlier amounts have been met, and no more than itself |
| `Waterfall.AffordsResidual` | packages/nitro-protocol/src/contract/multi-asset-holder.ts:219-244 | after any part of it has been paid, the remaining funds afford exactly the rest |
| `Transfer.PayablePrefixMeans` | packages/nitro-protocol/src/contract/multi-asset-holder.ts:227 | the cursor pays a strictly increasing in-range prefix of the indices, and the next index would break that |
| `Transfer.PayablePrefixIsLongest` | packages/nitro-protocol/src/contract/multi-asset-holder.ts:227 | it is the longest such prefix |
| `Transfer.PositionsOfAscending` | packages/nitro-protocol/src/contract/multi-asset-holder.ts:227 | of an increasing list exactly the indices in range are paid |
| `Transfer.ComputeTransfer` | packages/nitro-protocol/src/contract/multi-asset-holder.ts:195-252 | the loop computes new allocations, the all-zeros flag, exit slots with zero placeholders, and the total, as specified by position |
| `PartialTransfers.ExitsAddUp` | packages/nitro-protocol/src/contract/multi-asset-holder.ts:231-237 | the exits add up to the total payout |
| `PartialTransfers.TransferConserves` | packages/nitro-protocol/src/contract/multi-asset-holder.ts:195-252 | new amounts plus payouts are the old amounts item by item, and the total is within the holdings |
| `PartialTransfers.TransferExactly` | packages/nitro-protocol/src/contract/multi-asset-holder.ts:195-252 | a chosen item gets what all earlier amounts leave of the holdings, whether they are chosen or not, and no other item changes; the exits list the payments in order, padded with empty slots; the flag says that all new amounts are zero |
| `PartialTransfers.NoIndicesMeanAll` | packages/nitro-protocol/src/contract/multi-asset-holder.ts:205-244 | no indices mean all indices; the all-zeros flag is then set exactly if the holdings suffice |
| `PartialTransfers.TransfersMerge` | packages/nitro-protocol/src/contract/multi-asset-holder.ts:195-252 | paying some indices and others from what is left pays and leaves what the union does; an index paid again gets zero |
| `PartialTransfers.TransfersForgetHistory` | packages/nitro-protocol/src/contract/multi-asset-holder.ts:195-252 | any series of transfers leaves what paying all chosen positions at once leaves |
| `PartialTransfers.TransfersEndAlike` | packages/nitro-protocol/src/contract/multi-asset-holder.ts:195-252 | two series that choose the same positions end alike, whatever their order and grouping |
| `Claim.ComputeFunds` | packages/nitro-protocol/src/contract/multi-asset-holder.ts:108-125 | the loop over earlier source allocations, with its early stop, leaves what the earlier amounts do not take of the holdings, up to the amount of the guarantee |
| `Claim.ComputeClaim` | packages/nitro-protocol/src/contract/multi-asset-holder.ts:66-186 | the nested loops with their breaks compute the specified result for every input; it fails exactly for an index out of range, an allocation of another type than guarantee, and metadata that lists no destinations, in this order |
| `ClaimRefinement.ClaimInStep` | packages/nitro-protocol/src/contract/multi-asset-holder.ts:134-178 | after every guarantee destination, funds, cursor and payments are those of a transfer over the matched targets |
| `ClaimRefinement.ClaimRefinesTransfer` | packages/nitro-protocol/src/contract/multi-asset-holder.ts:66-252 | for distinct guarantee destinations a claim of any indices is a transfer of the affordable amount over the matched targets in guarantee order; all others stay |
| `ClaimRefinement.ClaimEverything` | packages/nitro-protocol/src/contract/multi-asset-holder.ts:134-178 | claiming everything pays the matched targets in guarantee order as far as the funds reach |
| `ClaimRefinement.ClaimConserves` | packages/nitro-protocol/src/contract/multi-asset-holder.ts:66-186 | for any guarantee: total and exits agree, targets and the source entry fall by what is paid, and the total is within what earlier source allocations leave |
| `PartialClaims.FundsAfter` | packages/nitro-protocol/src/contract/multi-asset-holder.ts:108-125 | after a payment the source allocation has exactly the rest of its share |
| `PartialClaims.AfterClaimIsClaiming` | packages/nitro-protocol/src/contract/multi-asset-holder.ts:180-185 | the state that a later claim starts from is the result of the claim before |
| `PartialClaims.SecondClaim` | packages/nitro-protocol/src/contract/multi-asset-holder.ts:66-186 | a second claim starts where the transfer that the first one refines has ended |
| `PartialClaims.ClaimsMerge` | packages/nitro-protocol/src/contract/multi-asset-holder.ts:108-178 | two claims of index lists in guarantee order pay and leave what the merged list does |
| `PartialClaims.ClaimsAreTransfers` | packages/nitro-protocol/src/contract/multi-asset-holder.ts:66-252 | any series of claims is a series of transfers over the matched targets, and changes nothing else |
| `PartialClaims.ClaimsEndAlike` | packages/nitro-protocol/src/contract/multi-asset-holder.ts:66-186 | two series of claims that choose the same positions of the guarantee end alike, whatever their order, grouping and repetitions |
| `Depositing.GetDepositingInfo` | packages/browser-wallet/src/workflows/create-and-fund.ts:230-246 | the deposit window of participant i: the shares before, the shares up to its own, and all shares; errors for no allocation and for a missing index |
| `Depositing.FakeChain.DepositSync` | packages/browser-wallet/src/chain.ts:168-181 | a deposit counts, and is announced, exactly if the channel holds at least what was expected; other channels stay |
| `Depositing.StepIsSafe` | packages/browser-wallet/src/workflows/depositing.ts:16-47 | every event keeps the invariant of holdings, machines and unfinished submissions |
| `Depositing.OneInFlight` | packages/browser-wallet/src/workflows/depositing.ts:42-47 | at most one submission that pays something is under way |
| `Depositing.DepositsAreSafe` | packages/browser-wallet/src/workflows/depositing.ts:16-47 | in every interleaving: holdings are what was paid and never exceed the total, nobody overpays, one payer at a time, who finds all earlier shares held |
| `Depositing.DepositsInTurn` | packages/browser-wallet/src/workflows/depositing.ts:42-47 | whoever pays, pays the own share in full, once, after everybody before |
| `Depositing.DoneMeansFunded` | packages/browser-wallet/src/workflows/depositing.ts:20-24 | a machine is done only when everybody has paid exactly the own share |
| `DepositMachines.DepositStarts` | packages/browser-wallet/src/workflows/depositing.ts:16-47 | a machine starts a deposit exactly when it is idle and hears that all earlier shares but not all shares are held, for the holdings it sees; no deposit is started while another is under way |
| `DepositMachines.SubmissionFails` | packages/browser-wallet/src/workflows/depositing.ts:21-24 | a failed submission changes no holdings and leaves its machine in failure |
| `DepositMachines.FailedNeverPays` | packages/browser-wallet/src/workflows/depositing.ts:16-25 | after that, whatever happens, it never submits or pays again; news of full funding at most makes it done |
| `DepositMachines.EverybodyLearns` | packages/browser-wallet/src/workflows/depositing.ts:20 | a funded channel stays funded, and every machine that hears of it is done for good, failed or not |
| `Depositing.ChannelGetsFunded` | packages/browser-wallet/src/workflows/depositing.ts:16-47 | from any reachable state without failures, every schedule without failures in which each participant in turn gets news and has a submission completed, with any other events in between, funds the channel |
| `DepositMachines.AllGetDone` | packages/browser-wallet/src/workflows/depositing.ts:16-47 | after such a schedule and news for everybody, all machines are done |
| `Finalization.ChainService.AddFinalizingChannel` | packages/server-wallet/src/chain-service/chain-service.ts:392-402 | leaves the queue alone if the channel is queued, whatever its time, and otherwise adds the entry and nothing else; keeps the queue sorted with distinct channels |
| `Finalization.ChainService.CheckFinalizingChannels` | packages/server-wallet/src/chain-service/chain-service.ts:363-390 | the recursion terminates for every queue and chain status, and leaves and reports what `Drain` says |
| `Finalization.WeightOfAdded` | packages/server-wallet/src/chain-service/chain-service.ts:386-389 | re-inserting an entry with the chain's own time costs less than the stale one weighed |
| `Finalization.EnqueueKeepsInOrder` | packages/server-wallet/src/chain-service/chain-service.ts:392-402 | adding keeps the queue sorted and free of duplicate channels |
| `Finalization.DrainMeans` | packages/server-wallet/src/chain-service/chain-service.ts:363-390 | a block leaves exactly the entries that are not due or have been put off, and reports exactly once each due channel that the chain has finalized |
| `Finalization.DueInOrder` | packages/server-wallet/src/chain-service/chain-service.ts:363-380 | while the chain agrees with the queue, the due channels are reported in the order of the queue |
| `Finalization.ReportsExactly` | packages/server-wallet/src/chain-service/chain-service.ts:372-388 | a block reports just the due channels with a positive finalization time up to now, exactly if no queued entry has time zero while the chain has none for its channel |
| `Finalization.ZeroIsReported` | packages/server-wallet/src/chain-service/chain-service.ts:372-388 | such an entry is reported |
| `Finalization.BlocksCompose` | packages/server-wallet/src/chain-service/chain-service.ts:363-390 | two blocks leave and report what the later one alone would, and nothing twice |
| `SignatureArguments.CreateSignatureArguments` | packages/nitro-protocol/src/transactions.ts:116-148 | the nested loops list the distinct states and fill the two tables with the last write to every slot; an empty list fails |
| `SupportProofs.ArgumentsProve` | packages/nitro-protocol/src/transactions.ts:116-148 | every filled slot holds that participant's signature on the last listed state the participant signed; an empty one means there is none |
| `SupportProofs.SupportHasSignature` | packages/wallet-core/src/state-utils.ts:81-87 | the signed states of a computed support hold a signature of every participant |
| `SupportProofs.SupportFillsSlots` | packages/browser-wallet/src/chain.ts:356-368 | given the signed states of a computed support, in any order, all slots of the participants are filled |
| `SupportProofs.TableLengthExactly` | packages/nitro-protocol/src/transactions.ts:129 | the signature table has no slots beyond the participants' exactly if the support has no more states than there are participants; otherwise it has one for every state |
| `Gaps.WideTable` | packages/nitro-protocol/src/transactions.ts:129 | a list whose table has three slots for two participants, under either wallet's rules |
| `SupportProofs.GaplessFillsExactly` | packages/nitro-protocol/src/transactions.ts:129 | in a gapless store there are no slots beyond the participants' |
| `SupportProofs.ChallengeLists` | packages/browser-wallet/src/chain.ts:357-362 | sorting for a challenge neither loses nor adds a signed state |
| `SupportProofs.ChallengePointsToNewest` | packages/browser-wallet/src/chain.ts:357-362 | in a challenge the states are listed by turn, and every slot points to the newest state its participant signed |
| `MessageKeys.SortingIsTotal` | packages/server-wallet/src/engine/engine-response.ts:291-293 | sorting by channel (descending) and turn (ascending), with missing keys, is a total preorder |
| `MessageKeys.SortsBeforeMeans` | packages/server-wallet/src/engine/engine-response.ts:291-293 | one item may precede another exactly if it lacks a channel or has not the smaller one, and within a channel has not the later turn; items without a channel come first, and items without a turn last in their channel |
| `MessageKeys.KeyBeforeMeans` | packages/server-wallet/src/engine/engine-response.ts:267-289 | grouping by recipient enumerates recipients that spell an array index first, by number |
| `Outbox.EngineResponse.QueueState` | packages/server-wallet/src/engine/engine-response.ts:70-88 | queues a state exactly once for every participant but the sender, from the sender, in order, behind what is queued |
| `Outbox.EngineResponse.QueueSendObjective` | packages/server-wallet/src/engine/engine-response.ts:93-116 | queues an objective to open or close a channel exactly once for every other participant, and no other objective |
| `Outbox.EngineResponse.QueueChannelRequest` | packages/server-wallet/src/engine/engine-response.ts:143-162 | queues a request exactly once for every other participant |
| `Outbox.MergeDelivers` | packages/server-wallet/src/engine/engine-response.ts:250-293 | merging fails exactly for different senders; otherwise every recipient gets one message with exactly its distinct states, requests and objectives, with channels in descending and the turns of a channel in ascending order; recipients are served as they were first addressed, array indices before |
| `Outbox.MergeTwice` | packages/server-wallet/src/engine/engine-response.ts:250-289 | merging what has been merged changes nothing |
| `Outbox.OutputMergesOnce` | packages/server-wallet/src/engine/engine-response.ts:164-224 | the three merges on the output path are one merge |
| `Outbox.QueuedArrives` | packages/server-wallet/src/engine/engine-response.ts:70-224 | whatever is queued for others reaches each of them in the output |
| `StatusWord.ParseStatus` | packages/nitro-protocol/src/contract/channel-storage.ts:41-58 | the cursor reads two numbers of twelve digits and the fingerprint; it fails exactly for words that are not hex digits behind 0x and for other lengths than 66 |
| `StatusWord.HexlifyMeans` | packages/nitro-protocol/src/contract/channel-storage.ts:32-36 | a number prints as its twelve last digits, and fits exactly below 2^48 |
| `StatusWord.PrintMeans` | packages/nitro-protocol/src/contract/channel-storage.ts:27-39 | a printed word holds the turn in its first twelve digits, the time in the next twelve, both in lower case, and then the fingerprint |
| `StatusWord.CaseDoesNotMatter` | packages/nitro-protocol/src/contract/channel-storage.ts:41-58 | parsing reads digits alike in either case |
| `StatusWord.PrintFails` | packages/nitro-protocol/src/contract/channel-storage.ts:27-39 | printing fails exactly for a number of more than 48 bits |
| `StatusWord.ParseAfterPrint` | packages/nitro-protocol/src/contract/channel-storage.ts:27-58 | parsing a printed word returns its fields |
| `StatusWord.PrintAfterParse` | packages/nitro-protocol/src/contract/channel-storage.ts:27-58 | printing parsed fields restores the word exactly if its two numbers are in lower case |

## Left out

- Cryptography and encodings: key pairs, signing, recovery, keccak and ABI encoding appear only as described above.
- Databases, transactions, row locks, event feeds, timers, logging and sockets.
- The bytecode check of an application's transitions, which runs code that is not part of this model.
- Failing calls in runs: single calls are specified with their failures, runs consist of successful calls. In the browser wallet a failing call leaves changed states behind; in the server wallet it leaves the stored record alone and changes only the object in memory.
- The lookup of signing keys, and the creation of a channel for the first state of it that arrives.
- Conversions between number formats in state constants, and malformed amounts or destinations, which the code rejects while parsing.
- The Solidity contracts, gas, nonces, confirmations, and chain events that arrive late or out of order.
- The real chain's deposits: `DepositSync` models the wallet's own in-memory chain.
- Ledger funding, virtual funding, challenges other than the order of their states, budgets and the user interface.
- Several trackers for one channel in the chain service: a report stands for a call of each of them. While a block is processed, a channel's status is fixed and nothing else changes the queue.
- The name of the message method, and the sender field of a message when it is missing.
- Channels without participants, for which the mover of a turn is not defined.
- BrowserRuns.SupportNeverGoesBack: starts from a tidy list, such as the empty one; so do the other run properties.
- ServerChannel.Channel.CheckTransition: the verdict of the application's bytecode is a parameter.
- ServerChannel.Channel.SignState: the verdict of the application's bytecode is a parameter.
- ServerChannel.Channel.AddSignedState: the verdict of the application's bytecode is a parameter, and the channel exists already.
- SupportClaims.AllSignedSinceExactly: counts signatures on supporting states; `SetUpClaims.PostFundExactly` is about all stored ones.
- StoredStates.ClearOldStatesMeans: for lists with distinct hashes, as a state with a known hash gains signatures only; so are ClearOldStatesTwice, ClearTwice and ClearLeavesSupportExactly.
- ServerRuns.StoreKeepsSupportExactly: assumes that recorded signers are genuine, as both ways into the store make sure of that.
- OwnSignatures.OwnSupportNeverGoesBack: needs a second participant and an empty store at the start.
- ClaimRefinement.ClaimRefinesTransfer: for repeated guarantee destinations there is no transfer to compare with, as a target can then be visited twice; `ClaimConserves` covers these guarantees too.
- PartialClaims.ClaimsMerge: for index lists in the order of the guarantee, since the cursor passes over indices that come too late; `ClaimsEndAlike` is for any index lists.
- Depositing.ChannelGetsFunded: not for schedules with a failed submission, as the failed machine never submits again.
- Outbox.MergeDelivers: signatures within a state are not looked into, so two copies of a state with different signatures are two items, as in the code.
