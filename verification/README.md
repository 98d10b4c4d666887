# NeoFS contracts: verified model

The NeoFS side chain runs its storage network through a handful of smart contracts. Each is a
deterministic state machine over key-value storage: an entry point either completes or panics, and a
panic undoes everything the call did. The contracts keep derived data next to primary data (sums,
indexes, snapshots, a two-slot digest of a report log), and this project proves that the two always
agree, along with the safety rules each contract stands for.

Every contract is modelled twice. A specification gives the rules of each entry point as functions on
an immutable `State`; a class holds the same data in fields and changes them step by step, with the
loops of the source, and each of its methods is proved to do exactly what the rules say (`Obeys`: same
outcome, same new state, unchanged state on a fault). The theorems are about the rules, over every
input, every state that satisfies the invariant, or every run from deployment. So that rules and methods cannot be
wrong together, the modules `BalanceLaws`, `SettlementRuns`, `ContainerRights`, `ContainerBills`, `NetmapActivity`,
`NameServiceRights`, `MainChainPowers` and `InfoWire` say without them which calls are accepted and what the stored
data tells about the calls made, with the numbers written out.

| module | subject |
|---|---|
| `Storage` | optional values, outcomes, truncating division, sums over storage maps |
| `Varint`, `InfoCodec`, `InfoWire` | the base-128 codec of the Protocol Buffers Encoding guide; the container serializer and a decoder for it; its fields on the wire |
| `Ballots`, `MainChain`, `MainChainRuns`, `MainChainVotes`, `MainChainPowers` | expiring ballots; the decisions gated by them on the main chain; quorums over runs; what votes are for; whose calls are obeyed and what is stored |
| `Accounts`, `Settlement`, `Balance`, `BalanceRuns`, `BalanceLaws`, `SettlementRuns` | token ledger with lock accounts; settlement of containers; the contract; supply, markers and notifications over runs; who can move money; which settlements are due |
| `Billing`, `Containers`, `ContainerLaws`, `ContainerContract`, `ContainerRuns`, `ContainerLocks`, `ContainerRights`, `ContainerBills`, `ContainerExamples` | two-slot billing digest; rules of the container contract; what each keeps; the contract; whole runs; locks over runs; who may do what; what is billed; single runs |
| `Netmap`, `NetmapRuns`, `NetmapActivity`, `EpochTimes` | candidates and snapshots; history over runs; the record told by the calls; search for an epoch by time |
| `Payday` | a settlement over runs of the container and the netmap contract together |
| `Labels`, `NameService`, `NameServiceLaws`, `NameServiceShadows`, `NameServiceRights`, `NameServiceContract` | domain names; rules of the name service; its invariants and runs; records that subdomains hide; who may do what; the contract |

## How the outside is modelled

- Storage is one typed map or set per key prefix. `std.Serialize` is the identity and hashes are
  injective (`Account`, and names in place of their hashes). Only the length of a SHA-256 digest is used.
- Witnesses are booleans or sets of signers in `Env`; block time, height and epoch are inputs, taken as
  non-decreasing where a theorem says so (`Timely`, `Epochal`).
- What other contracts answer is an input: whether GAS accepts a transfer, the rate settlement asks for,
  whether address data in a DNS record is valid, the renewed SOA data. What settlement asks the container
  and netmap contracts is an input too, which `Payday` takes from runs of those.
- Integers are those of NeoVM, which are wide enough not to wrap here; division truncates toward zero.
  64-bit and 32-bit limits are explicit in the codec.
- Iterators are snapshots of the keys found. Where the byte order of keys matters (netmap versions,
  record ids) the model uses it; elsewhere the order is arbitrary, so the results hold for every order.

## Where the code does not do what it is for

Each of these is stated exactly in the model, with the condition under which the code is right.

- `SetConfig` tests its argument instead of the voter (contracts/neofs/contract.go:334), so a call witnessed
  by nobody votes with an empty key. `EveryVoterIsKnown` and `OutsiderVotesIff` say when a quorum has such
  a member; `OneNodeDecides` has one node of two pay a cheque.
- Votes count for the id a caller gives, whatever is asked for under it. `VotesAreForRequestIff`,
  `LastVoteDecides`.
- A node's vote outlasts the node's place on the alphabet list. `CurrentMembersDecide`, `DroppedNodeDecides`.
- `RemoveVotes` removes the head of the list if the decision has no ballot. `RemovalIsExactIff`.
- `Lock` overwrites the account it locks to. `SupplyKeptIff`, `SupplyIsTotalIff`, `LockOverMoney`.
- The epoch loop visits accounts in the order of their keys, so with a lock inside a lock the money can stop at
  the outer lock's address. `UnlockReachesOwnersIff`, `OrderMatters`.
- A node's first report after losing its record starts the billing statistic anew
  (contracts/container/contract.go:892-905), so what was to be charged for the epoch before is forgotten, and
  so are earlier sizes of the same epoch. A node loses its record when it leaves the list, or by a short
  commit (below) without leaving it. `SlotsAnswerLogIff`, `ReportKeepsChargeIff`, `ReturningForgetsCharge`;
  `ReopenedIsCloseIff`, `ReopeningForgetsTheEpoch`.
- Stored averages can come to -1 though all sizes are zero or more, since division truncates toward zero; a
  rate of 2^30 or more then makes the whole settlement panic, and a lower one charges a unit too much.
  `PickedSizeIsAtLeast`, `RoundingPicksBelowZero`, `PayPanicsIff`, `PriceIsCloseIff`, `NegativeSizePanics`.
- Container `Transfer` reads the serialized summary as a plain integer
  (contracts/container/contract.go:1343) where all others deserialize it. `TransferKeepsLedgerIff`,
  `MisreadSummaryStays`.
- `CreateV2` does not ask whether the id is live. Creating a container again takes it back from whom it was
  transferred to, and undoes a lock set after creation: `CreateKeepsIndexIff`, `CreateKeepsLedgerIff`,
  `RecreationReclaims`, `LockHoldsIff`, `RecreationUnlocks`. A lock given at creation holds:
  `LockAtCreationHolds`.
- `PutReport` accepts negative sizes. `SaveKeepsSumsIff`, `NegativeReportBreaksSums`.
- A commit for fewer placement vectors than were staged takes off the reports of nodes that stay on the
  list. `CommitKeepsReportIff`, `ShortCommitDropsMember`.
- The search for an epoch by time turns right at every epoch number that was skipped.
  `SearchIsScanIff`, `GapMisleads`.
- Registering a name checks its parent for records of longer names but not for records of the name itself
  (contracts/nns/contract.go:277-290), which are out of reach from then on. `StepHidesIff`, `RunNeverHidesIff`,
  `RegisteringHidesRecord`.
- Reading records directly demands that the parents of the name asked for are registered, while its
  documentation and `Resolve` only need those of the domain that holds the records. `GetRecordsIff`,
  `DeepNameIsRefused`.
- `Resolve` refuses top-level names, unless they are written with a trailing dot (contracts/nns/contract.go:644-647,
  1092-1094). `TrailingDot`.

## Model

| member | source | states |
|---|---|---|
| Varint.SizeVarint | internal/proto/encoding.go:28-35 | the size computed is the number of bytes the encoding has, for every 64-bit value |
| Varint.PutUvarint | internal/proto/encoding.go:39-50 | writes exactly the encoding at the offset, returns its length and leaves all other bytes alone |
| Varint.ReadUvarint | internal/proto/encoding.go:103-123 | the loop reads what `Uvarint` says of any buffer: the value up to the first byte without continuation bit, or overflow |
| Varint.UvarintInvertsEncode | internal/proto/encoding.go:39-50 | reading undoes writing for every 64-bit value and whatever follows, and consumes exactly the bytes written |
| Varint.UvarintSound | internal/proto/encoding.go:103-123 | whatever is read from arbitrary bytes fits 64 bits, is the positional value of the bytes consumed, and lies inside the buffer |
| Varint.UvarintIff | internal/proto/encoding.go:103-123 | exactly what is read from any buffer: the varint of at most ten bytes and 64 bits that it begins with, nothing if up to ten bytes end before their varint does, an overflow otherwise |
| Varint.CanonicalVarint | internal/proto/encoding.go:39-50 | exactly which byte sequences are the encoding of the value they are read as |
| Varint.ReadTagInverts | internal/proto/encoding.go:54-71 | a written tag reads back as its field number and type in as many bytes as were written |
| Varint.ReadSizeInverts | internal/proto/encoding.go:75-86 | a written length reads back if that many bytes follow |
| Varint.ReadUint32Inverts | internal/proto/encoding.go:90-101 | a written 32-bit value reads back |
| Varint.ReadTagIff | internal/proto/encoding.go:54-71 | a tag is read iff the buffer begins with eight times a field number from 1 to 2^29 - 1 plus a type below six |
| Varint.ReadSizeIff | internal/proto/encoding.go:75-86 | a length is read iff the buffer has that many bytes after it |
| Varint.ReadUint32Iff | internal/proto/encoding.go:90-101 | a 32-bit value is read iff the varint fits 32 bits |
| Varint.TagValue | internal/proto/encoding.go:13-15 | shifting and or-ing number and type is eight times the number plus the lowest three bits of the type |
| Varint.SizeTagIgnoresType | internal/proto/encoding.go:18-20 | measuring the tag without its type gives the size of the tag with any type |
| InfoCodec.ToBytes | contracts/container/contract.go:1579-1673 | the buffer allocated from the precomputed length ends up holding exactly the message: no byte too many, no write outside |
| InfoCodec.Measure | contracts/container/contract.go:1580-1615 | the lengths computed before filling are those of the nested messages and of the whole |
| InfoCodec.AttributeLens | contracts/container/contract.go:1606-1615 | the nested lengths and the running total of the attribute loop are those of the serialized attributes |
| InfoCodec.PutAttributes | contracts/container/contract.go:1649-1665 | the filling loop appends exactly the serialized attributes |
| InfoCodec.AddressIff | contracts/container/contract.go:1519-1529 | the addresses made are exactly the checked ones: 25 bytes, the chain's version, a script hash, and four bytes of the double digest of both |
| InfoCodec.ParseInvertsInfoBytes | contracts/container/contract.go:1579-1673 | a decoder made of the three read functions recovers every container from its serialization |
| InfoCodec.InfoBytesInjective | contracts/container/contract.go:1579-1673 | two containers serialize alike iff they are equal, which container ids rest on |
| InfoWire.WireOfInfo | contracts/container/contract.go:1564-1673 | a reader that only knows the encoding finds, for every container, the fields 1 version (with 1 major and 2 minor), 2 owner (with 1 the checked address), 3 nonce, 4 basic ACL unless zero, 5 for each attribute (with 1 key and 2 value) and 6 policy, in this order, and what each holds |
| InfoWire.WrittenBytes | contracts/container/contract.go:1617-1673 | one container byte by byte, for any owner |
| Ballots.TallyMeaning | common/vote.go:32-74 | a vote returns the number of distinct live voters, a repeated one changes nothing, a new one extends this ballot, drops expired ballots and leaves other live ballots as they were; ids stay pairwise distinct |
| Ballots.RemovalIsExactIff | common/vote.go:78-93 | removal takes away the decision's ballot and no other iff it has one |
| Ballots.BallotBox.Vote | common/vote.go:32-74 | the rebuild loop over the stored list computes that tally and keeps the list valid |
| Ballots.BallotBox.RemoveVotes | common/vote.go:78-93 | the in-place removal deletes the entry found and keeps the list valid |
| MainChain.NeoFS.FindInvoker | common/ir.go:18-26 | the loop returns the first alphabet key that witnessed the call, or nothing |
| MainChain.NeoFS.PayCheque | contracts/neofs/contract.go:221-259 | pays only once the vote is accepted; a refused GAS transfer undoes the vote too |
| MainChain.NeoFS.UpdateAlphabet | contracts/neofs/contract.go:266-313 | replaces the alphabet list only once the vote is accepted, and only by proper keys |
| MainChain.NeoFS.PutConfig | contracts/neofs/contract.go:323-356 | stores the value once the vote is accepted, with the guard on the argument that the code has |
| MainChainRuns.EveryRunIsSound | contracts/neofs/contract.go:229-250 | in every run each stored ballot is backed by noted votes of distinct voters, successive ones at most 20 blocks apart and all after the decision was last taken, and each decision taken had at least two thirds plus one of them |
| MainChainRuns.OnlyDecisionsArePerformed | contracts/neofs/contract.go:229-258 | what the contract has done is exactly what was decided by vote, in that order |
| MainChainRuns.EveryVoterIsKnown | contracts/neofs/contract.go:229-235 | in every run a counted vote is an alphabet node's iff its call is no configuration call that no alphabet node witnessed |
| MainChainRuns.OutsiderVotesIff | contracts/neofs/contract.go:323-340 | a quorum has a member that is no alphabet node iff one of its votes came from such a call |
| MainChainRuns.MembersDecide | contracts/neofs/contract.go:278-307 | where every configuration call was witnessed by some alphabet node, every decision has a quorum and each of its votes was cast by a node on the list in force when it was cast |
| MainChainRuns.FiringsNeedFreshVotes | contracts/neofs/contract.go:278-307 | in every run a decision taken again rests on a quorum of votes that were all cast after the time before |
| MainChainRuns.DecidingAgainNeedsOldVoters | contracts/neofs/contract.go:241-249 | in such a run, when a decision is taken twice under one alphabet list, more than a third of the list belongs to both quorums and voted again in between, so those who had not voted cannot take it again by themselves |
| MainChainRuns.CurrentMembersDecide | contracts/neofs/contract.go:241-249 | in such a run, if the list stayed the same since the quorum's first vote, the quorum consists of nodes on the list in force when the decision is taken, two thirds plus one of them |
| MainChainVotes.VotesAreForRequest | contracts/neofs/contract.go:241-249 | where ids are tied to requests, every vote of every quorum was for what was then done |
| MainChainVotes.VotesAreForRequestIff | contracts/neofs/contract.go:241-249 | for any rule about which requests are asked for under which ids: votes are for what is then done in every run that keeps to it iff it allows at most one request under each id |
| MainChainVotes.LastVoteDecides | contracts/neofs/contract.go:241-258 | under any id, a vote for one request and a vote for another make a quorum of two for the second |
| MainChainVotes.DroppedNodeDecides | common/vote.go:32-74 | a run in which a node's vote for a cheque counts for half of the decision after the alphabet list has dropped the node |
| MainChainVotes.OneNodeDecides | contracts/neofs/contract.go:334-352 | a run in which one node of two, with a threshold of two, has a cheque paid: the other vote came from a configuration call witnessed by nobody |
| MainChainPowers.ThresholdIs | contracts/neofs/contract.go:241 | the threshold is two thirds of the list, rounded down, and one |
| MainChainPowers.VoterIsFirst | common/ir.go:18-26 | a call votes for the first node on the list that witnessed it |
| MainChainPowers.WithNotaryIff | contracts/neofs/contract.go:273-312 | with notary a call goes through iff it has the alphabet's multi-signature and can be carried out, and is carried out at once |
| MainChainPowers.WithoutNotaryIff | contracts/neofs/contract.go:221-259 | without notary an accepted call is carried out, and its votes are gone, iff with its own there are votes of two thirds plus one within 20 blocks of each other; otherwise it is only counted; exactly which calls are refused |
| MainChainPowers.StoredIsDecided | contracts/neofs/contract.go:323-366 | in every run each configuration value and the alphabet list are what was last decided on and carried out |
| MainChainPowers.SignedIsDone | contracts/neofs/contract.go:221-366 | with notary exactly the feasible calls that the alphabet signed have been carried out, in order |
| MainChainPowers.ErrorsAreTrue | contracts/neofs/contract.go:221-366 | whatever the order of the checks, the reason a failing call gives is true |
| Accounts.TransferMoves | contracts/balance/contract.go:429-487 | a transfer changes the sum by what reaches proper addresses less what leaves them, no third balance or account changes, self-transfers change nothing, no balance turns negative |
| Accounts.TransferKeepsTotalIff | contracts/balance/contract.go:429-462 | the sum of balances survives iff both ends are proper addresses, or neither, or the amount is zero |
| Accounts.UnlockLeavesNoExpiredLock | contracts/balance/contract.go:179-200 | in any visiting order, also with locks nested in locks, the epoch loop completes, leaves no lock with 0 < until <= epoch, and touches only expired locks and their parents |
| Accounts.UnlockKeepsTotal | contracts/balance/contract.go:179-200 | unlocking keeps the sum of balances |
| Accounts.UnlockDelivers | contracts/balance/contract.go:179-200 | in any order and however locks are nested, every proper account ends up with exactly the money whose way through the visited locks ends there |
| Accounts.UnlockReachesOwnersIff | contracts/balance/contract.go:179-200 | no money of an expired lock ends at an expired lock iff each is visited before the lock it belongs to; then all of it reaches the first account above that is no expired lock |
| Accounts.UnlockPaysOwners | contracts/balance/contract.go:179-200 | visited in such an order, every proper account ends up with exactly what was its own directly or in expired locks within locks |
| Accounts.OrderMatters | contracts/balance/contract.go:179-200 | a lock of 7 within a lock of 5: outer first leaves 7 at the outer lock's address, inner first pays the owner 12 |
| Balance.Contract.TransferTokens | contracts/balance/contract.go:429-462 | the in-place debit and credit compute the specified ledger |
| Balance.Contract.MoveTokens | contracts/balance/contract.go:125-127 | a plain transfer obeys the rules |
| Balance.Contract.TransferByAlphabet | contracts/balance/contract.go:137-141 | a transfer on the alphabet's authority obeys the rules |
| Balance.Contract.LockTokens | contracts/balance/contract.go:151-172 | locking overwrites the target account and moves the amount; a failed transfer undoes it |
| Balance.Contract.UnlockExpired | contracts/balance/contract.go:179-200 | the loop over accounts read beforehand but fetched anew computes the specified unlocking |
| Balance.Contract.MintTokens | contracts/balance/contract.go:211-225 | minting obeys the rules |
| Balance.Contract.BurnTokens | contracts/balance/contract.go:238-256 | burning obeys the rules, including the fault on a negative supply |
| Balance.Contract.PayNodes | contracts/balance/contract.go:318-366 | the payment loop with its skips and its break on the first failed transfer computes ledger, success and running total as specified |
| Balance.Contract.SettleContainerPayment | contracts/balance/contract.go:286-384 | settlement obeys the rules for markers, notifications and payments |
| BalanceRuns.SupplyKeptIff | contracts/balance/contract.go:151-172 | total supply stays the sum of all balances iff the call is in step: proper addresses, and a lock target without money |
| BalanceRuns.LockOverMoney | contracts/balance/contract.go:156-162 | a lock over an account holding 7 makes 7 tokens vanish from the sum |
| BalanceRuns.NegativeSupplyIff | contracts/balance/contract.go:238-256 | the panic on a negative supply happens iff the alphabet burns more than the supply from the empty address |
| BalanceRuns.OrderKept | contracts/balance/contract.go:429-487 | no call makes a balance negative or a lock without proper owner, and the epoch call never faults |
| BalanceRuns.SupplyIsTotalIff | contracts/balance/contract.go:179-256 | through any run of calls as the contracts make them, the supply is always the sum of all balances iff every accepted call is in step |
| BalanceRuns.MarkersTellHistory | contracts/balance/contract.go:310-381 | over every run a container's settled epochs strictly increase; one marked unpaid since u was last paid before u, and u is its first failed epoch since then |
| BalanceRuns.StatusesAlternate | contracts/balance/contract.go:368-376 | the payment statuses announced for a container alternate true, false, and end with whether it is marked |
| BalanceLaws.PlainTransferIff | contracts/balance/contract.go:429-487 | a plain transfer faults iff the amount is negative, and moves money iff the sender signed or is the caller, both ends are 20-byte hashes and the sender has as much; what moves, and that nothing else does |
| BalanceLaws.AlphabetTransferIff | contracts/balance/contract.go:429-487 | with the alphabet's authority nobody needs to sign, an empty sender brings money from outside, improper ends are neither debited nor credited |
| BalanceLaws.EntryIff | contracts/balance/contract.go:125-143 | anyone may call for a plain transfer and only the alphabet for its own; supply and markers stay as they are |
| BalanceLaws.OthersCannotSpend | contracts/balance/contract.go:125-256 | no call takes from an account or touches its lock, except its own signed transfers, the alphabet's on it, a settlement of its container and the expiry of its lock |
| BalanceLaws.MoneyIsSafe | contracts/balance/contract.go:125-381 | through any run without such calls an account keeps what it has, under the same lock |
| BalanceLaws.LockIff | contracts/balance/contract.go:151-172 | locking goes through iff the payer has the amount; the target then is a lock of just that amount, until the given epoch, that knows the payer |
| BalanceLaws.LockedMoneyReturns | contracts/balance/contract.go:151-200 | through any calls the money stays in the lock until it runs out or the alphabet intervenes, and the epoch call that finds it expired gives the payer back at least the amount |
| BalanceLaws.BalancesStayNonNegative | contracts/balance/contract.go:429-487 | no balance is negative in any run whatsoever |
| BalanceLaws.MintIff | contracts/balance/contract.go:211-234 | minting goes through iff the alphabet asks for an amount that is not negative, and adds it to one balance and the supply |
| BalanceLaws.BurnIff | contracts/balance/contract.go:238-256 | burning goes through iff the alphabet asks for an amount that the account and the supply have, and takes it from both |
| BalanceLaws.SupplyIsIssued | contracts/balance/contract.go:211-256 | in every run the supply is what was minted less what was burned |
| BalanceLaws.ErrorsAreTrue | contracts/balance/contract.go:125-381 | whatever the order of the checks, the reason a failing call gives is true |
| SettlementRuns.SettleIff | contracts/balance/contract.go:286-381 | a settlement pays iff the alphabet asks for a container with an owner and a rate whose epoch before is not settled; ledger, recorded epoch and mark after it, on success and on failure; all other accepted settlements change nothing; exactly which fault |
| SettlementRuns.PayableMeans | contracts/balance/contract.go:319-358 | who is owed what: a node with something to charge, a live report under a proper key, online then; one unit for each whole 2^30 of rate times size, and one if there is none |
| SettlementRuns.MarkersTellCalls | contracts/balance/contract.go:310-381 | in every run the recorded epoch is that of the last due call that got everyone paid, and the mark that of the first due call since that did not |
| SettlementRuns.NotificationsTellCalls | contracts/balance/contract.go:365-381 | in every run exactly the payments and changes of status that the calls amount to have been announced, in order |
| SettlementRuns.SettledIff | contracts/balance/contract.go:286-381 | in every run a payment is on record for an epoch iff some call in the epoch after it was due and got everyone paid |
| Settlement.PayMakesDues | contracts/balance/contract.go:318-366 | the payments made are those due to a prefix of the entries: to all on success, otherwise up to an entry the owner cannot afford |
| Settlement.PayConserves | contracts/balance/contract.go:318-366 | on success and on partial failure the sum of balances is kept, and every account moves by what it received and, for the owner, paid |
| Settlement.OwnerLosesTotal | contracts/balance/contract.go:351-366 | with the owner not among the nodes its loss, the nodes' gain and the total reported are equal |
| Settlement.DuesArePayable | contracts/balance/contract.go:319-351 | only entries with a size, a live report and a node online in the payment epoch are paid |
| Settlement.PriceIsCloseIff | contracts/balance/contract.go:355-358 | a price is within one unit of the exact one iff rate times size is not between -2^30 and 0, and always within two; it is negative iff they come to -2^30 or less |
| Settlement.AmountIsClose | contracts/balance/contract.go:355-366 | 2^30 times the total is within 2^30 per payment of the rate times the sizes, and another 2^30 for each payment overcharged; so within 2^31 per payment for any rate and sizes |
| Settlement.PayPanicsIff | contracts/balance/contract.go:318-366 | settlement panics iff the loop reaches, with everything before it affordable, an entry with a size and an improper account or one to be paid whose rate times size is -2^30 or less |
| Settlement.PayRuns | contracts/balance/contract.go:318-366 | settlement never panics for sizes of -1 at least, rates from 0 to below 2^30 and proper node accounts |
| Settlement.NegativeSizePanics | contracts/balance/contract.go:355-366 | with a stored average of -1 a rate of 2^30 panics, and one less overcharges by more than a unit |
| Billing.SlotsMatchLog | contracts/container/contract.go:886-941 | the latest slot is the last report, the previous slot the record as it stood before the last epoch with reports |
| Billing.SlotsAnswerIff | contracts/balance/contract.go:319-343 | what settlement picks from two slots is what the full log answers, iff the record was not opened anew in the current epoch or nothing is to be charged |
| Billing.ReopeningForgets | contracts/container/contract.go:892-905 | a node to be charged 100 for epoch 5 that comes back in epoch 6 is charged nothing |
| Billing.AverageIsCloseToMean | contracts/container/contract.go:906-938 | after k reports of an epoch the stored average is within k of the exact time-weighted mean of all sizes of the epoch, corrected by exactly what opening the record anew in it adds |
| Billing.ReopenedIsCloseIff | contracts/container/contract.go:892-905 | right after opening the record anew the average is within k of the mean iff the size it opens with, counted from the beginning of the epoch, differs by less than k epochs' worth from what was reported until then |
| Billing.ReopeningForgetsTheEpoch | contracts/container/contract.go:892-905 | a mean of 999 is stored as 0 |
| Billing.AverageFromBelow | contracts/container/contract.go:906-938 | only the first report and rises round down, and while sizes only rise the average stays above zero |
| Billing.PickIsAtLeast | contracts/container/contract.go:906-938 | with at most three reports an epoch, made inside it, no size picked is below -1 |
| Billing.PickBelowZero | contracts/container/contract.go:918-938 | reports of 1, 2 and 0 in the middle of an epoch of four seconds leave an average of -1 |
| Billing.AreaIsBounded | contracts/container/contract.go:906-938 | with times in order inside the epoch that mean lies between the smallest and the largest size |
| ContainerLaws.CreateKeepsLedgerIff | contracts/container/contract.go:333-406 | creating a container keeps all sums exact iff the id is not live under another owner with something on its summary |
| ContainerLaws.NegativeReportBreaksSums | contracts/container/contract.go:968-983 | a first report of -5 is forgotten in the owner's total but not in the container's |
| ContainerLaws.EraseKeepsLedger | contracts/container/contract.go:1437-1464 | removal takes the container's summary off its owner and keeps every sum exact |
| ContainerLaws.TransferKeepsLedgerIff | contracts/container/contract.go:1342-1346 | handing over keeps each owner's taken space exact iff the summary is read as the size it holds |
| ContainerLaws.MisreadSummaryStays | contracts/container/contract.go:1342-1346 | a summary that is not empty, read as 0: the container has a new owner and the old one's total still holds its size |
| ContainerLaws.SaveKeepsSumsIff | contracts/container/contract.go:843-950 | a report keeps node, container and owner sums exact iff it does not push the owner's total below zero |
| ContainerLaws.SaveKeepsLedgerIff | contracts/container/contract.go:968-983 | an accepted report keeps the ledger iff its size and object count are not negative |
| ContainerLaws.CommitKeepsLedger | contracts/container/contract.go:649-738 | a commit succeeds iff the replica numbers are proper, and each departing node's report is subtracted exactly once from every sum, however many vectors it sat in |
| ContainerLaws.CommitReplacesList | contracts/container/contract.go:649-738 | the current list becomes exactly the staged one, the stage is empty after, other containers' lists and all remaining reports are unchanged |
| ContainerLaws.CommitKeepsMembership | contracts/container/contract.go:649-738 | afterwards whoever has a report on record is on the list, and the vectors in use form a prefix |
| ContainerLaws.CommitKeepsReportIff | contracts/container/contract.go:664-696 | a reporter keeps its report iff it is staged for one of the vectors given a replica number; those who keep reports are the members iff the replica numbers reach every reporter staged |
| ContainerLaws.ShortCommitDropsMember | contracts/container/contract.go:664-696 | committing fewer vectors than staged drops the report of a node that stays on the list |
| ContainerLaws.StageAdds | contracts/container/contract.go:563-587 | staging adds exactly the given nodes to one vector |
| ContainerLaws.StageKeepsMembership | contracts/container/contract.go:589-599 | the check of the vector's index keeps the staged vectors a prefix |
| ContainerLaws.SaveKeepsMembership | contracts/container/contract.go:1477-1490 | only listed nodes get a report on record |
| ContainerLaws.CreateKeepsIndexIff | contracts/container/contract.go:338-342 | creating keeps the owner index exact iff the id is not live under another owner |
| ContainerLaws.ApplyKeepsLedgerIff | contracts/container/contract.go:843-950 | an accepted call of any entry point keeps the three levels of sums iff it takes over no id with something on its summary, reads a summary it hands over as what it holds, and reports no negative size |
| ContainerLaws.ApplyKeepsIndexIff | contracts/container/contract.go:1330-1340 | an accepted call of any entry point keeps the owner index exact and live and deleted ids disjoint iff it takes over no id from another owner; no deleted mark is lost |
| ContainerContract.Contract.CreateV2 | contracts/container/contract.go:333-406 | creation obeys the rules and returns the id |
| ContainerContract.Contract.RemoveById | contracts/container/contract.go:447-476 | removal, prefix by prefix, obeys the rules |
| ContainerContract.Contract.TransferToken | contracts/container/contract.go:1307-1354 | the transfer obeys the rules |
| ContainerContract.Contract.SetLockAttribute | contracts/container/contract.go:1742-1750 | setting a lock obeys the rules: only to a later time |
| ContainerContract.Contract.RemoveLockAttribute | contracts/container/contract.go:1960-1966 | dropping a lock obeys the rules: only once it has run out |
| ContainerContract.Contract.StageForNextEpoch | contracts/container/contract.go:563-587 | the loop stages the keys, or nothing when one is malformed |
| ContainerContract.Contract.StillInNetmap | contracts/container/contract.go:671-679 | the inner loop finds out whether a departing node is staged for some vector |
| ContainerContract.Contract.DropOldNodes | contracts/container/contract.go:664-696 | the loop that deletes old entries and their reports accumulates exactly the change of the sums |
| ContainerContract.Contract.CommitContainerListUpdate | contracts/container/contract.go:649-738 | the three loops and the correction of the sums obey the rules of the commit |
| ContainerContract.Contract.NodeFromContainer | contracts/container/contract.go:1477-1490 | finds whether a key is on the current list |
| ContainerContract.Contract.UpdateUserTakenSpace | contracts/container/contract.go:968-983 | the clamped update is the specified one |
| ContainerContract.Contract.Refresh | contracts/container/contract.go:906-941 | the field updates of a further report produce the specified record and statistic |
| ContainerContract.Contract.SaveNodeReport | contracts/container/contract.go:843-950 | reporting obeys the rules, including the limit of three per epoch |
| ContainerRuns.EveryRunKeepsInvariantIff | contracts/container/contract.go:1437-1464 | through any run from deployment sums, membership and index always agree iff every accepted call is made with what `ApplyKeepsLedgerIff` and `ApplyKeepsIndexIff` say it needs |
| ContainerRuns.RemovedStaysRemoved | contracts/container/contract.go:339-342 | an id once removed is never live again, through any calls whatsoever |
| ContainerLocks.LockHolds | contracts/container/contract.go:1531-1545 | a container with an effective lock until U is never removed at a block time before U, through any calls of which each accepted one that creates it again brings a lock until U or later; if it has gone, `Remove` took it at U or later and left the mark |
| ContainerLocks.LockHoldsIff | contracts/container/contract.go:338-342 | where a container is only created again with its own content, its lock holds through all calls before it ends iff those attributes would not be accepted now or have a lock that ends no earlier |
| ContainerLocks.LockAtCreationHolds | contracts/container/contract.go:1547-1560 | in every run in which one id has one content, a lock given at creation holds through any calls, creating the container again included |
| ContainerLocks.HashedIdsFixContents | contracts/container/contract.go:338-339 | where ids are hashes of serializations that do not collide, every creation of one id brings the same owner and attributes |
| ContainerLocks.SetLockExtends | contracts/container/contract.go:1742-1750 | a lock that is accepted becomes the effective one and ends later than the one before |
| ContainerLocks.RecreationUnlocks | contracts/container/contract.go:338-342 | a run of four calls in one block: created without a lock, locked for ten seconds, created again the same, removed |
| ContainerLocks.RecreationReclaims | contracts/container/contract.go:338-342 | a run of three calls: created, handed over, created again; the first owner has it back and the index still lists it under the second |
| ContainerExamples.ReturningForgetsCharge | contracts/container/contract.go:892-905 | a run in which a node reports 100, leaves the list and returns in the next epoch: 100 is to be charged until it reports again, then nothing |
| ContainerExamples.RoundingPicksBelowZero | contracts/container/contract.go:918-938 | a run with every report inside its epoch and every size zero or more, after which -1 is charged |
| ContainerRuns.SlotsAnswerLogIff | contracts/container/contract.go:886-941 | in every reachable state the size settlement picks for the epoch before is what the log of all reports says, iff the record was not opened anew in the current epoch or nothing is to be charged |
| ContainerRuns.ReportKeepsChargeIff | contracts/container/contract.go:886-941 | in every reachable state a report leaves what is charged for the epoch before alone, iff the node has a report on record or nothing is to be charged |
| ContainerRuns.StoredAverageIsClose | contracts/container/contract.go:906-938 | in every reachable state the stored average is within three of the exact mean of all sizes in the epoch, plus what opening the record anew in it adds |
| ContainerRuns.PickedSizeIsAtLeast | contracts/container/contract.go:906-938 | in every reachable state whose calls came inside their epochs with sizes that are sizes, no size picked is below -1 |
| ContainerRuns.EveryReportHasOwnKey | contracts/container/contract.go:887-891 | in every reachable state a report carries the key of the account it is kept for |
| ContainerBills.FirstReportCharges | contracts/container/contract.go:860-905 | after a first report a node is charged for its bytes and 16384 for each object, in every later epoch |
| ContainerBills.LogTellsCalls | contracts/container/contract.go:860-941 | in every run the log that the billing laws are about is that of the bytes and objects reported by the calls, at 16384 an object |
| ContainerBills.ChargeTellsCalls | contracts/container/contract.go:860-941 | in every reachable state what settlement picks is what the bytes and objects reported say, iff the record was not opened anew while something was to be charged |
| ContainerBills.AverageTellsCalls | contracts/container/contract.go:906-938 | in every reachable state the stored average is within three of the mean of bytes and objects reported in the epoch, plus what opening the record anew adds |
| ContainerBills.NothingIsCharged | contracts/balance/contract.go:319-343 | a node that reported nothing before an epoch is charged nothing in it |
| ContainerExamples.ObjectsAreBilled | contracts/container/contract.go:860-905 | a run in which 100 bytes in 10 objects are charged as 163940 |
| ContainerRights.AcceptsIff | contracts/container/contract.go:333-1350 | exactly which calls of each entry point are accepted, with witnesses, lengths, limits and times written out |
| ContainerRights.CommitAcceptsIff | contracts/container/contract.go:649-738 | where the sums are kept a commit is accepted iff the alphabet makes it for a proper id with replica numbers up to 255 |
| ContainerRights.HandoverIff | contracts/container/contract.go:1307-1350 | a container has a new owner iff both sides signed; what else changes with it, and that nothing does otherwise |
| ContainerRights.OwnerChangesOnly | contracts/container/contract.go:1307-1350 | the owner of a live container changes only by a handover with both signatures or by creating it again |
| ContainerRights.CreationGives | contracts/container/contract.go:333-406 | a container appears only by the alphabet's call for an id never removed, with the owner and attributes given |
| ContainerRights.OwnerTellsCalls | contracts/container/contract.go:1307-1350 | in every run a live container belongs to whom it was last given |
| ContainerRights.RemovalClears | contracts/container/contract.go:1437-1464 | an accepted removal of a live container leaves nothing of it but the mark, in any of the maps, and touches nothing else |
| ContainerRights.SetLockWrites | contracts/container/contract.go:1712-1783 | setting a lock replaces the effective one, or adds one at the end; all other attributes, their order and the owner stay |
| ContainerRights.RemoveLockTakesOne | contracts/container/contract.go:1932-1985 | removing a lock takes away the effective one, which has run out, and nothing else |
| ContainerRights.OthersLast | contracts/container/contract.go:1712-1783 | through any calls that do not create it again a container keeps its attributes other than locks |
| ContainerRights.CommitDropsIff | contracts/container/contract.go:664-696 | a report goes with a commit iff its node is on the container's list and not staged for any of the vectors given a replica number |
| ContainerRights.CommitStoresReplicas | contracts/container/contract.go:698-726 | a commit stores exactly the replica numbers given, in order, and leaves those of other containers |
| ContainerRights.ErrorsAreTrue | contracts/container/contract.go:333-1350 | whatever the order of the checks, the reason a failing call gives is true |
| Payday.PayableIff | contracts/balance/contract.go:318-351 | an entry is paid iff its node has a report on record, was online in the epoch before, has something to be charged for by the log of its reports and no record opened anew since; it is paid for what the log says |
| Payday.PaymentsAreEarned | contracts/balance/contract.go:318-366 | over any runs of the container and netmap contracts, whoever is paid has its own key on a current report and was online among the candidates as they were in the epoch paid for, at the price of what the log says |
| Payday.EveryoneIsPaid | contracts/balance/contract.go:318-366 | with each billing entry listed once in any order, a settlement that is not stopped pays every node's account exactly the price of what the log says if it is served, has something to be charged and no record opened anew since, and nothing otherwise |
| Payday.OthersAreNotPaid | contracts/balance/contract.go:318-366 | an account that is no node's only loses the total, if it is the owner's |
| Payday.SettlementRuns | contracts/balance/contract.go:318-366 | over runs of the container contract inside epochs, a settlement at a rate from 0 to below 2^30 never panics |
| Netmap.Contract.ForgetStale | contracts/netmap/contract.go:655-670 | the loop removes exactly the candidates silent for longer than the threshold and notes whether there were any |
| Netmap.Contract.UpdateNetmap | contracts/netmap/contract.go:655-698 | cleanup, new version and copy obey the rules |
| Netmap.Contract.DropNetmaps | contracts/netmap/contract.go:717-731 | the loop with its early exit removes exactly the snapshots older than the retained ones |
| Netmap.Contract.BeginEpoch | contracts/netmap/contract.go:286-311 | an epoch change obeys the rules |
| Netmap.Contract.AddCandidate | contracts/netmap/contract.go:176-209 | adding a node obeys the rules |
| Netmap.Contract.UpdateCandidateState | contracts/netmap/contract.go:228-242 | a change of state obeys the rules |
| Netmap.Contract.ProposeState | contracts/netmap/contract.go:266-275 | a node's own change of state obeys the rules |
| Netmap.Contract.RemoveNode | contracts/netmap/contract.go:215-222 | the alphabet's removal of a node obeys the rules |
| Netmap.Contract.SetSnapshotCount | contracts/netmap/contract.go:444-455 | a new count takes effect at once |
| Netmap.Contract.SetThreshold | contracts/netmap/contract.go:555-562 | setting the cleanup threshold obeys the rules |
| Netmap.Contract.NmVersionForEpoch | contracts/netmap/contract.go:399-412 | the backwards walk finds the version recorded for the latest epoch not after the one asked |
| Netmap.Contract.IsStorageNodeStatus | contracts/netmap/contract.go:421-431 | the answer is the specified one |
| NetmapRuns.EveryRunIsHistoric | contracts/netmap/contract.go:655-731 | in every run the index gives the version in force at every epoch so far, skipped numbers included, retained snapshots are as taken and there are no others, and without changes the newest is the candidate list |
| NetmapRuns.StatusIsFaithful | contracts/netmap/contract.go:421-431 | while its version is retained, a past epoch's status query answers from the candidates as they were then |
| NetmapRuns.EpochIsCoherent | contracts/netmap/contract.go:286-311 | after an epoch change the newest snapshot is the candidate list |
| NetmapRuns.EpochForgetsSilent | contracts/netmap/contract.go:655-670 | after an epoch change every remaining candidate was active within the threshold |
| NetmapRuns.VersionMovesIff | contracts/netmap/contract.go:655-698 | the version stays iff nothing changed and nobody was silent for too long |
| NetmapActivity.AcceptsIff | contracts/netmap/contract.go:176-311 | exactly which calls of each entry point are accepted |
| NetmapActivity.RecordTellsCalls | contracts/netmap/contract.go:176-250 | in every run a node is a candidate iff the calls made for it say so and no epoch change found them too old; information, state and last activity are those of its latest accepted calls |
| NetmapActivity.EpochForgetsInactive | contracts/netmap/contract.go:655-670 | after any run an epoch change with a threshold forgets exactly the candidates without an accepted call in the epochs up to the threshold |
| NetmapActivity.SettingsTellCalls | contracts/netmap/contract.go:286-562 | in every run epoch, threshold and snapshot count are as last set, and each epoch's block is that of the call that began it |
| NetmapActivity.ErrorsAreTrue | contracts/netmap/contract.go:176-562 | whatever the order of the checks, the reason a failing call gives is true |
| EpochTimes.GetEpochBlockByTime | contracts/netmap/contract.go:611-633 | the loop terminates and computes the specified search |
| EpochTimes.SearchIsScan | contracts/netmap/contract.go:611-633 | over epochs recorded without gaps the search is a linear scan for the latest epoch begun by then |
| EpochTimes.SearchIsScanIff | contracts/netmap/contract.go:611-633 | the search is right at all times iff wherever halving meets an unrecorded epoch nothing to its left is recorded |
| EpochTimes.GapMisleads | contracts/netmap/contract.go:616-624 | with epochs 1 and 5 recorded a time within epoch 1 finds nothing |
| EpochTimes.RecordIsContiguous | contracts/netmap/contract.go:305-308 | in every run that starts the epochs one by one the record has no gaps |
| EpochTimes.EverySearchIsScan | contracts/netmap/contract.go:611-633 | in every such run the search finds the block of the latest epoch begun by then, at any time |
| Labels.SplitJoin | contracts/nns/contract.go:927-940 | splitting at dots inverts joining labels |
| Labels.SuffixIsCut | contracts/nns/contract.go:1066-1079 | cutting a name at the running offset drops whole labels |
| Labels.CheckFragmentLoop | contracts/nns/contract.go:894-918 | the loop decides the syntax of a label |
| Labels.SafeSplitAndCheck | contracts/nns/contract.go:927-940 | splits iff the name is well formed |
| Labels.LabelIff | contracts/nns/contract.go:894-918 | a label is 1 to 63 letters, digits and hyphens, no hyphen first or last; the root label has at most 16 and begins with a letter |
| Labels.NameIff | contracts/nns/contract.go:927-950 | the names are exactly the lists of such labels joined by dots, of 3 to 255 characters |
| NameServiceLaws.TokenIsLongestLive | contracts/nns/contract.go:1063-1081 | the token of a name is its longest registered, unexpired, non-TLD suffix, or the name itself when there is none |
| NameServiceLaws.EveryRunAgrees | contracts/nns/contract.go:691-727 | in every run the token index holds exactly the owned non-TLD names, each balance is the number of an account's tokens, supply is the number of such names and the sum of balances, and record ids are 0..n-1 with n at most sixteen and at most one alias |
| NameServiceLaws.RegisterAgrees | contracts/nns/contract.go:322-372 | first registration and re-registration after expiry keep index, balances and supply in agreement |
| NameServiceLaws.RegisterRootAgrees | contracts/nns/contract.go:386-401 | registering a top-level domain changes none of them |
| NameServiceLaws.TransferAgrees | contracts/nns/contract.go:207-237 | a transfer moves one token in index and balances together |
| NameServiceLaws.StepKeepsDense | contracts/nns/contract.go:531-557 | every entry point keeps record ids dense and bounded, so that a new record never overwrites one |
| NameServiceLaws.AliasIff | contracts/nns/contract.go:1085-1111 | a name has an alias iff it has the alias record 0, whose data it is |
| NameServiceLaws.LiveNameIsKept | contracts/nns/contract.go:322-372 | without the owner's signature no call changes a live name's owner or admin or shortens it |
| NameServiceLaws.OwnerKeepsNameUntilExpiry | contracts/nns/contract.go:322-372 | through any run before expiry in which the owner signs nothing it stays the owner |
| NameServiceRights.RegistryAcceptsIff | contracts/nns/contract.go:207-478 | exactly which registrations, handovers, renewals and changes of admin and SOA are accepted |
| NameServiceRights.ResultsTell | contracts/nns/contract.go:207-372 | a registration answers whether the name was free, a handover whether the owner signed |
| NameServiceRights.NamesTellCalls | contracts/nns/contract.go:207-478 | in every run owner, expiry and admin of each name are what the accepted calls made them: registered from now on, handed over without admin, prolonged by 365 days a year |
| NameServiceRights.RecordsAcceptIff | contracts/nns/contract.go:482-619 | exactly which calls that add, replace or delete records are accepted |
| NameServiceRights.RecordChangesOnly | contracts/nns/contract.go:482-619 | a record appears, changes or goes only by a call of somebody entitled to the domain it is kept under, or as the SOA record of a name that is registered or has it replaced |
| NameServiceRights.AddIsRead | contracts/nns/contract.go:531-557 | a record that is added is read after those of its kind, and all other data as before |
| NameServiceRights.SetIsRead | contracts/nns/contract.go:482-494 | a record that is replaced is read in its place, and all other data as before |
| NameServiceRights.DeletedAreGone | contracts/nns/contract.go:599-619 | deleted records are no longer read, and all other data as before |
| NameServiceRights.ReadErrorsAreTrue | contracts/nns/contract.go:571-582 | reading that fails gives a true reason |
| NameServiceRights.TrailingDot | contracts/nns/contract.go:643-653 | a trailing dot makes no difference to resolving a name, but lets a top-level name through that is refused without it |
| NameServiceRights.ErrorsAreTrue | contracts/nns/contract.go:207-619 | whatever the order of the checks, the reason a failing call gives is true |
| NameServiceRights.LongNamesAreInvalid | contracts/nns/contract.go:425-478 | a name of more than 255 characters is refused as invalid before anything is looked up |
| NameServiceShadows.StepKeepsUnshadowed | contracts/nns/contract.go:277-290 | every entry point keeps it so that no domain holds records for names below a live subdomain of it |
| NameServiceShadows.StepHidesIff | contracts/nns/contract.go:277-290 | a call leaves nothing hidden, the subdomain's own name included, iff it is no accepted registration that makes a name live for which the parent keeps a record |
| NameServiceShadows.RegisterKeepsUnshadowed | contracts/nns/contract.go:344-346 | the conflict check on registration is enough for names below the new one |
| NameServiceShadows.RegistrationHides | contracts/nns/contract.go:344-372 | after an accepted registration a record that the parent keeps for the name is still stored, while the name's token is the name itself until it expires |
| NameServiceShadows.RunNeverHidesIff | contracts/nns/contract.go:277-290 | a run from deployment never hides a record iff none of its accepted registrations makes a name live for which the parent keeps a record |
| NameServiceShadows.RegisteringHidesRecord | contracts/nns/contract.go:277-290 | a run after which a record of dom.com for sub.dom.com resolves, and does not once sub.dom.com is registered |
| NameServiceShadows.NothingIsHidden | contracts/nns/contract.go:277-290 | in every run, where a subdomain stands no domain above it holds records for names below it, nor for its own name if the run meets the condition of `RunNeverHidesIff` |
| NameServiceLaws.ChainsAreUnique | contracts/nns/contract.go:1085-1111 | from one name there is at most one chain of aliases |
| NameServiceLaws.ResolveIff | contracts/nns/contract.go:643-653 | resolving yields r iff r is what is collected along the chain of at most three names, and fails without such a chain |
| NameServiceLaws.GetRecordsIff | contracts/nns/contract.go:571-582 | direct reading succeeds iff the domain holding the records stands and is the name itself or one label above |
| NameServiceLaws.DeepNameIsRefused | contracts/nns/contract.go:571-582 | a record two labels below its domain is found by resolving and refused by reading |
| NameServiceContract.Contract.HasParentExpired | contracts/nns/contract.go:294-312 | the walk from the root down finds whether some parent is missing or expired |
| NameServiceContract.Contract.TokenIDFromName | contracts/nns/contract.go:1063-1081 | the loop over offsets computes the specified token |
| NameServiceContract.Contract.GetNameState | contracts/nns/contract.go:742-764 | faults on a missing name and on an expired name or parent, else yields the state |
| NameServiceContract.Contract.HasConflict | contracts/nns/contract.go:277-290 | the loop finds a parent's record for a longer name that ends with this one |
| NameServiceContract.Contract.UpdateBalance | contracts/nns/contract.go:691-711 | moves one token on an account's balance and index entry; an empty balance is deleted |
| NameServiceContract.Contract.CheckRegistration | contracts/nns/contract.go:323-351 | the checks before registration, in order |
| NameServiceContract.Contract.Register | contracts/nns/contract.go:322-372 | registration obeys the rules |
| NameServiceContract.Contract.RegisterTLD | contracts/nns/contract.go:378-414 | registering a top-level domain obeys the rules |
| NameServiceContract.Contract.Transfer | contracts/nns/contract.go:207-237 | transferring a name obeys the rules |
| NameServiceContract.Contract.Renew | contracts/nns/contract.go:425-446 | renewal obeys the rules |
| NameServiceContract.Contract.SetAdmin | contracts/nns/contract.go:459-478 | setting the admin obeys the rules |
| NameServiceContract.Contract.UpdateSOA | contracts/nns/contract.go:449-456 | replacing the SOA record obeys the rules |
| NameServiceContract.Contract.CheckRecordData | contracts/nns/contract.go:497-527 | the checks on name, type, data and caller, in order |
| NameServiceContract.Contract.CountRecords | contracts/nns/contract.go:537-546 | the loop counts the records of a type unless one holds the data already |
| NameServiceContract.Contract.AddRecord | contracts/nns/contract.go:531-557 | adding a record obeys the rules |
| NameServiceContract.Contract.SetRecord | contracts/nns/contract.go:482-494 | replacing a record obeys the rules |
| NameServiceContract.Contract.DeleteRecords | contracts/nns/contract.go:599-619 | deleting the records of a type obeys the rules |
| NameServiceContract.Contract.ReadAll | contracts/nns/contract.go:1096-1105 | one pass in key order appends the data of a type in order of id and finds the alias |
| NameServiceContract.Contract.ResolveFrom | contracts/nns/contract.go:1085-1111 | the recursion with its accumulated result computes the specified resolution |
| NameServiceContract.Contract.ResolveRecords | contracts/nns/contract.go:643-653 | the entry point refuses top-level names and resolves with two redirects |
| NameServiceContract.Contract.ReadRecords | contracts/nns/contract.go:571-582 | reading records obeys the rules |

## Left out

- BalanceRuns.SupplyKeptIff: for settlement it takes the owner that the container contract answers as a proper address; the other calls have both directions.
- Billing.AverageIsCloseToMean: for an epoch whose beginning and length do not change between its reports; the configured length can change within an epoch.
- ContainerRuns.PickedSizeIsAtLeast: for reports made inside their epochs; one made after the next epoch was due weighs the change with a negative rest.
- MainChainRuns.DecidingAgainNeedsOldVoters: for an alphabet list that stays the same; after a change of the list the quorums may be disjoint.
- EpochTimes.SearchIsScanIff: taken for epochs begun in successive blocks; with equal heights two epochs cannot be told apart by the answer.
- InfoCodec.ToBytes: for messages that fit a Go `int`; nothing larger can exist in the VM.
- NameServiceContract.Contract.ReadAll: reading is specified for dense record ids, which `EveryRunAgrees` proves of every reachable state.
- Container creation: session tokens, signatures, fees, alias domains and their checks, and every attribute except the lock; lock values are integers rather than decimal strings.
- BalanceRuns.SupplyIsTotalIff: for runs in which locks are taken for proper accounts, the epoch call lists the accounts, and owners are script hashes.
- ContainerContract.Contract.CreateV2: an id is an input of creation; what its being the hash of the serialization gives is `HashedIdsFixContents`.
- ContainerLocks.LockHoldsIff: for ids of 32 bytes, as SHA-256 digests are; no other id can be removed.
- ContainerLaws.TransferKeepsLedgerIff: `decoded` stands for what the integer conversion makes of the stored structure.
- Containers: eACL tables, quotas, CORS, S3 attributes and placement signatures, which check payloads and keep no derived data.
- Placement vectors of a commit are counted without the 8-bit wrap-around of the index, which more than 256 of them would meet.
- Netmap: configuration values, subscribers called on a new epoch, migrations; epochs and versions are unbounded where the code stores 32 bits.
- Balance: the account a billing statistic belongs to is part of its key; transaction details and notifications other than payment ones.
- Main chain: deposits, withdrawals, candidates and contract updates.
- Name service: records of type Neo, prices and burned gas, the check of IPv4 and IPv6 data (an input), the text of SOA records and their serial numbers (inputs), receivers' callbacks.
- Every contract: deployment, updates and migrations; a run starts from the freshly deployed state.
- Reputation, proxy, processing and alphabet contracts, and all client code: thin wrappers without derived data.
