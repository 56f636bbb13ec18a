# LineProof: a verified model

This project models the parts of LineProof whose correctness is hard to see by reading: the Soroban authorization
matcher and rent fees it deploys against (the patched host kept in the repository), its three stateful contracts, and
the off-chain algorithms of the SDK and the backend. Every claim below is proved in Dafny for all inputs, all runs and
all interleavings of the model.

`dafny verify dfyconfig.toml` checks everything.

## How it is built

Each component comes in the same three parts:

1. **A specification.** State is a datatype and each operation a function on it, with the source's branches, order of
   checks, constants and overflow panics (`AuthTree`, `AuthTracker`, `AuthAccount`, `AuthManager`, `Fees`, `WriteFee`,
   `Queue`, `Escrow`, `Enrollment`, `Stroops`, `Sequence`, `RateLimit`, `EnrollmentIndex`). A contract call that panics
   is `Panic` and has no effect on the storage.
2. **Theorems** about that specification over whole runs (`AuthRuns`, `AuthManagerRuns`, `AuthManagerTheorems`,
   `AuthDiscipline`, `AuthDelegation`, `FeePaths`, `QueueProofs`, `QueueCursor`, `EscrowProofs`, `EnrollmentProofs`,
   `StroopsProofs`, `SequenceProofs`, `EnrollmentIndexProofs`), and theorems that say exactly what each operation does
   without naming its body: when it succeeds, for whom, and what a run's calls by themselves make of the state
   (`AuthCompleteness`, `AuthSignatures`, `FeeValues`, `QueueCalls`, `EscrowCalls`, `EnrollmentCalls`,
   `EnrollmentIndexMap`).
3. **Objects** where the source updates state in place: classes and loops whose methods are proved equal to the
   specification's transitions, panics and unchanged parts included (`AuthClasses`, `AuthManagerClass`,
   `QueueContract`, `EscrowContract`, `EnrollmentContract`, `SequenceClient`, `RateLimitClasses`,
   `EnrollmentIndexService`).

**Authorization.** A tracker matches a signed tree of invocations against the call stack, one frame at a time; a
failing frame rolls back to a snapshot. `AuthRuns` runs one tracker through frames nested and failing in any way and
keeps a history of matches beside it. `AuthManagerRuns` runs all account trackers and the trackers that contracts
create for their own sub-calls in step with one call stack; `AuthManagerTheorems` draws the consequences for a whole
transaction and projects it onto each single tracker. An internal error aborts the run: the theorems say exactly when
one can occur. One of them is worth knowing: a contract that has delegated since its last sub-call returned and then
fails does not fail alone, because the snapshot no longer fits the grown vector, so its caller cannot catch the error.
`AuthDiscipline` proves what the search for an account's tracker is designed for: disjoint entries of one address cannot
be combined to authorize one tree of calls. `AuthDelegation` proves the one-shot use of the trees contracts delegate.
The other direction is in `AuthCompleteness`: exactly when authorization is given, and that every signed tree of calls
can be made. `AuthSignatures` proves that without a valid signature nothing is used.

**Fees.** Saturating integer arithmetic is written out. Order independence holds through saturation because all rents
have the sign of the configured rate. Path independence is exact for growing before extending, and off by at most one,
in either direction, for extending before growing. `FeeValues` gives the exact amounts wherever nothing saturates.

**Contracts.** The queue is fair over whole runs, its counter and cursor agree with its positions, and its events
rebuild all of its storage except the cursor and a proposed admin. `ARCHITECTURE.md` says auditors can reconstruct the
advancement history from Advanced and Skipped events. For the cursor this is true exactly when the position after the
furthest one those events name had not expired before the queue was closed; the cursor is then at that furthest
position. Every admin call over a run was made by the admin in force. The escrow conserves every queue's deposits and
expires none before its hold ends. Waiting lists are served first come, first served. The enrollment count is not always
the number of active records; the exact surplus is proved, with a run that has one. A queue can be initialized a second
time; that keeps its storage consistent exactly when nobody has enrolled yet.

**Off-chain.** Amounts survive the round trip through text exactly on the range a contract can hold. Concurrent
sequence reservations are consecutive unless a refresh is forced. With refreshes, no point of a run lets callers alone
hand out a number again exactly when every answer is above the numbers handed out before it. The rate limiter admits
at most `max` requests a window and fewer than `2 * max` in any interval of a window's length. The backend's
enrollment index is exact.

## Model

| member | source | states |
|---|---|---|
| `AuthRuns.FrameRollbackExact` | contracts/.patched/soroban-env-host/src/auth.rs:1584-1598 | From every point of every run of a tracker (frames nested and failing in any way), entering a frame, doing anything inside, rolling back to the entry snapshot and leaving gives back the very same state: every flag, the stack, the root frame, both status flags and the list of matches |
| `AuthRuns.NoAuthorizationUsedTwice` | contracts/.patched/soroban-env-host/src/auth.rs:1638-1670 | At every point of every run the used nodes are exactly the nodes of the matches that no rollback undid: as many, pairwise distinct, each for the function its node authorizes; the ancestors of a used node are used, and nothing but flags differs from the signed tree |
| `AuthRuns.StackAtEveryBoundary` | contracts/.patched/soroban-env-host/src/auth.rs:1563-1608 | At every point of every run the stack is Unmatched*, or Unmatched* RootMatch (SubMatch or Unmatched)*; the path walk does not fail and ends at a used node reached through the functions matched in the open frames in order; the tracker is active exactly while its root match is on the stack |
| `AuthRuns.RunActSound` | contracts/.patched/soroban-env-host/src/auth.rs:1628-1732 | No frame or match meets an internal error or breaks the audit invariant, and a frame that fails leaves the state it was entered in |
| `AuthManagerTheorems.TransactionUsesEachNodeOnce` | contracts/.patched/soroban-env-host/src/auth.rs:920-986 | After a transaction that succeeds, the used nodes of each entry are one distinct node for each authorization it granted and no rollback undid; after one that fails, none is used and the manager is as before; only flags ever differ from what was signed |
| `AuthDiscipline.EntriesAreUsedTogether` | contracts/.patched/soroban-env-host/src/auth.rs:920-986 | At every point of every transaction: when two entries of one address are both in use, each has a match at the frame of the later root match, so disjoint entries never add up to one tree of calls |
| `AuthDiscipline.RootNeedsPermission` | contracts/.patched/soroban-env-host/src/auth.rs:1628-1671 | A tracker whose root is not on the stack can match only if matching a root is allowed |
| `AuthDelegation.DelegationUsesEachNodeOnce` | contracts/.patched/soroban-env-host/src/auth.rs:853-917 | At every point of every transaction, the used nodes of each entry a contract delegated and that is still in force are one distinct node for each call it authorized and no rollback undid, and only its flags have changed |
| `AuthManagerTheorems.UsedNodesAreMatches` | contracts/.patched/soroban-env-host/src/auth.rs:920-986 | At the end of any calls, failed ones included, the used nodes of each entry are one distinct node for each match no rollback undid |
| `AuthManagerTheorems.BodyMatchesAreGrants` | contracts/.patched/soroban-env-host/src/auth.rs:1834-1879 | Where nothing has failed, every match is a granted authorization |
| `AuthManagerTheorems.FailingCall` | contracts/.patched/soroban-env-host/src/auth.rs:1177-1251 | When a failing call pops its frame, the invoker trackers are those of its snapshot plus those created since its last sub-call returned; the run aborts exactly when that number is positive, otherwise the manager is what it was before the call, less the trackers prepared for that call |
| `AuthManagerTheorems.DelegatingThenFailingAborts` | contracts/.patched/soroban-env-host/src/auth.rs:1224-1238 | The abort happens: from a new manager, a contract that delegates and then traps aborts the transaction although its caller catches the failure |
| `AuthManagerTheorems.InvokersFormAStack` | contracts/.patched/soroban-env-host/src/auth.rs:1323-1380 | Stack lengths never increase along the invoker vector, and after a call returns what is left are exactly the trackers that were in scope before it, in order, none of them empty |
| `AuthManagerTheorems.PendingCounts` | contracts/.patched/soroban-env-host/src/auth.rs:853-872 | The trackers waiting in a contract's frame for its next call are as many as its executed actions created since its last call returned |
| `AuthManagerTheorems.RequireAbortsIff` | contracts/.patched/soroban-env-host/src/auth.rs:875-986 | `require_auth` aborts the run exactly outside every frame, or when a contract asks for its own authorization right after delegating that very invocation and no earlier tracker of it matches |
| `AuthManagerTheorems.SelfDelegationAborts` | contracts/.patched/soroban-env-host/src/auth.rs:1628-1671 | The second abort happens: a contract delegates its current invocation to itself and then requires its own authorization |
| `AuthManagerTheorems.SearchFaultIff` | contracts/.patched/soroban-env-host/src/auth.rs:875-917 | The search through the invoker trackers faults exactly when its first match would be the root of a tracker with an empty stack |
| `AuthManagerTheorems.NeverAborts` | contracts/.patched/soroban-env-host/src/auth.rs:1254-1380 | A run in which no contract delegates and authorization is asked for only inside frames never meets an internal error, whatever fails in it, and leaves no tracker waiting |
| `AuthManagerTheorems.FailedTransactionLeavesNoTrace` | contracts/.patched/soroban-env-host/src/auth.rs:1287-1380 | A top-level host function that fails without an abort leaves the manager untouched; one that succeeds changes nothing on its way out |
| `AuthManagerTheorems.ProjectBodyRuns` | contracts/.patched/soroban-env-host/src/auth.rs:1254-1380 | Whatever the manager does, each of its account trackers goes through a run of its own, with the same matches, frames and rollbacks |
| `AuthCompleteness.SignedTreeIsAuthorized` | contracts/.patched/soroban-env-host/src/auth.rs:920-986 | What an address has signed it can do: a transaction that makes the calls of a signed tree in order, each asking for its authorization, succeeds and uses every node, whatever other addresses have signed; the address is not itself a contract making one of the calls (those need no entry) and signed one entry |
| `AuthCompleteness.DelegatedCallSucceeds` | contracts/.patched/soroban-env-host/src/auth.rs:853-917 | What a contract delegates it can have done: from every state a run can be in, an entry added for the next call authorizes its function without any signature when the called contract makes it |
| `AuthCompleteness.RequireSucceedsIff` | contracts/.patched/soroban-env-host/src/auth.rs:875-986 | Where it does not abort, `require_auth` succeeds exactly for a contract's own direct call, a call that a delegated entry of it matches, or a call whose first matching signed entry is verified or verifies now |
| `AuthCompleteness.MatchIff` | contracts/.patched/soroban-env-host/src/auth.rs:1628-1671 | A match is found exactly when the current frame has none yet and an unused child of the deepest matched node authorizes the function or, with nothing matched, the unused root does and may be matched |
| `AuthCompleteness.FirstChildTaken` | contracts/.patched/soroban-env-host/src/auth.rs:1638-1648 | The child taken is the first unused one that authorizes the function; the new state is exact |
| `AuthCompleteness.RootTaken` | contracts/.patched/soroban-env-host/src/auth.rs:1649-1671 | With nothing matched the root is taken, and the tracker remembers the frame; the new state is exact |
| `AuthCompleteness.AuthorizeIff` | contracts/.patched/soroban-env-host/src/auth.rs:1834-1879 | An entry grants what it matches exactly when it is verified or its signature holds now, and refuses it exactly otherwise |
| `AuthSignatures.VerifiedMeansSigned` | contracts/.patched/soroban-env-host/src/auth.rs:1850-1875 | At every point of every transaction an entry is verified only if its address asked with a valid signature in a part that no rollback undid |
| `AuthSignatures.NoSignatureNoUse` | contracts/.patched/soroban-env-host/src/auth.rs:1850-1875 | A transaction in which no signature is valid verifies no entry and uses no node, whether it succeeds or fails |
| `AuthManagerRuns.StepSound` | contracts/.patched/soroban-env-host/src/auth.rs:1177-1380 | Every action keeps the manager's invariant and the trackers in scope; after a call or contract creation none is out of scope; a failing call has one of two exact outcomes |
| `AuthManagerRuns.FailSound` | contracts/.patched/soroban-env-host/src/auth.rs:1177-1251 | Rolling back and leaving a frame restores the manager before it, or is an internal error, according to whether trackers are pending |
| `AuthManagerRuns.CommitSound` | contracts/.patched/soroban-env-host/src/auth.rs:1323-1380 | Leaving a frame normally keeps the invariant and removes the invoker trackers created in it and those its caller had prepared for it, and no other |
| `AuthManagerRuns.DropIsExact` | contracts/.patched/soroban-env-host/src/auth.rs:1359-1378 | With depths in order, the trailing loop removes exactly the trackers that are out of scope |
| `AuthManagerRuns.DelegateSound` | contracts/.patched/soroban-env-host/src/auth.rs:853-872 | Each decoded entry adds one tracker waiting for the current frame's next call; the invariant is kept also when a malformed entry stops the call |
| `AuthManagerRuns.RequireSound` | contracts/.patched/soroban-env-host/src/auth.rs:920-986 | `require_auth` keeps the manager's invariant and creates or drops no tracker |
| `AuthManagerRuns.EnterManager` | contracts/.patched/soroban-env-host/src/auth.rs:1254-1317 | Pushing a frame brings every tracker into scope and keeps the invariant |
| `AuthTracker.ExtendInv` | contracts/.patched/soroban-env-host/src/auth.rs:1628-1671 | A match puts its mark on the top frame, uses one unused node that authorizes the function and extends the matched path by it (`AuthCompleteness.MatchIff` says exactly when there is one) |
| `AuthTracker.ExtendErrorIff` | contracts/.patched/soroban-env-host/src/auth.rs:1628-1671 | A match fails internally exactly when the root would match while the stack is empty; the path walk never fails |
| `AuthTracker.WalkFollowsIndices` | contracts/.patched/soroban-env-host/src/auth.rs:699-727 | On every well-shaped stack that names a node, the walk ends at the node the recorded child indices spell |
| `AuthTracker.ShapeByPosition` | contracts/.patched/soroban-env-host/src/auth.rs:1563-1581 | The inductive shape of the stack, read off position by position in both directions |
| `AuthTracker.ActiveIff` | contracts/.patched/soroban-env-host/src/auth.rs:1605-1608 | The computed `is_active` agrees with the stack: the root match is there, at the recorded frame |
| `AuthTracker.RollbackPopExact` | contracts/.patched/soroban-env-host/src/auth.rs:1722-1732 | Rolling back to the entry snapshot and popping is the inverse of pushing, whatever happened between |
| `AuthTracker.PopInv` | contracts/.patched/soroban-env-host/src/auth.rs:1591-1598 | Popping keeps the invariant; leaving the root's frame marks the tracker processed |
| `AuthTree.RestoreExact` | contracts/.patched/soroban-env-host/src/auth.rs:729-758 | A snapshot fits every tree of the same shape and restores every flag |
| `AuthTree.ExhaustSetsOneFlag` | contracts/.patched/soroban-env-host/src/auth.rs:1638-1670 | Using a node sets that node's flag and no other, and changes nothing else |
| `AuthTree.ExhaustKeepsParentClosed` | contracts/.patched/soroban-env-host/src/auth.rs:1638-1670 | Using a child of a used node keeps the used nodes closed under parents |
| `AuthTree.NewIsUnused` | contracts/.patched/soroban-env-host/src/auth.rs:638-666 | A tree built from a signed entry keeps its functions and has no used node |
| `AuthAccount.AuthorizeMatches` | contracts/.patched/soroban-env-host/src/auth.rs:1834-1879 | A grant or a refusal comes from one match; a grant needs a verified entry or a valid signature, a refusal has neither; the only fault is that of the match |
| `AuthClasses.InvocationTracker.MaybeExtendInvocationMatch` | contracts/.patched/soroban-env-host/src/auth.rs:1628-1671 | The in-place update computes the match that `AuthCompleteness.MatchIff`, `FirstChildTaken` and `RootTaken` pin down |
| `AuthClasses.InvocationTracker.WalkFrom` | contracts/.patched/soroban-env-host/src/auth.rs:699-727 | The loop over the stack computes the recursive walk |
| `AuthClasses.InvocationTracker.LastAuthorizedInvocation` | contracts/.patched/soroban-env-host/src/auth.rs:1563-1581 | The loop that looks for the root match computes the walk from the tree's root |
| `AuthClasses.InvocationTracker.PushFrame` | contracts/.patched/soroban-env-host/src/auth.rs:1584-1588 | The pushed state |
| `AuthClasses.InvocationTracker.PopFrame` | contracts/.patched/soroban-env-host/src/auth.rs:1591-1598 | The popped state |
| `AuthClasses.InvocationTracker.IsActiveNow` | contracts/.patched/soroban-env-host/src/auth.rs:1606-1608 | The activity of the state |
| `AuthClasses.InvocationTracker.CurrentFrameIsAlreadyMatched` | contracts/.patched/soroban-env-host/src/auth.rs:1611-1616 | Whether the top frame has been matched |
| `AuthClasses.InvocationTracker.RollbackNode` | contracts/.patched/soroban-env-host/src/auth.rs:744-758 | The recursive rollback, error included |
| `AuthClasses.InvocationTracker.RollbackTo` | contracts/.patched/soroban-env-host/src/auth.rs:1722-1732 | The rolled-back state, status flags included |
| `AuthClasses.AccountTracker.MaybeAuthorize` | contracts/.patched/soroban-env-host/src/auth.rs:1834-1879 | The answer and the state after it, for a verified and an unverified account: the grants and refusals of `AuthCompleteness.AuthorizeIff` |
| `AuthClasses.AccountTracker.RollbackTo` | contracts/.patched/soroban-env-host/src/auth.rs:2134-2142 | The tracker and the `verified` flag are rolled back together |
| `AuthManagerClass.AuthorizationManager.PushContractFrame` | contracts/.patched/soroban-env-host/src/auth.rs:1287-1317 | Every tracker is pushed, and the snapshot is taken after that |
| `AuthManagerClass.AuthorizationManager.PushCreateContractFrame` | contracts/.patched/soroban-env-host/src/auth.rs:1272-1281 | Every tracker is pushed; there is no snapshot |
| `AuthManagerClass.AuthorizationManager.Snapshot` | contracts/.patched/soroban-env-host/src/auth.rs:1122-1173 | The snapshot of every tracker |
| `AuthManagerClass.AuthorizationManager.Rollback` | contracts/.patched/soroban-env-host/src/auth.rs:1177-1251 | Every tracker is rolled back, or the counts or shapes do not fit |
| `AuthManagerClass.AuthorizationManager.PopContractFrame` | contracts/.patched/soroban-env-host/src/auth.rs:1323-1380 | Rollback, pop and removal of trackers out of scope, in that order |
| `AuthManagerClass.AuthorizationManager.AddInvokerContractAuth` | contracts/.patched/soroban-env-host/src/auth.rs:853-872 | The trackers appended, also when an entry is malformed |
| `AuthManagerClass.AuthorizationManager.MaybeCheckInvokerContractAuth` | contracts/.patched/soroban-env-host/src/auth.rs:875-917 | The direct invoker, no invoker, and the search through the trackers, with the tracker updated in place |
| `AuthManagerClass.AuthorizationManager.RequireAuthorization` | contracts/.patched/soroban-env-host/src/auth.rs:920-986 | The answer, whose success `AuthCompleteness.RequireSucceedsIff` characterises, and the new state of all trackers |
| `FeePaths.GrowThenExtend` | contracts/.patched/soroban-env-host/src/fees.rs:356-388 | For a live entry within one ledger, growing first and extending afterwards costs exactly what doing both at once costs |
| `FeePaths.ExtendThenGrow` | contracts/.patched/soroban-env-host/src/fees.rs:356-388 | Extending first and growing afterwards differs from doing both at once by at most one |
| `FeePaths.ExtendThenGrowIsTight` | contracts/.patched/soroban-env-host/src/fees.rs:356-388 | Both differences, one less and one more, occur |
| `FeePaths.PathIndependence` | contracts/.patched/soroban-env-host/src/fees.rs:356-409 | Over any number of steps in one ledger the rent is at least the rounded price of the whole way and exceeds it by less than two a step |
| `FeePaths.ChargedGrowThenExtend` | contracts/.patched/soroban-env-host/src/fees.rs:286-317 | The same exactness for the fee as charged, TTL entry writes included |
| `FeeValues.RentOfNew` | contracts/.patched/soroban-env-host/src/fees.rs:334-341 | A new entry pays the rounded-up price of its whole size from the current ledger to its last one, both included, at the rate of its durability |
| `FeeValues.RentOfExisting` | contracts/.patched/soroban-env-host/src/fees.rs:356-409 | An existing entry, live or expired, pays for the ledgers added at its new size and for its growth over the ledgers still prepaid, each rounded up |
| `FeeValues.RentFeeExact` | contracts/.patched/soroban-env-host/src/fees.rs:286-317 | The fee of any list of entries is the sum of their rents, one TTL entry write for each extended entry and the price of the bytes of those |
| `FeeValues.FeeOfNewEntry` | contracts/.patched/soroban-env-host/src/fees.rs:286-341 | What creating one entry costs altogether, TTL write included |
| `FeeValues.ExtractIsExact` | contracts/.patched/soroban-env-host/src/e2e_invoke.rs:237-273 | Every ledger change that extends or grows an entry with a TTL is charged exactly once, with its sizes and ledgers, and nothing else is |
| `FeeValues.BelowExact` | contracts/.patched/soroban-env-host/src/fees.rs:241-264 | Below the target size the fee is the minimum or, if larger, the low fee plus the rounded-up share of the span |
| `FeeValues.PastExact` | contracts/.patched/soroban-env-host/src/fees.rs:265-276 | Past it by `x` the fee is the minimum or, if larger, the high fee plus span times `x` times the growth factor over the target size, rounded up |
| `FeeValues.AtTwiceTheTarget` | contracts/.patched/soroban-env-host/src/fees.rs:265-276 | So at twice the target it is the high fee plus the growth factor times the span |
| `Fees.RentFeeOrderIndependent` | contracts/.patched/soroban-env-host/src/fees.rs:286-317 | Any permutation of the changed entries costs the same, through saturation and for every configuration |
| `Fees.RunningFeeIsClampedTotal` | contracts/.patched/soroban-env-host/src/fees.rs:286-317 | The saturating running sum is the exact sum, clamped once at the end |
| `Fees.RentHasRateSign` | contracts/.patched/soroban-env-host/src/fees.rs:356-409 | Every entry's rent has the sign of the configured rate |
| `Fees.NoOpIsFree` | contracts/.patched/soroban-env-host/src/fees.rs:330-388 | A change that neither grows nor extends an existing entry costs nothing and writes no TTL entry |
| `Fees.ExtractKeepsFee` | contracts/.patched/soroban-env-host/src/e2e_invoke.rs:237-273 | Filtering the no-op changes out changes no fee, for every configuration |
| `Fees.ComputeRentFee` | contracts/.patched/soroban-env-host/src/fees.rs:286-317 | The loop over accumulators computes the fee whose exact amount `FeeValues.RentFeeExact` gives |
| `WriteFee.WriteFeeMonotone` | contracts/.patched/soroban-env-host/src/fees.rs:241-276 | A larger bucket list never makes writing cheaper, across the target and through both saturations; below the target the fee is between the low and the high fee, or the minimum (the values are `FeeValues.BelowExact` and `PastExact`) |
| `WriteFee.MonotoneFromIff` | contracts/.patched/soroban-env-host/src/fees.rs:241-276 | For every size, negative ones included: writing never gets cheaper from that size on exactly when the multiplier times the size rounds up to zero or more, or the low fee is so negative that the minimum hides the difference |
| `WriteFee.BelowBounded` | contracts/.patched/soroban-env-host/src/fees.rs:241-276 | Below the target the interpolated fee stays between the low and the high fee |
| `WriteFee.PastMono` | contracts/.patched/soroban-env-host/src/fees.rs:241-276 | Past the target the steep part is monotone and starts at the high fee, through both saturations (`FeeValues.PastExact` gives its value without them) |
| `WriteFee.NegativeSizeIsCharged` | contracts/.patched/soroban-env-host/src/fees.rs:241-276 | A negative size on which it fails: it is charged the largest fee there is |
| `QueueProofs.FirstInFirstOut` | contracts/lineproof-queue/src/lib.rs:288-381 | Over any run the ids returned by all calls of `advance` strictly increase and are exactly the Advanced positions; nobody is advanced while a lower id is pending; nothing up to the cursor is pending and nothing beyond it is advanced |
| `QueueProofs.AdvanceSplits` | contracts/lineproof-queue/src/lib.rs:305-373 | In one ledger, advancing `a` and then `b` gives the state and the ids of advancing `a + b` |
| `QueueProofs.BatchesDrainQueue` | contracts/lineproof-queue/src/lib.rs:288-381 | Enough batches to cover the positions after the cursor leave nobody pending |
| `QueueProofs.CapacityBound` | contracts/lineproof-queue/src/lib.rs:208-286 | In every reachable state ids are exactly 1 to next_id - 1, and the active count is the number of positions not cancelled, within capacity |
| `QueueProofs.Lifecycle` | contracts/lineproof-queue/src/lib.rs:166-286 | The status never moves backwards, a position keeps its participant and enrolment time, one that has left Pending never changes, and after enrollment closes nobody joins |
| `QueueProofs.EventsRebuildQueue` | ARCHITECTURE.md:92-98 | Replaying the published events rebuilds positions, status, next id, active count and admin (all but the cursor and a proposed admin) |
| `QueueProofs.CursorNotInEvents` | contracts/lineproof-queue/src/lib.rs:305-355 | One call moves the cursor by its Advanced and Skipped events plus the expired positions it passes; counting the events of the call gives the way it went exactly when it passes none |
| `QueueCalls.CallSucceedsIff` | contracts/lineproof-queue/src/lib.rs:124-506 | After any run: exactly which calls succeed, by caller, status and arguments, for every entry point; among them that only a position's owner cancels it and only the admin advances |
| `QueueCalls.AdvanceOkIff` | contracts/lineproof-queue/src/lib.rs:288-303 | In any storage, `advance` succeeds exactly for the admin, a positive batch, the first-in-first-out rule and a queue closed for enrollment or advancing |
| `QueueCalls.OnlyTheAdminActs` | contracts/lineproof-queue/src/lib.rs:124-506 | Over any run every admin call was made by the admin in force at that moment, every event names that admin and its call's time, ownership passes only to the address whose proposal stood, and the final configuration is what the calls made of it |
| `QueueCalls.EveryEndHasItsCall` | contracts/lineproof-queue/src/lib.rs:256-506 | After any run a position is advanced, expired or cancelled exactly when a successful call did it: an `advance` that returned it and whose time it carries, an expiry that listed it, a cancellation by its owner |
| `QueueCalls.PositionsAreEnrolments` | contracts/lineproof-queue/src/lib.rs:208-254 | The positions are the successful enrolments, numbered from one in their order, each with its caller, its time and the id it was answered with |
| `QueueCursor.CursorOpenIff` | ARCHITECTURE.md:92-98 | For every run: another run publishes the same events and ends with another cursor exactly when the position after the furthest one named by an Advanced or Skipped event had expired before the queue was closed, which the events tell |
| `QueueCursor.CursorBounds` | ARCHITECTURE.md:92-98 | After every run the cursor stands at the furthest position the events name, or beyond it with only positions between that had expired before the queue was closed |
| `QueueCursor.OpenPositionsAreCurrent` | ARCHITECTURE.md:92-98 | While a queue is not closed, the positions those conditions speak of are its present ones |
| `QueueCursor.CappedRun` | contracts/lineproof-queue/src/lib.rs:305-355 | Every run can be repeated with the same events, positions and status and its cursor held at any point its events do not go beyond |
| `QueueProofs.SameEventsTwoCursors` | ARCHITECTURE.md:92-98 | An open cursor happens on every queue with two places: two runs publish the same events and leave the same positions but different cursors |
| `QueueProofs.ScanServes` | contracts/lineproof-queue/src/lib.rs:305-355 | The scan serves exactly the pending positions it passes, reports the cancelled ones and stops where the batch or the queue ends |
| `QueueProofs.ExpireAllIff` | contracts/lineproof-queue/src/lib.rs:481-506 | A batch expires exactly when its ids are distinct and pending, and then expires these and no others |
| `QueueProofs.CancelInv` | contracts/lineproof-queue/src/lib.rs:256-286 | A cancellation lowers the active count by exactly one: the saturating subtraction never saturates |
| `QueueContract.QueueContract.Initialize` | contracts/lineproof-queue/src/lib.rs:90-122 | The storage of a freshly initialized queue, which satisfies the invariant, or the panic when the configuration names another admin |
| `QueueContract.QueueContract.InitializeAgain` | contracts/lineproof-queue/src/lib.rs:90-122 | A second `initialize` is not refused: what it changes and what it leaves |
| `QueueProofs.InitializeAgainIff` | contracts/lineproof-queue/src/lib.rs:90-122 | Initializing again keeps the storage consistent exactly when no position has been created |
| `QueueContract.QueueContract.AdvancePositions` | contracts/lineproof-queue/src/lib.rs:288-381 | Storage, result and events of `advance`, every panic included (who may call: `QueueCalls.AdvanceOkIff`) |
| `QueueContract.QueueContract.ScanPositions` | contracts/lineproof-queue/src/lib.rs:305-355 | The loop computes the specified scan |
| `QueueContract.QueueContract.EnrollPosition` | contracts/lineproof-queue/src/lib.rs:208-254 | Storage, result and events of `enroll_position` |
| `QueueContract.QueueContract.CancelPosition` | contracts/lineproof-queue/src/lib.rs:256-286 | Storage and events of `cancel_position` |
| `QueueContract.QueueContract.ExpirePosition` | contracts/lineproof-queue/src/lib.rs:456-479 | Storage and events of `expire_position` |
| `QueueContract.QueueContract.ExpirePositionsBatch` | contracts/lineproof-queue/src/lib.rs:481-506 | Storage and events of the batch; a panic leaves nothing behind |
| `QueueContract.QueueContract.OpenEnrollment` | contracts/lineproof-queue/src/lib.rs:166-185 | Storage and events of `open_enrollment` |
| `QueueContract.QueueContract.CloseEnrollment` | contracts/lineproof-queue/src/lib.rs:187-206 | Storage and events of `close_enrollment` |
| `QueueContract.QueueContract.Close` | contracts/lineproof-queue/src/lib.rs:435-454 | Storage and events of `close` |
| `QueueContract.QueueContract.ProposeAdmin` | contracts/lineproof-queue/src/lib.rs:124-132 | Storage of `propose_admin` |
| `QueueContract.QueueContract.AcceptAdmin` | contracts/lineproof-queue/src/lib.rs:134-164 | Storage and events of `accept_admin` |
| `QueueContract.QueueContract.TotalEnrolled` | contracts/lineproof-queue/src/lib.rs:405-422 | In consistent storage, the number of all positions ever created, cancelled ones included; their ids are 1 to that number |
| `QueueContract.QueueContract.ActiveEnrolled` | contracts/lineproof-queue/src/lib.rs:424-433 | In consistent storage, the number of positions not cancelled, at most the capacity |
| `EscrowProofs.EscrowConservation` | contracts/lineproof-escrow/src/lib.rs:58-154 | After any run, for every queue: the stored total is the sum of its active records' amounts, never negative, and deposits equal held plus released plus refunded plus expired |
| `EscrowProofs.LeavesActiveOnce` | contracts/lineproof-escrow/src/lib.rs:103-154 | Over any run each key is deposited to at most once and settled at most once, and only after that; the record says which |
| `EscrowProofs.StepIsLocal` | contracts/lineproof-escrow/src/lib.rs:58-154 | A call changes at most its own record and its own queue's total, never an amount, never a settled record |
| `EscrowProofs.SettledForGood` | contracts/lineproof-escrow/src/lib.rs:103-154 | A record that has left Active stays the same for ever |
| `EscrowProofs.EventsRebuildEscrow` | contracts/lineproof-escrow/src/lib.rs:58-154 | Replaying the events rebuilds every record's amount and status |
| `EscrowCalls.CallSucceedsIff` | contracts/lineproof-escrow/src/lib.rs:58-189 | After any run: exactly which calls succeed; a deposit within the bounds of its queue's configuration, the clock and what the queue's active records leave of the total's range, a settlement only of an active record, an expiry only after its hold |
| `EscrowCalls.RecordsTellTheirCalls` | contracts/lineproof-escrow/src/lib.rs:58-154 | After any run a key has a record exactly when its deposit succeeded and is released, refunded or expired exactly when such a call did; the record keeps the deposit's amount, asset and time, its hold follows from the configuration then in force, its settlement carries the call's time, and none expired before its hold ended |
| `EscrowContract.EscrowContract.Deposit` | contracts/lineproof-escrow/src/lib.rs:58-101 | Storage and event of `deposit`, every panic included |
| `EscrowContract.EscrowContract.Release` | contracts/lineproof-escrow/src/lib.rs:103-118 | Storage and event of `release` |
| `EscrowContract.EscrowContract.Refund` | contracts/lineproof-escrow/src/lib.rs:120-135 | Storage and event of `refund` |
| `EscrowContract.EscrowContract.Expire` | contracts/lineproof-escrow/src/lib.rs:137-154 | Storage and event of `expire` |
| `EscrowContract.EscrowContract.DecrementTotal` | contracts/lineproof-escrow/src/lib.rs:223-230 | The queue's total goes down by the amount |
| `EscrowContract.EscrowContract.SetConfig` | contracts/lineproof-escrow/src/lib.rs:176-189 | Storage of `set_config` |
| `EscrowContract.EscrowContract.GetTotalHeld` | contracts/lineproof-escrow/src/lib.rs:191-194 | The stored total, or zero |
| `EnrollmentProofs.CountIsActivePlusPromotions` | contracts/lineproof-enrollment/src/lib.rs:58-368 | After any run a queue's count is its active records plus the promotions made while the identity was still active; it is exact precisely when there were none; waiting lists stay duplicate-free |
| `EnrollmentProofs.CountCanDrift` | contracts/lineproof-enrollment/src/lib.rs:319-368 | Such a promotion does happen: the count can be two with one active record |
| `EnrollmentProofs.CancelDrift` | contracts/lineproof-enrollment/src/lib.rs:197-232 | A cancellation always finds a positive count, so the guard on the decrement never matters, and the drift stays |
| `EnrollmentProofs.PromoteSplits` | contracts/lineproof-enrollment/src/lib.rs:319-368 | In one ledger, promoting `a` and then `b` is promoting `a + b`, success included |
| `EnrollmentCalls.FirstComeFirstServed` | contracts/lineproof-enrollment/src/lib.rs:319-368 | At every point of every run the waiting list is everybody who joined it, in that order, without those served, and every promotion gives a new record to exactly the next in line |
| `EnrollmentCalls.StepOkIff` | contracts/lineproof-enrollment/src/lib.rs:58-368 | Exactly which calls succeed in any storage; a promotion exactly when the count has room for all it takes |
| `EnrollmentCalls.PromoteTakesHead` | contracts/lineproof-enrollment/src/lib.rs:319-368 | Promoting takes that many from the head of the list, gives each a new record and touches no other record and no other list |
| `EnrollmentCalls.RecordHistory` | contracts/lineproof-enrollment/src/lib.rs:58-368 | After any run a record is what the calls about its key made of it, each enrolment and promotion starting it afresh and an enrolment counting those since the last promotion; every enrolment is answered with the matching proof |
| `EnrollmentContract.EnrollmentContract.Enroll` | contracts/lineproof-enrollment/src/lib.rs:58-195 | Storage and result of `enroll` for all duplicate behaviours |
| `EnrollmentContract.EnrollmentContract.Cancel` | contracts/lineproof-enrollment/src/lib.rs:197-232 | Storage of `cancel` |
| `EnrollmentContract.EnrollmentContract.FinalizeEnrollment` | contracts/lineproof-enrollment/src/lib.rs:271-294 | Storage of `finalize_enrollment` |
| `EnrollmentContract.EnrollmentContract.PromoteFromWaitlist` | contracts/lineproof-enrollment/src/lib.rs:319-368 | The loop over the head of the list computes the specified promotions |
| `EnrollmentContract.EnrollmentContract.SetDuplicateBehavior` | contracts/lineproof-enrollment/src/lib.rs:247-269 | The behaviour stored |
| `EnrollmentContract.EnrollmentContract.GetCount` | contracts/lineproof-enrollment/src/lib.rs:296-299 | The stored count, or zero |
| `EnrollmentContract.EnrollmentContract.GetWaitlist` | contracts/lineproof-enrollment/src/lib.rs:309-312 | The stored list, or an empty one |
| `EnrollmentContract.EnrollmentContract.WaitlistPosition` | contracts/lineproof-enrollment/src/lib.rs:314-317 | The first place of the identity on the list, or none |
| `StroopsProofs.RoundTripIff` | sdk/src/utils.ts:412-469 | Printing and parsing an integer gives it back exactly when it is between 0 and the i128 maximum |
| `StroopsProofs.AcceptedIffExact` | sdk/src/utils.ts:412-455 | A string is accepted exactly when, trimmed, it is digits with at most seven more after a point and its value fits an i128; the result is then that value in stroops |
| `StroopsProofs.StroopsOfIsExact` | sdk/src/utils.ts:412-455 | That value is the decimal times ten to the seventh, without rounding |
| `StroopsProofs.FromStroopsOfAccepted` | sdk/src/utils.ts:412-469 | Printing what was accepted gives the canonical form of the string |
| `SequenceProofs.ReservationsAreConsecutive` | sdk/src/client.ts:204-238 | In every interleaving without a forced refresh at most one request is in flight, no caller about to take a number finds the cache empty, whether it found one cached or waited for its request, and the numbers handed out are distinct and, in order, those from the fetched sequence on |
| `SequenceProofs.DistinctIffAnswersNew` | sdk/src/client.ts:199-238 | With any forced refreshes: no point of a run lets callers alone hand out a number again exactly when every answer that arrived was above all numbers handed out before it; the numbers then increase throughout |
| `SequenceProofs.CanRepeatIff` | sdk/src/client.ts:229-238 | In any state callers alone can hand out a number again exactly when a number handed out is not below the cached one |
| `SequenceProofs.ReservationsCount` | sdk/src/client.ts:229-238 | Reservations alone extend the log by consecutive numbers from the cached one on |
| `SequenceProofs.CallersGetWhatTheyWaitFor` | sdk/src/client.ts:204-238 | In every interleaving without a forced refresh a waiting caller is done only after its request settled, and has failed exactly when that failed; one that found a number cached always gets one; a waiting caller whose request has settled is done by its next resumption |
| `SequenceProofs.RefreshCanRepeatNumbers` | sdk/src/client.ts:199-202 | A stale answer happens: a forced refresh that fetches the same sequence again makes two callers hold one number |
| `SequenceClient.SequenceClient.BeginReserve` | sdk/src/client.ts:204-233 | From the call to its await: the step of the protocol, other accounts untouched |
| `SequenceClient.SequenceClient.ResumeReserve` | sdk/src/client.ts:233-238 | After the await: read, increment and hand out, or fail |
| `SequenceClient.SequenceClient.OnAccount` | sdk/src/client.ts:219-223 | The answer to a request fills the cache |
| `SequenceClient.SequenceClient.OnError` | sdk/src/client.ts:216-226 | A failed request does not touch the cache |
| `SequenceClient.SequenceClient.OnFinally` | sdk/src/client.ts:224-226 | The `finally` callback forgets whatever request the account has |
| `SequenceClient.SequenceClient.ForceRefresh` | sdk/src/client.ts:204-211 | A forced refresh drops the cache and the request and asks again |
| `RateLimit.WindowAdmitsAtMostMax` | backend/src/middleware/rateLimiter.ts:54-80 | Each counter window admits at most `max` requests of a client, whatever the clock does |
| `RateLimit.IntervalAdmitsFewerThanTwiceMax` | backend/src/middleware/rateLimiter.ts:54-80 | With a clock that does not run backwards, any closed interval of one window's length admits at most 2 * max - 1 requests of a client (none when max is 0) |
| `RateLimit.IntervalBoundIsReached` | backend/src/middleware/rateLimiter.ts:54-80 | That bound is reached for every `max` and window of at least one |
| `RateLimit.AdmittedIff` | backend/src/middleware/rateLimiter.ts:54-80 | Each request is decided by the client's own earlier requests alone, whatever the clock does: it is counted in the open window, or opens one, and is admitted exactly when fewer than `max` were counted there |
| `RateLimit.WindowsStayInStepIff` | backend/src/middleware/rateLimiter.ts:54-80 | The announced window stays the counted one exactly when the clock does not move past its end, or at all, between the two readings |
| `RateLimitClasses.RateLimiter.Announce` | backend/src/middleware/rateLimiter.ts:58-67 | The reset time announced, a new one when there is none or it has passed; counters stay although the source deletes the key |
| `RateLimitClasses.RateLimiter.Handle` | backend/src/middleware/rateLimiter.ts:54-80 | Decision, all four headers (times in whole seconds, rounded up) and new state of one request; no other client and no other namespace is touched |
| `RateLimitClasses.MemoryAdapter.IncrementCounter` | backend/src/storage/memoryAdapter.ts:58-68 | The counter goes up, afresh after its expiry; no other counter changes |
| `RateLimitClasses.MemoryAdapter.Get` | backend/src/storage/memoryAdapter.ts:42-44 | The stored value; nothing observable changes |
| `RateLimitClasses.MemoryAdapter.Set` | backend/src/storage/memoryAdapter.ts:46-48 | One value changes |
| `RateLimitClasses.MemoryAdapter.Delete` | backend/src/storage/memoryAdapter.ts:50-52 | One value goes; counters are kept elsewhere and stay |
| `EnrollmentIndexProofs.IndexAgrees` | backend/src/services/enrollmentService.ts:34-76 | In every reachable store each queue's index lists, without duplicates, exactly the identities holding an active record for it, and each identity holds at most one such record |
| `EnrollmentIndexProofs.LookupIsScan` | backend/src/services/enrollmentService.ts:81-91 | The indexed lookup returns exactly the records a scan over all identities finds, as a multiset, whatever order the scan takes |
| `EnrollmentIndexProofs.LookupOnePerIdentity` | backend/src/services/enrollmentService.ts:81-91 | The lookup answers one record for each indexed identity, in the order of the index |
| `EnrollmentIndexProofs.LookupInEnrollmentOrder` | backend/src/services/enrollmentService.ts:34-91 | After any run with a clock that does not run backwards, the lookup answers in order of enrollment time, with no identity twice |
| `EnrollmentIndexMap.ServiceIsAMap` | backend/src/services/enrollmentService.ts:34-91 | After any run the service answers from a map of enrolled pairs to times: a conflict exactly when the pair is in it, a cancellation succeeds exactly when it is, a lookup returns exactly the pairs of its queue with their times |
| `EnrollmentIndexMap.RecordsAreKept` | backend/src/services/enrollmentService.ts:34-76 | Records are never dropped, moved or rewritten; all that can happen to one is that it is cancelled |
| `EnrollmentIndexService.EnrollmentService.EnrollIdentity` | backend/src/services/enrollmentService.ts:34-57 | The reply and the new store, for a first enrollment and for a conflict |
| `EnrollmentIndexService.EnrollmentService.CancelEnrollment` | backend/src/services/enrollmentService.ts:59-76 | The reply and the new store; afterwards the identity is not indexed for the queue |
| `EnrollmentIndexService.EnrollmentService.GetEnrollmentsByQueue` | backend/src/services/enrollmentService.ts:81-91 | The loop over the index computes the specified lookup |

## Left out

Authorization (`auth.rs`)

- Signatures, nonces and account contracts: whether an unverified account authenticates is an input of each `require_auth`; trackers borrowed while `__check_auth` runs are not modelled.
- Recording mode, XDR conversion, budget metering, tracker hashes and the borrow checks of shared cells.
- Tree nodes are values inside their tracker, which owns them; updating a node is updating the tracker's tree.
- AuthClasses.InvocationTracker.RollbackTo: says nothing about the state after an internal error, because the run is over then.
- AuthClasses.AccountTracker.RollbackTo: says nothing about the state after an internal error, because the run is over then.
- AuthManagerClass.AuthorizationManager.Rollback: says nothing about the state after an internal error, because the run is over then.
- AuthManagerClass.AuthorizationManager.PopContractFrame: says nothing about the state after an internal error, because the run is over then.
- AuthManagerClass.AuthorizationManager.RequireAuthorization: says nothing about the state after an internal error, because the run is over then.
- AuthCompleteness.SignedTreeIsAuthorized: the address signed one entry and is not a contract that makes one of the calls; with more entries another one may be used in its place, and a contract's own calls use none.
- AuthCompleteness.DelegatedCallSucceeds: speaks of the entry's own function; the calls below it are covered by AuthCompleteness.RequireSucceedsIff one at a time.
- The frame of a contract creation takes no snapshot and passes an error on; delegating an entry outside a contract's frame is an ordinary error.

Fees

- FeePaths.GrowThenExtend: holds for a live existing entry and without saturation, a condition on the last stage only; with saturation no exactness is claimed.
- FeeValues.RentOfNew: like every lemma of `FeeValues` that states an amount, assumes that nothing saturates and that rate denominators are positive.
- FeePaths.PathIndependence: same condition; the rounding of a step is bounded, not computed.
- The resource fee of a whole transaction and the building of the ledger changes.

Contracts

- Time to live, `require_auth`, symbols and memos of events, and read-only getters that return a stored value.
- Queue: calls before the first `initialize` and runs that continue after a second one, contract upgrade and migration, slug, name, enrollment window and priority weight; the priority-tier and random rules panic.
- Escrow: the default configuration of `get_config`; asset and times are not rebuilt from events.
- Enrollment: events; the proof hash is a value that determines its inputs; the clock is an argument.
- `lineproof-identity` and `lineproof-queue-factory`: set and list upkeep with admin checks.

Off-chain

- Amounts given as JavaScript numbers; errors thrown by the SDK are `Panic`.
- SequenceProofs.ReservationsAreConsecutive: excludes forced refreshes, with which numbers need not be consecutive; SequenceProofs.DistinctIffAnswersNew allows them. Signing, submission and retries are not modelled.
- The state of one account at a time is stepped; accounts do not share state.
- Rate limiter: the client key's normalization, the environment's settings, the status and body of a refusal; the two namespaces of a limiter differ.
- RateLimit.IntervalAdmitsFewerThanTwiceMax: assumes a clock that does not run backwards; the bound for one window does not.
- Enrollment service: the store hands out its own arrays, so a caller of `getEnrollmentsByIdentity` could change them; emitted service events; times are integers.
- Pagination, event polling, webhooks, queue statistics, HTTP routes, the Postgres adapter and the frontend.
