# Money transfers between in-memory accounts, with advisory locks and a write-ahead log

This project is a Dafny model of the core of a small Java service that holds accounts in memory and moves money between them. The model has four parts.

- **The advisory lock table** (`AdvisoryLockServiceImp`, module `AdvisoryLock`).
  - It is a set of held account ids.
  - `acquire` sorts the requested ids in their natural order. The sort is modelled as an in-place insertion sort on an array, comparing strings character by character.
  - It then takes all the ids or none of them. On failure it retries up to `retryTimes` times, doubling a pause each time. The pause is a Java `long`, and its overflow makes the source throw where it should give up; see "## Findings". The rest of the model uses the corrected acquire.
  - The token it returns is the sorted ids joined by `':'`.
  - `release` splits the token on `':'` with Java's `String.split` rules. It frees the ids only when every one of them is held; otherwise it throws.
- **The transfer coordinator** (`TransferServiceImp`, modules `TransferProtocol`, `TransferProperties` and `Transfers`). A transfer goes through these steps:
  1. Lock both ids, then create a START log.
  2. Check the balance.
  3. Before each balance change, set the log status and save the log: DEBIT before the debit, CREDIT before the credit.
  4. Mark the log COMPLETED, save it and notify both holders.
  5. On any exception, roll back:
     - Compensate by the last status. Each compensation applies only when the account's `updateAt` is not older than the log's `updatedAt`, and a failing compensation save is swallowed.
     - Then mark the log FAILED, save it and rethrow.
  6. Always release the lock.

  `TransferProtocol` states this as functions over a `World` value: the lock table, the two accounts, the trace of calls, the saved log states and the delivered notices. The try block is a plan of single steps (`Action`s). `Run` executes them and stops at the first step that throws. The class `Transfers.TransferServiceImp` changes its objects in place, and each of its methods is proved to produce exactly the new state that `TransferProtocol` computes from the old one. `TransferProperties` proves what the service promises about those functions.
- **The entry point** (`AccountsServiceImp`, module `Accounts`):
  - `getAccount` locks the one id, reads it, then releases the lock;
  - `transfer` reports the first unknown id, from first and then to, and otherwise delegates to the coordinator;
  - `createAccount` delegates to the store.
- **The transfer-log history** (`TransferRepositoryLogInMemory`, module `TransferLogRepository`). It is a map from `from + ":" + to` to the logs appended for that pair. It can be searched by an inclusive update-time range.

The domain records `Account` and `TransferLog` are classes, because the code changes them through setters. Their snapshots are the datatypes `AccountView` and `TransferLogRecord`. Balances are `BigDecimal` in the source and exact integers here. Times are integers bounded by `LocalDateTime.MIN` and `MAX`.

The parts of the environment that are outside the model become explicit inputs:

- **Clock readings:**
  - `logTime` is when the log is created.
  - `rollbackTime` is when compensations are stamped.
  - `now` is the reading used by `findFor`.
- **The random log id:** `freshId`.
- **Failures of the store and of the notifier:** an `ExternalCalls` object records every save and notification in order, and the call with index `failAt` throws.

**Where the code and its documentation differ, the model follows the code:**

- The `TransferService` interface says that a balance change also updates the account's `updateAt`. `debitOrCreditAccount` never does. So the guard in `updateAccount` compares the accounts' old stamps with the log's creation time, and nothing advances either stamp during a transfer.
- The coordinator calls `transferRepositoryLog.save(log)`, which the repository interface does not declare. It is modelled as recording a snapshot of the log. That save can throw.

**Consequences of the code as written, stated as lemmas:**

- `StaleStampSkipsCompensation`: an account whose stamp is older than the log is never compensated.
- `LostDebitLogRefundsAnyway` and `LostCreditLogChargesBackAnyway`: the status is set before the save that may throw, so a failed save of DEBIT or CREDIT leads rollback to compensate a balance change that never happened.
- `LateFailureKeepsMovedAmount`: a failure after both balance writes leaves the money moved, while the log ends FAILED and the caller sees the exception.
- Both release paths split the token on `':'`:
  - `GetAccountColonIdStaysLocked`: an id containing `':'` is locked whole but released by its parts, so the release throws and the id stays locked.
  - `ReleaseAfterAcquire`: for ids without `':'`, release restores the lock table exactly.
- `SuccessfulTransferConserves`: nothing checks the sign of the amount, so a negative transfer pulls money into `from`.

## Model

| member | source | states |
|---|---|---|
| JavaStrings.LexLe | src/main/java/com/dws/challenge/service/AdvisoryLockServiceImp.java:34 | the order the ids are sorted by: character by character, a proper prefix first; its partner lemmas follow |
| JavaStrings.Join | src/main/java/com/dws/challenge/service/AdvisoryLockServiceImp.java:49-51 | `Collectors.joining(":")`: the parts separated by `':'`; `SplitJoin` is its round trip with `Split` |
| JavaStrings.Split | src/main/java/com/dws/challenge/service/AdvisoryLockServiceImp.java:71 | `String.split(":")`: the `':'`-separated fields with trailing empty ones dropped; `SplitJoin` and `FieldsOfJoin` state what it gives back |
| JavaStrings.LexLeTotal | src/main/java/com/dws/challenge/service/AdvisoryLockServiceImp.java:34 | the natural order of strings used for sorting is total |
| JavaStrings.LexLeAntisymmetric | src/main/java/com/dws/challenge/service/AdvisoryLockServiceImp.java:34 | two strings ordered both ways are equal, so the sorted order of the ids is unique |
| JavaStrings.LexLeTransitive | src/main/java/com/dws/challenge/service/AdvisoryLockServiceImp.java:34 | the natural order of strings is transitive |
| JavaStrings.SplitJoin | src/main/java/com/dws/challenge/service/AdvisoryLockServiceImp.java:49-51 | splitting the `':'`-joined ids on `':'` gives the ids back, when every id is non-empty and has no `':'` |
| JavaStrings.FieldsOfJoin | src/main/java/com/dws/challenge/service/AdvisoryLockServiceImp.java:71 | the `':'`-separated fields of a join of ids without `':'` are those ids |
| JavaStrings.SeparatedInjective | src/main/java/com/dws/challenge/repository/TransferRepositoryLogInMemory.java:59-61 | `a + ":" + b` determines `a` and `b` when the first parts contain no `':'` |
| AdvisoryLock.SortedIds | src/main/java/com/dws/challenge/service/AdvisoryLockServiceImp.java:31-34 | the copied list sorted, as a function; `SortedIdsSortedPermutation` and `SortedUnique` characterise it |
| AdvisoryLock.AcquireResult | src/main/java/com/dws/challenge/service/AdvisoryLockServiceImp.java:27-66 | the corrected acquire with no other caller: the new lock table and the token; `AcquireAllOrNothing` and `AcquireSucceedsIff` state what it promises |
| AdvisoryLock.ReleaseResult | src/main/java/com/dws/challenge/service/AdvisoryLockServiceImp.java:69-80 | release: the new lock table and the exception; `ReleaseAfterAcquire` and `DoubleReleaseFails` state what it promises |
| AdvisoryLock.SortedIdsSortedPermutation | src/main/java/com/dws/challenge/service/AdvisoryLockServiceImp.java:31-34 | the copied and sorted id list is in natural order and holds the same ids, the same number of times |
| AdvisoryLock.InsertSortedPermutation | src/main/java/com/dws/challenge/service/AdvisoryLockServiceImp.java:34 | inserting one id into a sorted list keeps it sorted and adds exactly that id |
| AdvisoryLock.SortedUnique | src/main/java/com/dws/challenge/service/AdvisoryLockServiceImp.java:34 | two sorted lists with the same ids are equal |
| AdvisoryLock.SortedIdsPermutationInvariant | src/main/java/com/dws/challenge/service/AdvisoryLockServiceImp.java:31-34 | any two orders of the same ids sort to the same list |
| AdvisoryLock.SortInPlace | src/main/java/com/dws/challenge/service/AdvisoryLockServiceImp.java:34 | the in-place sort leaves the array sorted and a permutation of what it held |
| AdvisoryLock.SinkInto | src/main/java/com/dws/challenge/service/AdvisoryLockServiceImp.java:34 | one insertion step extends the sorted prefix by one element and permutes the array |
| AdvisoryLock.Swap | src/main/java/com/dws/challenge/service/AdvisoryLockServiceImp.java:34 | exchanging two cells changes nothing else and keeps the multiset |
| AdvisoryLock.SortIds | src/main/java/com/dws/challenge/service/AdvisoryLockServiceImp.java:31-34 | the list copied into an array and sorted is the ids in natural order |
| AdvisoryLock.AdvisoryLockServiceImp.CanAcquireAll | src/main/java/com/dws/challenge/service/AdvisoryLockServiceImp.java:38-47 | answers true exactly when no requested id is held; then all ids are added, otherwise the set is unchanged |
| AdvisoryLock.AdvisoryLockServiceImp.TryAcquireLockFewTimes | src/main/java/com/dws/challenge/service/AdvisoryLockServiceImp.java:53-66 | the corrected retry loop, whose pause does not overflow: succeeds exactly when at least one attempt is allowed and every id is free, with the token `Join(ids)`; on failure the table is unchanged and `times` pauses were taken, the k-th being `pause * 2^k` |
| AdvisoryLock.AdvisoryLockServiceImp.Acquire | src/main/java/com/dws/challenge/service/AdvisoryLockServiceImp.java:27-36 | the corrected acquire: the new lock table and the answer are those of `AcquireResult`: nothing for no ids, otherwise the sorted ids are tried |
| AdvisoryLock.DoubleLong | src/main/java/com/dws/challenge/service/AdvisoryLockServiceImp.java:64 | `pause * 2` on a Java `long`: the result is again a `long`, equal to the exact double or to it minus or plus 2^64, and to the exact double whenever that fits |
| AdvisoryLock.SleepPauseDoubles | src/main/java/com/dws/challenge/service/AdvisoryLockServiceImp.java:21-64 | up to the 57th sleep the pause is exactly 100 * 2^k |
| AdvisoryLock.SleepPauseTurnsNegative | src/main/java/com/dws/challenge/service/AdvisoryLockServiceImp.java:21-64 | the first 57 pauses are positive and the 58th has wrapped below zero |
| AdvisoryLock.AcquireAsWrittenResult | src/main/java/com/dws/challenge/service/AdvisoryLockServiceImp.java:27-66 | acquire as written: the lock table either stays as it was or gains exactly the requested ids with a token |
| AdvisoryLock.AdvisoryLockServiceImp.AcquireAsWritten | src/main/java/com/dws/challenge/service/AdvisoryLockServiceImp.java:27-66 | the lock table, the token and the exception are those of `AcquireAsWrittenResult`, with the pause kept as a wrapping `long` and `Thread.sleep` throwing on a negative one |
| AdvisoryLock.AcquireAsWrittenAgrees | src/main/java/com/dws/challenge/service/AdvisoryLockServiceImp.java:53-65 | the as-written and the corrected acquire agree, except that a held id with more than 57 attempts, or a negative count, throws from `Thread.sleep` as written |
| AdvisoryLock.AcquireHeldThrowsAsWritten | src/main/java/com/dws/challenge/service/AdvisoryLockServiceImp.java:53-65 | with 300 attempts and a held id, the source throws `IllegalArgumentException` with a negative pause, where the corrected acquire gives up with nothing |
| AdvisoryLock.AdvisoryLockServiceImp.Release | src/main/java/com/dws/challenge/service/AdvisoryLockServiceImp.java:69-80 | the new lock table and the exception are those of `ReleaseResult`: an empty split throws `InvalidToken`, a token naming an id not held throws `NotAllAcquired` and changes nothing, otherwise its ids are freed |
| AdvisoryLock.AcquireAllOrNothing | src/main/java/com/dws/challenge/service/AdvisoryLockService.java:16-24 | an acquisition either adds every requested id, none of which was held, or changes nothing; any held id makes it fail |
| AdvisoryLock.AcquireSucceedsIff | src/main/java/com/dws/challenge/service/AdvisoryLockServiceImp.java:27-36 | with no other caller, acquire succeeds exactly when some id is asked for, at least one attempt is allowed and none of the ids is held |
| AdvisoryLock.AcquireTokenIsSortedJoin | src/main/java/com/dws/challenge/service/AdvisoryLockServiceImp.java:31-35 | the token is the ids in lexicographic order joined by `':'` |
| AdvisoryLock.AcquireOrderInsensitive | src/main/java/com/dws/challenge/service/AdvisoryLockService.java:10-11 | acquiring the same ids in any order changes the table alike and gives equal tokens |
| AdvisoryLock.ReleaseAfterAcquire | src/main/java/com/dws/challenge/service/AdvisoryLockServiceImp.java:69-80 | releasing the token of a successful acquisition of non-empty ids without `':'` restores the lock table exactly and throws nothing |
| AdvisoryLock.DoubleReleaseFails | src/main/java/com/dws/challenge/service/AdvisoryLockService.java:26-32 | a second release of the same token throws `NotAllAcquired` and leaves the table alone |
| AdvisoryLock.ReleaseUnknownToken | src/main/java/com/dws/challenge/service/AdvisoryLockService.java:26-32 | the token `"bla-bla"`, naming no held id, is refused and changes nothing |
| AdvisoryLock.TokenEquality | src/main/java/com/dws/challenge/service/AdvisoryLockService.java:37-44 | two tokens are equal exactly when their strings are |
| Domain.Account.constructor | src/main/java/com/dws/challenge/domain/Account.java:29-33 | a new account has the given id, balance zero, and is stamped with the clock reading |
| Domain.Account.WithBalance | src/main/java/com/dws/challenge/domain/Account.java:35-41 | a new account has exactly the given id and balance, stamped with the clock reading |
| Domain.TransferLog.constructor | src/main/java/com/dws/challenge/domain/TransferLog.java:34-36 | a new log has status START, the given from, to and amount, the fresh id drawn and the construction time |
| Domain.TransferLog.Of | src/main/java/com/dws/challenge/domain/TransferLog.java:38-45 | the all-fields constructor stores exactly the six given fields |
| Domain.TransferLog.CopyOf | src/main/java/com/dws/challenge/domain/TransferLog.java:47-49 | the copy is a new object with the same id, from, to, amount, status and time, so setting its status cannot change the original |
| TransferLogRepository.CreateKey | src/main/java/com/dws/challenge/repository/TransferRepositoryLogInMemory.java:59-61 | the key `from:to`; `KeyInjective` states that it tells pairs apart |
| TransferLogRepository.MatchByDate | src/main/java/com/dws/challenge/repository/TransferRepositoryLogInMemory.java:32-34 | the inclusive range test `fromDate <= updatedAt <= toDate` used by `Matching` |
| TransferLogRepository.Matching | src/main/java/com/dws/challenge/repository/TransferRepositoryLogInMemory.java:32-43 | the filter keeps only logs from the list whose time lies in the inclusive range, and keeps every such log |
| TransferLogRepository.MatchingOfConcat | src/main/java/com/dws/challenge/repository/TransferRepositoryLogInMemory.java:41 | the filter keeps stored order: the matches of a concatenation are the matches of each part in turn |
| TransferLogRepository.FindNothingOutsideRange | src/main/java/com/dws/challenge/repository/TransferRepositoryLogInMemory.java:32-34 | an inverted range, or one after every log, finds nothing |
| TransferLogRepository.FindEverythingInRange | src/main/java/com/dws/challenge/repository/TransferRepositoryLogInMemory.java:37-43 | when every log of the pair lies in the range, all of them are found, in order |
| TransferLogRepository.KeyInjective | src/main/java/com/dws/challenge/repository/TransferRepositoryLogInMemory.java:59-61 | distinct pairs whose from-ids contain no `':'` have distinct keys |
| TransferLogRepository.TransferRepositoryLogInMemory.Create | src/main/java/com/dws/challenge/repository/TransferRepositoryLogInMemory.java:23-25 | returns a new START log with the given from, to and amount, and changes no stored list |
| TransferLogRepository.TransferRepositoryLogInMemory.Append | src/main/java/com/dws/challenge/repository/TransferRepositoryLogInMemory.java:50-57 | the log is added at the end of the list of its `from:to` key, starting from an empty list for a new key; no other key changes |
| TransferLogRepository.TransferRepositoryLogInMemory.FindFor | src/main/java/com/dws/challenge/repository/TransferRepositoryLogInMemory.java:37-43 | every log found belongs to the pair and lies in the inclusive range, and every such log is found; a pair never appended finds nothing |
| TransferLogRepository.TransferRepositoryLogInMemory.FindForUntil | src/main/java/com/dws/challenge/repository/TransferRepositoryLogInMemory.java:28-30 | the two-argument search finds exactly the logs of the pair not later than the clock reading |
| TransferLogRepository.TransferRepositoryLogInMemory.Save | src/main/java/com/dws/challenge/service/TransferServiceImp.java:46 | saving the log records the call and, unless that call throws, a snapshot of the log's current state |
| TransferProtocol.Transfer | src/main/java/com/dws/challenge/service/TransferServiceImp.java:52-81 | the whole transfer as a function of the world; `TransferOutcome`, `TransferMovesAmount` and the lemmas after them state what it promises |
| TransferProtocol.Attempt | src/main/java/com/dws/challenge/service/TransferServiceImp.java:58-73 | the try block: the money check, then debit, credit and completion; it never touches the lock table, and `AttemptOutcome` states when it throws |
| TransferProtocol.TryOrRollback | src/main/java/com/dws/challenge/service/TransferServiceImp.java:58-77 | the try block, then rollback and rethrow on an exception; it never touches the lock table |
| TransferProtocol.UpdateAccount | src/main/java/com/dws/challenge/service/TransferServiceImp.java:83-92 | the guarded compensation of one account: the lock table, the saved log states and the notices stay as they were |
| TransferProtocol.Compensate | src/main/java/com/dws/challenge/service/TransferServiceImp.java:94-112 | the compensations chosen by the last status: the lock table, the saved log states and the notices stay as they were |
| TransferProtocol.Perform | src/main/java/com/dws/challenge/service/TransferServiceImp.java:44-49 | one step of the try block changes only the status of the log; a balance update makes no call and cannot throw; every other step makes one call and throws exactly when that call fails |
| TransferProtocol.Rollback | src/main/java/com/dws/challenge/service/TransferServiceImp.java:94-116 | rollback never touches the lock table or the notices, and always leaves the log FAILED |
| TransferProperties.MovedBetweenTwo | src/main/java/com/dws/challenge/service/TransferServiceImp.java:66-68 | debit then credit between two distinct accounts takes amount from one and gives it to the other, keeps their sum and stamps, and touches no other account |
| TransferProperties.MovedOnSelf | src/main/java/com/dws/challenge/service/TransferServiceImp.java:66-68 | debit then credit of the same account leaves it as it was |
| TransferProperties.RunAppend | src/main/java/com/dws/challenge/service/TransferServiceImp.java:58-73 | running two parts of the try block in turn is running the first, then the second unless the first threw |
| TransferProperties.RunKeepsLogFields | src/main/java/com/dws/challenge/service/TransferServiceImp.java:45-70 | the try block changes only the status of the log, never its id, accounts, amount or time, and what it throws comes from a collaborator |
| TransferProperties.RunCalls | src/main/java/com/dws/challenge/service/TransferServiceImp.java:58-73 | the steps only append calls; the try block throws exactly when one of its calls fails, and then that call is the last one made; otherwise it makes all its calls |
| TransferProperties.RunTrace | src/main/java/com/dws/challenge/service/TransferServiceImp.java:58-73 | the calls made are the steps' calls in order, cut right after the one that threw |
| TransferProperties.DebitOrCreditGoesThrough | src/main/java/com/dws/challenge/service/TransferServiceImp.java:44-49 | without a failure, debitOrCredit saves the log with the new status, changes the one balance by delta without restamping it, and makes two calls |
| TransferProperties.DebitOrCreditStops | src/main/java/com/dws/challenge/service/TransferServiceImp.java:44-49 | when the log save throws, no balance changes; when the account save throws, the balance is already changed in memory; the status is set either way |
| TransferProperties.CompletionGoesThrough | src/main/java/com/dws/challenge/service/TransferServiceImp.java:70-73 | without a failure, COMPLETED is saved and from and then to are notified of the amount; no balance changes |
| TransferProperties.CompletionStops | src/main/java/com/dws/challenge/service/TransferServiceImp.java:70-73 | a failure there leaves the log COMPLETED in memory and no balance changed |
| TransferProperties.AttemptInStages | src/main/java/com/dws/challenge/service/TransferServiceImp.java:66-73 | with the money, the try block is the debit, then the credit if the debit did not throw, then the completion if neither threw |
| TransferProperties.AttemptCompletes | src/main/java/com/dws/challenge/service/TransferServiceImp.java:58-73 | with the money and no failing call, the amount moves, the saved states are DEBIT, CREDIT and COMPLETED, the notices go to from then to, and seven calls are made |
| TransferProperties.AttemptOutcome | src/main/java/com/dws/challenge/service/TransferServiceImp.java:58-73 | the try block throws nothing exactly when there is the money and none of its seven calls fails, and then the log is COMPLETED |
| TransferProperties.ForwardCallOrder | src/main/java/com/dws/challenge/service/TransferService.java:12-13 | write-ahead: the calls are log DEBIT, account from, log CREDIT, account to, log COMPLETED, notice from, notice to |
| TransferProperties.AttemptWritesAhead | src/main/java/com/dws/challenge/service/TransferServiceImp.java:44-49 | the calls actually made are a prefix of that order, ending at the one that threw, so no balance is saved before the log write that announces it |
| TransferProperties.AttemptFailsInDebit | src/main/java/com/dws/challenge/service/TransferServiceImp.java:66 | a failure in the debit leaves the status DEBIT; from is changed only when the log save went through |
| TransferProperties.AttemptFailsInCredit | src/main/java/com/dws/challenge/service/TransferServiceImp.java:68 | a failure in the credit leaves the status CREDIT, from debited, and to credited only when its log save went through |
| TransferProperties.AttemptFailsInCompletion | src/main/java/com/dws/challenge/service/TransferServiceImp.java:70-73 | a failure while completing leaves the money moved and the status COMPLETED |
| TransferProperties.RollbackByStatus | src/main/java/com/dws/challenge/service/TransferServiceImp.java:83-116 | after START or COMPLETED no account changes; after DEBIT from is refunded; after CREDIT from is refunded and to, as it reads after that refund (the same account for a self-transfer), charged back; each only when its stamp is not older than the log's, then restamped; then FAILED is saved, and only that save's failure escapes |
| TransferProperties.RollbackSelfTransfer | src/main/java/com/dws/challenge/service/TransferServiceImp.java:94-112 | for a self-transfer that failed after its credit, with fresh stamps, the refund and the charge-back cancel out and the account keeps its balance, stamped with the rollback time |
| TransferProperties.LockRoundTrip | src/main/java/com/dws/challenge/service/TransferServiceImp.java:53-80 | locking two free ids without `':'` takes exactly those ids, and releasing the token restores the table |
| TransferProperties.TransferOnceLocked | src/main/java/com/dws/challenge/service/TransferServiceImp.java:52-81 | once the lock is taken, a transfer is its try and catch blocks on a START log, with the lock table put back afterwards |
| TransferProperties.TransferLockBusy | src/main/java/com/dws/challenge/service/TransferServiceImp.java:53-55 | when either id is held, the lock exception is thrown before any log is created or any call made, and nothing changes |
| TransferProperties.TransferOutcome | src/main/java/com/dws/challenge/service/TransferServiceImp.java:52-81 | the lock table ends as found; the log keeps its created fields and ends COMPLETED or FAILED; it is COMPLETED exactly when no exception reaches the caller, which happens exactly when there was the money and no call of the try block failed |
| TransferProperties.TransferMovesAmount | src/main/java/com/dws/challenge/service/TransferServiceImp.java:52-81 | a transfer with the money and no failure moves amount from from to to, saves DEBIT, CREDIT and COMPLETED, sends both notices and leaves the lock table as it was |
| TransferProperties.SelfTransferKeepsBalance | src/main/java/com/dws/challenge/service/TransferServiceImp.java:66-68 | a transfer from an account to itself that goes through leaves the account as it was, and both notices go to its holder |
| TransferProperties.SuccessfulTransferConserves | src/main/java/com/dws/challenge/service/TransferServiceImp.java:60-68 | after a transfer that throws nothing, from lost exactly amount, to gained it and their sum is kept; from is not negative, nor is to for a non-negative amount; a negative amount increases from |
| TransferProperties.TransferNotEnoughMoney | src/main/java/com/dws/challenge/service/TransferServiceImp.java:60-63 | without the money, for distinct accounts or a self-transfer alike, from's holder is notified once, the service exception reaches the caller, no balance changes, and the log is saved once, as FAILED |
| TransferProperties.CompensationRestoresBalances | src/main/java/com/dws/challenge/service/TransferServiceImp.java:94-112 | when an account save fails and both stamps are not older than the log's, rollback restores both balances, the log ends FAILED and the store's exception reaches the caller |
| TransferProperties.StaleStampSkipsCompensation | src/main/java/com/dws/challenge/service/TransferServiceImp.java:83-92 | an account stamped before the log is not compensated: a failing save after the debit leaves from debited and unstamped |
| TransferProperties.LostDebitLogRefundsAnyway | src/main/java/com/dws/challenge/service/TransferServiceImp.java:98-104 | when the save of DEBIT itself fails, rollback still refunds from, which ends with amount more than it had |
| TransferProperties.LostCreditLogChargesBackAnyway | src/main/java/com/dws/challenge/service/TransferServiceImp.java:106-112 | when the save of CREDIT fails, from is refunded and to, never credited, is charged the amount |
| TransferProperties.LateFailureKeepsMovedAmount | src/main/java/com/dws/challenge/service/TransferServiceImp.java:70-77 | a failure after both balance writes is not compensated: the money stays moved, yet the log ends FAILED and the caller sees the exception |
| Transfers.TransferServiceImp.Transfer | src/main/java/com/dws/challenge/service/TransferServiceImp.java:52-81 | the lock table, both accounts, the calls, the saved log states and the notices end as `TransferProtocol.Transfer` computes from where they started; the exception is that one's; a log is created exactly when the lock was taken |
| Transfers.TransferServiceImp.TryTransfer | src/main/java/com/dws/challenge/service/TransferServiceImp.java:58-73 | the objects end as `Attempt` computes, with the same exception |
| Transfers.TransferServiceImp.DebitOrCreditAccount | src/main/java/com/dws/challenge/service/TransferServiceImp.java:44-49 | the objects end as the three steps status-and-save, new balance, account save compute, stopping at the save that throws |
| Transfers.TransferServiceImp.Complete | src/main/java/com/dws/challenge/service/TransferServiceImp.java:70-73 | the objects end as the completion steps compute, stopping at the call that throws |
| Transfers.TransferServiceImp.UpdateAccount | src/main/java/com/dws/challenge/service/TransferServiceImp.java:83-92 | the objects end as `TransferProtocol.UpdateAccount` computes: the balance and stamp change only under the stamp guard, and a failing save is swallowed |
| Transfers.TransferServiceImp.CompensateByStatus | src/main/java/com/dws/challenge/service/TransferServiceImp.java:95-112 | the objects end as `Compensate` computes from the log's last status, on the accounts the store holds |
| Transfers.TransferServiceImp.Rollback | src/main/java/com/dws/challenge/service/TransferServiceImp.java:94-116 | the objects and the exception end as `TransferProtocol.Rollback` computes |
| Accounts.GetAccountOutcome | src/main/java/com/dws/challenge/service/AccountsServiceImp.java:48-58 | an account is returned only when nothing was thrown, and it is the one the store holds under the id |
| Accounts.MissingAccount | src/main/java/com/dws/challenge/service/AccountsServiceImp.java:70-83 | no error exactly when the store holds both ids; otherwise the error names from if from is missing, else to |
| Accounts.GetAccountReadsStore | src/main/java/com/dws/challenge/service/AccountsServiceImp.java:48-58 | for a free id without `':'`, the read returns the stored account, or nothing when there is none, throws nothing and leaves the lock table as it was |
| Accounts.GetAccountWhileLocked | src/main/java/com/dws/challenge/service/AccountsServiceImp.java:49-51 | an id already held cannot be read: the lock exception is thrown and the table is untouched |
| Accounts.GetAccountColonIdStaysLocked | src/main/java/com/dws/challenge/service/AccountsServiceImp.java:49-57 | an id `a:b` is locked whole but released as `a` and `b`, so the read throws `NotAllAcquired`, `a:b` stays held, and every later read of it fails |
| Accounts.GetAccountReleasesPlainId | src/main/java/com/dws/challenge/service/AccountsServiceImp.java:55-57 | for an id without `':'`, the lock table after a read is the one before it, whatever the outcome |
| Accounts.AccountsServiceImp.CreateAccount | src/main/java/com/dws/challenge/service/AccountsServiceImp.java:34-36 | the store adds the account under its id, or refuses an id it already holds and changes nothing |
| Accounts.AccountsServiceImp.GetAccount | src/main/java/com/dws/challenge/service/AccountsServiceImp.java:48-58 | the lock table and the answer are those of `GetAccountOutcome`; only the lock table may change, never an account |
| Accounts.AccountsServiceImp.Transfer | src/main/java/com/dws/challenge/service/AccountsServiceImp.java:70-83 | an unknown id, from before to, is reported with no lock taken and nothing changed; otherwise the two stored objects and the collaborators end as `TransferProtocol.Transfer` computes, and every other stored account keeps its balance and stamp |

## Left out

- Concurrency: the `synchronized` blocks, `volatile` fields and other threads are left out, and the model is sequential. "Someone else holds the lock" is a lock table given as input.
- `Thread.sleep`: no time passes in the model. The corrected retry loop keeps its pauses only as a ghost list of unbounded integers; the as-written one keeps the pause as a wrapping `long` and models only the sleep's exception on a negative pause.
- `AdvisoryLock.AdvisoryLockServiceImp.TryAcquireLockFewTimes`: this is the corrected loop, so it does not throw after the 58th failed attempt as the source does; `AcquireAsWritten` models that.
- `AdvisoryLock.AdvisoryLockServiceImp.Acquire`: the corrected acquire requires `retryTimes >= 0`, because with an unbounded pause a negative count never stops. As written, a negative count ends in the exception from `Thread.sleep`, and `AcquireAsWritten` models that.
- `TransferProperties.TransferLockBusy`: it states the corrected acquire. As written, with 300 retries a held id makes `acquire` throw `IllegalArgumentException` from `Thread.sleep` instead, so the source never reaches its "Cannot acquired the lock" exception (see "## Findings").
- `Accounts.GetAccountWhileLocked`: the same as for `TransferLockBusy`. As written, reading a held id throws `IllegalArgumentException` from `Thread.sleep`, not the lock exception.
- `JavaStrings.LexLe`: it orders strings by Unicode code points, while `String.compareTo` compares UTF-16 code units. The two orders differ only where, at the first differing position, one id has a character above U+FFFF and the other one from U+E000 to U+FFFF. For such ids the token lists them in another order, though it is still the one canonical order of the ids.
- `TransferProtocol.Compensate`: one clock reading, `rollbackTime`, stamps both compensations. The source reads `LocalDateTime.now()` afresh in each `updateAccount` call, so its two stamps may differ.
- `LocalDateTime.now()` and `UUID.randomUUID()`: these are parameters (`logTime`, `rollbackTime`, `now`, `freshId`). So the freshness of the log id is not modelled.
- Failures: only saves and notifications can throw, and only at the injected call index `failAt`. Reads and `create` never fail. A runtime failure inside the Java code itself is not modelled.
- `AccountsRepository` and `NotificationService` are not part of this model. They are stood in for by a map of account objects that refuses duplicate ids, and by a ghost list of notices.
- Exceptions are variants of `Error`, not classes. The message texts are not modelled; only the ids they name are.
- `TransferProtocol.ViewOf`: an id missing from the world reads as an empty account. The transfer code only ever looks up the two accounts it was given, which the store always holds, so this case never arises in a transfer.
- `Transfers.TransferServiceImp.Transfer`: it requires `from` and `to` to be the objects the store holds under their ids. `AccountsServiceImp.transfer` always passes exactly those, and with that requirement the re-fetch in rollback returns the same objects.
- `@NonNull` and `@Valid` checks, Spring wiring, Lombok's generated getters, `toString` and `hashCode`, the HTTP exception handler and the error DTO are not modelled.
- The `TransferRepositoryLog`, `AccountsService` and `TransferService` interfaces carry no logic. Their documented promises are stated on the implementations above.

## Findings

| source | as written | input that shows it | evidently intended | confidence | as-written member | corrected member |
|---|---|---|---|---|---|---|
| src/main/java/com/dws/challenge/service/AdvisoryLockServiceImp.java:53-65 | the retry pause is a `long` doubled by `pause * 2` after every failed attempt and handed to `Thread.sleep`, which throws `IllegalArgumentException` on a negative value | an id held throughout `acquire` with `retryTimes` 300, the count both services pass: the pause of the 58th sleep is 100 * 2^57, which wraps to a negative `long`, so `acquire` throws instead of returning empty (after sleeps that would already total about 100 * 2^57 ms) | give up after `retryTimes` failed attempts and return an empty `Optional`, so that the caller throws its "Cannot acquired the lock" exception | high; not executed | AdvisoryLock.AcquireHeldThrowsAsWritten | AdvisoryLock.AdvisoryLockServiceImp.Acquire |
