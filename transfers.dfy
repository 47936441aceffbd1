/**
 * TransferServiceImp: the coordinator, over the account objects it is given. Every method is
 * proved to change the lock table, the two accounts, the call trace, the saved log states and
 * the delivered notices exactly as the functions of TransferProtocol say.
 */
module Transfers {
  import opened Wrappers
  import opened Domain
  import opened AdvisoryLock
  import opened Collaborators
  import opened TransferLogRepository
  import opened TransferProtocol
  import opened TransferProperties

  class TransferServiceImp {
    const lockService: AdvisoryLockServiceImp
    const transferRepositoryLog: TransferRepositoryLogInMemory
    const notificationService: NotificationService
    const accountsRepository: AccountsRepository

    /** The collaborators share one trace of calls, and the store keys each account by its id. */
    ghost predicate Valid()
      reads this, accountsRepository
    {
      && transferRepositoryLog.calls == accountsRepository.calls
      && notificationService.calls == accountsRepository.calls
      && accountsRepository.Valid()
    }

    /** from and to are the objects the store holds under their ids. */
    ghost predicate Stored(from: Account, to: Account)
      reads this, accountsRepository
    {
      && from.accountId in accountsRepository.accounts && accountsRepository.accounts[from.accountId] == from
      && to.accountId in accountsRepository.accounts && accountsRepository.accounts[to.accountId] == to
    }

    constructor (lockService: AdvisoryLockServiceImp, transferRepositoryLog: TransferRepositoryLogInMemory,
                 notificationService: NotificationService, accountsRepository: AccountsRepository)
      requires transferRepositoryLog.calls == accountsRepository.calls
      requires notificationService.calls == accountsRepository.calls
      requires accountsRepository.Valid()
      ensures Valid()
      ensures this.lockService == lockService && this.transferRepositoryLog == transferRepositoryLog
      ensures this.notificationService == notificationService && this.accountsRepository == accountsRepository
    {
      this.lockService := lockService;
      this.transferRepositoryLog := transferRepositoryLog;
      this.notificationService := notificationService;
      this.accountsRepository := accountsRepository;
    }

    /** What a transfer between from and to can change, as a value. */
    ghost function WorldOf(from: Account, to: Account): World
      reads this, lockService, accountsRepository.calls, transferRepositoryLog, notificationService, from, to
    {
      World(lockService.acquiredAccounts,
            map[from.accountId := from.View(), to.accountId := to.View()],
            accountsRepository.calls.made, transferRepositoryLog.saved, notificationService.sent)
    }

    /** transfer(from, to, amount): the log is created at logTime, compensations are stamped
        rollbackTime, freshId is the log's id. */
    method Transfer(from: Account, to: Account, amount: int, freshId: string,
                    logTime: Timestamp, rollbackTime: Timestamp)
      returns (err: Option<Error>, ghost log: Option<TransferLog>)
      requires Valid() && Stored(from, to)
      modifies lockService, transferRepositoryLog`saved, notificationService, accountsRepository`accounts,
        accountsRepository.calls, from, to
      ensures Valid() && accountsRepository.accounts == old(accountsRepository.accounts)
      ensures var r := TransferProtocol.Transfer(old(WorldOf(from, to)), from.accountId, to.accountId, amount,
                                                 freshId, logTime, rollbackTime, accountsRepository.calls.failAt);
        && WorldOf(from, to) == r.w
        && err == r.thrown
        && (log.Some? <==> r.log.Some?)
        && (log.Some? ==> fresh(log.value) && log.value.Record() == r.log.value)
    {
      var locked := lockService.Acquire([from.accountId, to.accountId], RetryTimesToTakeLock);
      if locked.None? {
        return Some(CannotAcquireLock([from.accountId, to.accountId])), None;
      }
      var transferLog := transferRepositoryLog.Create(from.accountId, to.accountId, amount, freshId, logTime);
      log := Some(transferLog);
      var thrown := TryTransfer(transferLog, from, to, amount);
      if thrown.Some? {
        var rollbackError := Rollback(transferLog, from, to, amount, rollbackTime);
        if rollbackError.Some? {
          thrown := rollbackError;
        }
      }
      var releaseError := lockService.Release(locked.value);
      if releaseError.Some? {
        thrown := releaseError;
      }
      err := thrown;
    }

    /** The try block of transfer: the balance check, the debit, the credit, COMPLETED and the
        two notices; it stops at the first call that throws. */
    method TryTransfer(transferLog: TransferLog, from: Account, to: Account, amount: int)
      returns (thrown: Option<Error>)
      requires Valid() && Stored(from, to)
      modifies transferLog, transferRepositoryLog`saved, notificationService, accountsRepository`accounts,
        accountsRepository.calls, from, to
      ensures Valid() && accountsRepository.accounts == old(accountsRepository.accounts)
      ensures var a := Attempt(old(WorldOf(from, to)), old(transferLog.Record()), from.accountId, to.accountId,
                               amount, accountsRepository.calls.failAt);
        && WorldOf(from, to) == a.w
        && transferLog.Record() == a.log
        && thrown == a.thrown
    {
      if from.balance < amount {
        var ok := notificationService.NotifyAboutTransfer(from, NotEnoughMoneyForTransfer);
        return Some(if ok then NotEnoughMoney(from.accountId) else StoreFailure);
      }
      ghost var w := WorldOf(from, to);
      ghost var log := transferLog.Record();
      ghost var failAt := accountsRepository.calls.failAt;
      AttemptInStages(w, log, from.accountId, to.accountId, amount, failAt);
      thrown := DebitOrCreditAccount(transferLog, from, from.balance - amount, DebitFromAccount, -amount, from, to);
      if thrown.Some? {
        return;
      }
      thrown := DebitOrCreditAccount(transferLog, to, to.balance + amount, CreditToAccount, amount, from, to);
      if thrown.Some? {
        return;
      }
      thrown := Complete(transferLog, from, to, amount);
    }

    /** The end of the try block: COMPLETED saved, then both holders notified. */
    method Complete(transferLog: TransferLog, from: Account, to: Account, amount: int)
      returns (thrown: Option<Error>)
      requires Valid() && Stored(from, to)
      modifies transferLog, transferRepositoryLog`saved, notificationService, accountsRepository.calls
      ensures Valid()
      ensures var c := Run(old(WorldOf(from, to)), old(transferLog.Record()), CompletionPlan(from.accountId,
                           to.accountId, amount), accountsRepository.calls.failAt);
        && WorldOf(from, to) == c.w
        && transferLog.Record() == c.log
        && thrown == c.thrown
    {
      CompletionSteps(WorldOf(from, to), transferLog.Record(), from.accountId, to.accountId, amount,
                      accountsRepository.calls.failAt);
      transferLog.status := Completed;
      var ok := transferRepositoryLog.Save(transferLog);
      if !ok {
        return Some(StoreFailure);
      }
      ok := notificationService.NotifyAboutTransfer(from, DebitedBy(amount));
      if !ok {
        return Some(StoreFailure);
      }
      ok := notificationService.NotifyAboutTransfer(to, CreditedBy(amount));
      if !ok {
        return Some(StoreFailure);
      }
      return None;
    }

    /** debitOrCreditAccount: set and save the status, then write and save the new balance,
        which the caller computed as the current one plus delta. */
    method DebitOrCreditAccount(transferLog: TransferLog, account: Account, amount: int, status: TransferStatus,
                                ghost delta: int, ghost from: Account, ghost to: Account)
      returns (thrown: Option<Error>)
      requires Valid() && Stored(from, to)
      requires account == from || account == to
      requires amount == account.balance + delta
      modifies transferLog, transferRepositoryLog`saved, accountsRepository`accounts, accountsRepository.calls, account
      ensures Valid() && accountsRepository.accounts == old(accountsRepository.accounts)
      ensures var s := Run(old(WorldOf(from, to)), old(transferLog.Record()),
                           DebitOrCreditPlan(account.accountId, delta, status), accountsRepository.calls.failAt);
        && WorldOf(from, to) == s.w
        && transferLog.Record() == s.log
        && thrown == s.thrown
    {
      ghost var w := WorldOf(from, to);
      ghost var failAt := accountsRepository.calls.failAt;
      ghost var id := account.accountId;
      ghost var logged := transferLog.Record().(status := status);
      DebitOrCreditSteps(w, transferLog.Record(), id, delta, status, failAt);
      ghost var w1 := SaveLog(w, logged, failAt);
      ghost var w2 := w1.(accounts := w1.accounts[id := Shifted(ViewOf(w1, id), delta)]);
      transferLog.status := status;
      var ok := transferRepositoryLog.Save(transferLog);
      assert WorldOf(from, to) == w1;
      if !ok {
        return Some(StoreFailure);
      }
      account.balance := amount;
      assert WorldOf(from, to).accounts == w2.accounts;
      ghost var stored := accountsRepository.accounts;
      ok := accountsRepository.Save(account);
      assert stored[id := account] == stored;
      assert WorldOf(from, to) == SaveAccount(w2, id);
      if !ok {
        return Some(StoreFailure);
      }
      return None;
    }

    /** updateAccount: compensate only an account whose stamp is not older than the log's; a
        failing save is swallowed. */
    method UpdateAccount(account: Account, amount: int, transferLogUpdateAt: Timestamp, now: Timestamp,
                         ghost from: Account, ghost to: Account)
      requires Valid() && Stored(from, to)
      requires account == from || account == to
      modifies accountsRepository`accounts, accountsRepository.calls, account
      ensures Valid() && accountsRepository.accounts == old(accountsRepository.accounts)
      ensures WorldOf(from, to) == TransferProtocol.UpdateAccount(old(WorldOf(from, to)), account.accountId, amount,
                                                                  transferLogUpdateAt, now)
    {
      if account.updateAt >= transferLogUpdateAt {
        account.balance := amount;
        account.updateAt := now;
        var ok := accountsRepository.Save(account);
      }
    }

    /** rollback: compensate by the last logged status, then mark the log FAILED and save it. */
    method Rollback(transferLog: TransferLog, fromAccount: Account, toAccount: Account, amount: int, now: Timestamp)
      returns (thrown: Option<Error>)
      requires Valid() && Stored(fromAccount, toAccount)
      modifies transferLog, transferRepositoryLog`saved, accountsRepository`accounts, accountsRepository.calls,
        fromAccount, toAccount
      ensures Valid() && accountsRepository.accounts == old(accountsRepository.accounts)
      ensures var s := TransferProtocol.Rollback(old(WorldOf(fromAccount, toAccount)), old(transferLog.Record()),
                                                 fromAccount.accountId, toAccount.accountId, amount, now,
                                                 accountsRepository.calls.failAt);
        && WorldOf(fromAccount, toAccount) == s.w
        && transferLog.Record() == s.log
        && thrown == s.thrown
    {
      CompensateByStatus(transferLog, fromAccount, toAccount, amount, now);
      transferLog.status := Failed;
      var ok := transferRepositoryLog.Save(transferLog);
      if !ok {
        return Some(StoreFailure);
      }
      return None;
    }

    /** The first part of rollback: the compensations chosen by the last logged status, each on
        the account the store holds. */
    method CompensateByStatus(transferLog: TransferLog, fromAccount: Account, toAccount: Account, amount: int,
                              now: Timestamp)
      requires Valid() && Stored(fromAccount, toAccount)
      modifies accountsRepository`accounts, accountsRepository.calls, fromAccount, toAccount
      ensures Valid() && accountsRepository.accounts == old(accountsRepository.accounts)
      ensures WorldOf(fromAccount, toAccount)
        == TransferProtocol.Compensate(old(WorldOf(fromAccount, toAccount)), transferLog.Record(),
                                       fromAccount.accountId, toAccount.accountId, amount, now)
    {
      var transferLogUpdateAt := transferLog.updatedAt;
      var status := transferLog.status;
      if status == DebitFromAccount || status == CreditToAccount {
        var fetched := accountsRepository.GetAccount(fromAccount.accountId);
        if fetched.Some? {
          UpdateAccount(fetched.value, fetched.value.balance + amount, transferLogUpdateAt, now, fromAccount, toAccount);
        }
      }
      if status == CreditToAccount {
        var fetched := accountsRepository.GetAccount(toAccount.accountId);
        if fetched.Some? {
          UpdateAccount(fetched.value, fetched.value.balance - amount, transferLogUpdateAt, now, fromAccount, toAccount);
        }
      }
    }
  }
}
