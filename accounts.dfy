/**
 * AccountsServiceImp: the entry point. createAccount goes straight to the store; getAccount
 * reads one account under its lock; transfer looks both accounts up, refuses an unknown id and
 * hands the two stored objects to TransferServiceImp. The lock table is the one the transfer
 * service uses, so a read and a transfer on the same id exclude each other.
 */
module Accounts {
  import opened Wrappers
  import opened JavaStrings
  import opened Domain
  import opened AdvisoryLock
  import opened Collaborators
  import TransferProtocol
  import opened Transfers

  /** RETRY_TIMES_TO_TAKE_LOCK of AccountsServiceImp. */
  const RetryTimesToTakeLock: int := 300

  /** The end of a getAccount: the lock table, the account found, the exception thrown. */
  datatype Lookup = Lookup(held: set<string>, found: Option<Account>, thrown: Option<Error>)

  /** getAccount(accountId) over the lock table and the store: lock the single id, read, and
      release in the finally block, whose exception replaces the result. */
  function GetAccountOutcome(held: set<string>, accounts: map<string, Account>, accountId: string): (r: Lookup)
    ensures r.found.Some? ==> r.thrown.None? && accountId in accounts && r.found.value == accounts[accountId]
  {
    var (during, locked) := AcquireResult(held, [accountId], RetryTimesToTakeLock);
    if locked.None? then Lookup(held, None, Some(CannotAcquireLock([accountId])))
    else
      var found := if accountId in accounts then Some(accounts[accountId]) else None;
      var (released, releaseError) := ReleaseResult(during, locked.value);
      if releaseError.Some? then Lookup(released, None, releaseError) else Lookup(released, found, None)
  }

  /** checkAccount on from, then on to: the first id the store does not hold is reported. */
  function MissingAccount(accounts: map<string, Account>, fromId: string, toId: string): (r: Option<Error>)
    ensures r.None? <==> fromId in accounts && toId in accounts
    ensures r.Some? ==> r == Some(AccountNotFound(if fromId in accounts then toId else fromId))
  {
    if fromId !in accounts then Some(AccountNotFound(fromId))
    else if toId !in accounts then Some(AccountNotFound(toId))
    else None
  }

  // ---------------------------------------------------------------------------------------
  // Properties of getAccount

  /** With the id free, a plain id is read from the store and the lock table is left as it
      was: the stored object when there is one, nothing otherwise. */
  lemma GetAccountReadsStore(held: set<string>, accounts: map<string, Account>, accountId: string)
    requires PlainId(accountId) && accountId !in held
    ensures GetAccountOutcome(held, accounts, accountId)
      == Lookup(held, if accountId in accounts then Some(accounts[accountId]) else None, None)
  {
    ReleaseAfterAcquire(held, [accountId], RetryTimesToTakeLock);
  }

  /** An id held by a running transfer cannot be read: the lock exception is thrown and the
      table is untouched. */
  lemma GetAccountWhileLocked(held: set<string>, accounts: map<string, Account>, accountId: string)
    requires accountId in held
    ensures GetAccountOutcome(held, accounts, accountId) == Lookup(held, None, Some(CannotAcquireLock([accountId])))
  {
    AcquireAllOrNothing(held, [accountId], RetryTimesToTakeLock);
  }

  /** An id with a ':' in it, such as "a:b", is locked whole but released by its parts: the
      release throws because "a" is not held, and "a:b" stays locked, so every later read of
      it fails. */
  lemma GetAccountColonIdStaysLocked(held: set<string>, accounts: map<string, Account>, a: string, b: string)
    requires PlainId(a) && PlainId(b)
    requires a + [Sep] + b !in held && a !in held
    ensures var id := a + [Sep] + b;
      var r := GetAccountOutcome(held, accounts, id);
      && r == Lookup(held + {id}, None, Some(NotAllAcquired([a, b])))
      && GetAccountOutcome(r.held, accounts, id) == Lookup(r.held, None, Some(CannotAcquireLock([id])))
  {
    var id := a + [Sep] + b;
    SplitColonPair(a, b);
    assert Join(SortedIds([id])) == id;
    assert ToSet([id]) == {id};
    assert a !in held + {id} by { assert |id| > |a|; }
  }

  /** "a:b".split(":") is ["a", "b"]. */
  lemma SplitColonPair(a: string, b: string)
    requires PlainId(a) && PlainId(b)
    ensures Sep in a + [Sep] + b && Split(a + [Sep] + b) == [a, b]
  {
    var id := a + [Sep] + b;
    FieldsOfSeparated(a, b);
    FieldsOfPlain(b);
    assert id[|a|] == Sep;
  }

  /** A read changes nothing in the store and never leaves an id held that was free before
      it, unless the id itself splits into other ids. */
  lemma GetAccountReleasesPlainId(held: set<string>, accounts: map<string, Account>, accountId: string)
    requires PlainId(accountId)
    ensures GetAccountOutcome(held, accounts, accountId).held == held
  {
    if accountId !in held {
      GetAccountReadsStore(held, accounts, accountId);
    }
  }

  // ---------------------------------------------------------------------------------------
  // The service

  class AccountsServiceImp {
    const accountsRepository: AccountsRepository
    const transferService: TransferServiceImp
    const lockService: AdvisoryLockServiceImp

    /** One store and one lock table, shared with the transfer service. */
    ghost predicate Valid()
      reads this, transferService, transferService.accountsRepository
    {
      && transferService.accountsRepository == accountsRepository
      && transferService.lockService == lockService
      && transferService.Valid()
    }

    constructor (accountsRepository: AccountsRepository, transferService: TransferServiceImp,
                 lockService: AdvisoryLockServiceImp)
      requires transferService.accountsRepository == accountsRepository
      requires transferService.lockService == lockService
      requires transferService.Valid()
      ensures Valid()
      ensures this.accountsRepository == accountsRepository && this.transferService == transferService
      ensures this.lockService == lockService
    {
      this.accountsRepository := accountsRepository;
      this.transferService := transferService;
      this.lockService := lockService;
    }

    /** createAccount: the store's own createAccount. */
    method CreateAccount(account: Account) returns (err: Option<Error>)
      requires Valid()
      modifies accountsRepository`accounts
      ensures Valid()
      ensures err.Some? <==> account.accountId in old(accountsRepository.accounts)
      ensures err.Some? ==>
                err.value == DuplicateAccountId(account.accountId)
                && accountsRepository.accounts == old(accountsRepository.accounts)
      ensures err.None? ==> accountsRepository.accounts == old(accountsRepository.accounts)[account.accountId := account]
    {
      err := accountsRepository.CreateAccount(account);
    }

    /** getAccount(accountId). */
    method GetAccount(accountId: string) returns (found: Option<Account>, err: Option<Error>)
      modifies lockService
      ensures Lookup(lockService.acquiredAccounts, found, err)
        == GetAccountOutcome(old(lockService.acquiredAccounts), accountsRepository.accounts, accountId)
    {
      var locked := lockService.Acquire([accountId], RetryTimesToTakeLock);
      if locked.None? {
        return None, Some(CannotAcquireLock([accountId]));
      }
      found := accountsRepository.GetAccount(accountId);
      err := lockService.Release(locked.value);
      if err.Some? {
        found := None;
      }
    }

    /** transfer(fromAccountId, toAccountId, amount): an unknown id is refused before anything
        is locked or written; otherwise the two stored objects are handed to the transfer
        service, whose log is created at logTime under freshId. */
    method Transfer(fromId: string, toId: string, amount: int, freshId: string,
                    logTime: Timestamp, rollbackTime: Timestamp)
      returns (err: Option<Error>)
      requires Valid()
      modifies lockService, transferService.transferRepositoryLog`saved, transferService.notificationService,
        accountsRepository`accounts, accountsRepository.calls, accountsRepository.accounts.Values
      ensures Valid() && accountsRepository.accounts == old(accountsRepository.accounts)
      ensures var missing := MissingAccount(accountsRepository.accounts, fromId, toId);
        missing.Some? ==>
          && err == missing
          && unchanged(lockService, transferService.transferRepositoryLog, transferService.notificationService)
          && unchanged(accountsRepository.calls) && unchanged(accountsRepository.accounts.Values)
      ensures MissingAccount(accountsRepository.accounts, fromId, toId).None? ==>
        var from := accountsRepository.accounts[fromId];
        var to := accountsRepository.accounts[toId];
        var r := TransferProtocol.Transfer(old(transferService.WorldOf(from, to)), fromId, toId, amount,
                                           freshId, logTime, rollbackTime, accountsRepository.calls.failAt);
        transferService.WorldOf(from, to) == r.w && err == r.thrown
      ensures MissingAccount(accountsRepository.accounts, fromId, toId).None? ==>
        forall a :: a in old(accountsRepository.accounts.Values)
          && a != accountsRepository.accounts[fromId] && a != accountsRepository.accounts[toId]
          ==> a.View() == old(a.View())
    {
      var fromAccount := accountsRepository.GetAccount(fromId);
      if fromAccount.None? {
        return Some(AccountNotFound(fromId));
      }
      var toAccount := accountsRepository.GetAccount(toId);
      if toAccount.None? {
        return Some(AccountNotFound(toId));
      }
      ghost var log;
      err, log := transferService.Transfer(fromAccount.value, toAccount.value, amount, freshId, logTime, rollbackTime);
    }
  }
}
