/**
 * The records of the domain package: Account and TransferLog are mutable objects (Lombok
 * @Data setters), so both are classes; their value snapshots are datatypes. The exceptions the
 * services throw are the variants of Error.
 */
module Domain {

  /** LocalDateTime reduced to its order: a tick count between LocalDateTime.MIN and
      LocalDateTime.MAX. Only comparisons are ever made on it. */
  const MinTime: int := -1_000_000_000_000_000
  const MaxTime: int := 1_000_000_000_000_000

  type Timestamp = t: int | MinTime <= t <= MaxTime

  /** TransferStatus, as the transfer code uses it. */
  datatype TransferStatus = Start | DebitFromAccount | CreditToAccount | Completed | Failed

  /** What a failing call throws. */
  datatype Error =
    | CannotAcquireLock(accountIds: seq<string>)  // LockServiceException from a service
    | InvalidToken                                // LockServiceException: token splits into nothing
    | NotAllAcquired(accountIds: seq<string>)     // LockServiceException: some id of the token not held
    | NotEnoughMoney(accountId: string)           // ServiceException "... doesn't contain enough money."
    | AccountNotFound(accountId: string)          // ServiceException "Cannot find the account ..."
    | DuplicateAccountId(accountId: string)       // DuplicateAccountIdException
    | StoreFailure                                // whatever a repository or the notifier throws
    | NegativeSleep(pause: int)                   // IllegalArgumentException from Thread.sleep

  /** The mutable part of an Account at one moment. */
  datatype AccountView = AccountView(balance: int, updateAt: Timestamp)

  /** BigDecimal balances are exact, so they are integers here. */
  class Account {
    const accountId: string
    var balance: int
    var updateAt: Timestamp

    /** new Account(id): a zero balance, stamped with the clock reading now. */
    constructor (accountId: string, now: Timestamp)
      ensures this.accountId == accountId
      ensures View() == AccountView(0, now)
    {
      this.accountId := accountId;
      balance := 0;
      updateAt := now;
    }

    /** new Account(id, balance): exactly the given balance, stamped with now. */
    constructor WithBalance(accountId: string, balance: int, now: Timestamp)
      ensures this.accountId == accountId
      ensures View() == AccountView(balance, now)
    {
      this.accountId := accountId;
      this.balance := balance;
      updateAt := now;
    }

    function View(): AccountView
      reads this
    {
      AccountView(balance, updateAt)
    }
  }

  /** A TransferLog at one moment. */
  datatype TransferLogRecord = TransferLogRecord(
    id: string,
    fromAccountId: string,
    toAccountId: string,
    amount: int,
    status: TransferStatus,
    updatedAt: Timestamp)

  class TransferLog {
    const id: string
    const fromAccountId: string
    const toAccountId: string
    var amount: int
    var status: TransferStatus
    var updatedAt: Timestamp

    /** new TransferLog(from, to, amount): status START, the fresh id the caller drew
        (UUID.randomUUID()) and the construction time now. */
    constructor (fromAccountId: string, toAccountId: string, amount: int, freshId: string, now: Timestamp)
      ensures Record() == TransferLogRecord(freshId, fromAccountId, toAccountId, amount, Start, now)
    {
      id := freshId;
      this.fromAccountId := fromAccountId;
      this.toAccountId := toAccountId;
      this.amount := amount;
      status := Start;
      updatedAt := now;
    }

    /** The private all-fields constructor. */
    constructor Of(r: TransferLogRecord)
      ensures Record() == r
    {
      id := r.id;
      fromAccountId := r.fromAccountId;
      toAccountId := r.toAccountId;
      amount := r.amount;
      status := r.status;
      updatedAt := r.updatedAt;
    }

    function Record(): TransferLogRecord
      reads this
    {
      TransferLogRecord(id, fromAccountId, toAccountId, amount, status, updatedAt)
    }

    /** A new object with the same six fields: setting the copy's status cannot reach this one. */
    method CopyOf() returns (copy: TransferLog)
      ensures fresh(copy)
      ensures copy.Record() == Record()
    {
      copy := new TransferLog.Of(Record());
    }
  }
}
