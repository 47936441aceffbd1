/**
 * TransferServiceImp.transfer as a function of the values it touches: lock the two ids, create
 * a START log, check the balance, then run the try block: for the debit and for the credit set
 * and save the log status before writing and saving the balance, then mark COMPLETED and notify
 * both holders. The try block is a plan of single steps that stops at the first call that
 * throws. On an exception, roll back by the last status, mark FAILED and rethrow. The lock is
 * released in any case. The class in Transfers is proved to do exactly this to its objects.
 */
module TransferProtocol {
  import opened Wrappers
  import opened Domain
  import opened AdvisoryLock
  import opened Collaborators

  /** RETRY_TIMES_TO_TAKE_LOCK */
  const RetryTimesToTakeLock: int := 300

  /** What a transfer can change: the lock table, the two accounts (a single entry when both
      ids are the same account), the collaborator calls made, the log states saved and the
      notices delivered. */
  datatype World = World(
    held: set<string>,
    accounts: map<string, AccountView>,
    made: seq<Call>,
    saved: seq<TransferLogRecord>,
    sent: seq<Notice>)

  /** Part way through: the world, the transfer log, and the exception in flight. */
  datatype Step = Step(w: World, log: TransferLogRecord, thrown: Option<Error>)

  /** The end of a transfer: the world, the transfer log if one was created, the exception
      the caller sees. */
  datatype Outcome = Outcome(w: World, log: Option<TransferLogRecord>, thrown: Option<Error>)

  /** The next collaborator call throws. */
  predicate Throws(w: World, failAt: nat) {
    |w.made| == failAt
  }

  /** What the next collaborator call throws, if anything. */
  function Fault(w: World, failAt: nat): (r: Option<Error>)
    ensures r.Some? <==> Throws(w, failAt)
  {
    if Throws(w, failAt) then Some(StoreFailure) else None
  }

  /** The account held under id. The coordinator only ever looks up the two accounts it was
      given, which are always present; a missing id reads as an empty account. */
  function ViewOf(w: World, id: string): AccountView {
    if id in w.accounts then w.accounts[id] else AccountView(0, MinTime)
  }

  /** setBalance(getBalance() + delta): the stamp is left as it was. */
  function Shifted(v: AccountView, delta: int): (r: AccountView)
    ensures r.balance - delta == v.balance && r.updateAt == v.updateAt
  {
    v.(balance := v.balance + delta)
  }

  function SaveLog(w: World, log: TransferLogRecord, failAt: nat): (r: World)
    ensures r.accounts == w.accounts && r.held == w.held && r.sent == w.sent
    ensures r.made == w.made + [LogSaved(log)]
    ensures r.saved == if Throws(w, failAt) then w.saved else w.saved + [log]
  {
    w.(made := w.made + [LogSaved(log)], saved := w.saved + if Throws(w, failAt) then [] else [log])
  }

  function SaveAccount(w: World, id: string): (r: World)
    ensures r.accounts == w.accounts && r.held == w.held && r.saved == w.saved && r.sent == w.sent
    ensures r.made == w.made + [AccountSaved(id, ViewOf(w, id))]
  {
    w.(made := w.made + [AccountSaved(id, ViewOf(w, id))])
  }

  function Notify(w: World, id: string, message: Message, failAt: nat): (r: World)
    ensures r.accounts == w.accounts && r.held == w.held && r.saved == w.saved
    ensures r.made == w.made + [Notified(Notice(id, message))]
    ensures r.sent == if Throws(w, failAt) then w.sent else w.sent + [Notice(id, message)]
  {
    w.(made := w.made + [Notified(Notice(id, message))],
       sent := w.sent + if Throws(w, failAt) then [] else [Notice(id, message)])
  }

  // ---------------------------------------------------------------------------------------
  // The try block as a plan

  /** One step of the try block. */
  datatype Action =
    | SaveStatus(status: TransferStatus)          // transferLog.setStatus, then transferRepositoryLog.save
    | AddToBalance(accountId: string, delta: int)  // account.setBalance(account.getBalance() + delta)
    | StoreAccount(accountId: string)              // accountsRepository.save(account)
    | Tell(accountId: string, message: Message)    // notificationService.notifyAboutTransfer

  function Perform(w: World, log: TransferLogRecord, a: Action, failAt: nat): (r: Step)
    ensures r.w.held == w.held
    ensures r.log == log.(status := r.log.status)
    ensures a.AddToBalance? ==> r.thrown.None? && r.w.made == w.made
    ensures !a.AddToBalance? ==> (r.thrown.Some? <==> Throws(w, failAt)) && |r.w.made| == |w.made| + 1
  {
    match a
    case SaveStatus(status) =>
      var next := log.(status := status);
      Step(SaveLog(w, next, failAt), next, Fault(w, failAt))
    case AddToBalance(id, delta) =>
      Step(w.(accounts := w.accounts[id := Shifted(ViewOf(w, id), delta)]), log, None)
    case StoreAccount(id) =>
      Step(SaveAccount(w, id), log, Fault(w, failAt))
    case Tell(id, message) =>
      Step(Notify(w, id, message, failAt), log, Fault(w, failAt))
  }

  /** The steps of plan in order, up to and including the first that throws. */
  function Run(w: World, log: TransferLogRecord, plan: seq<Action>, failAt: nat): (r: Step)
    ensures r.w.held == w.held
    decreases |plan|
  {
    if |plan| == 0 then Step(w, log, None)
    else
      var first := Perform(w, log, plan[0], failAt);
      if first.thrown.Some? then first else Run(first.w, first.log, plan[1..], failAt)
  }

  /** debitOrCreditAccount(log, account, account.getBalance() + delta, status). */
  function DebitOrCreditPlan(id: string, delta: int, status: TransferStatus): seq<Action> {
    [SaveStatus(status), AddToBalance(id, delta), StoreAccount(id)]
  }

  /** The end of the try block: COMPLETED saved, then both holders notified. */
  function CompletionPlan(f: string, t: string, amount: int): seq<Action> {
    [SaveStatus(Completed), Tell(f, DebitedBy(amount)), Tell(t, CreditedBy(amount))]
  }

  /** The try block once the balance check passed: debit from, credit to, complete. */
  function ForwardPlan(f: string, t: string, amount: int): seq<Action> {
    DebitOrCreditPlan(f, -amount, DebitFromAccount) + DebitOrCreditPlan(t, amount, CreditToAccount)
      + CompletionPlan(f, t, amount)
  }

  /** The try block of transfer: not enough money means the holder is notified and the
      service exception thrown (or whatever the notifier threw). */
  function Attempt(w: World, log: TransferLogRecord, f: string, t: string, amount: int, failAt: nat): (r: Step)
    ensures r.w.held == w.held
  {
    if ViewOf(w, f).balance < amount then
      Step(Notify(w, f, NotEnoughMoneyForTransfer, failAt), log,
           Some(if Throws(w, failAt) then StoreFailure else NotEnoughMoney(f)))
    else
      Run(w, log, ForwardPlan(f, t, amount), failAt)
  }

  // ---------------------------------------------------------------------------------------
  // The catch block

  /** updateAccount: the compensation is applied, stamped now and saved (a failing save is
      swallowed) only when the account's stamp is not older than the log's. */
  function UpdateAccount(w: World, id: string, newBalance: int, logUpdatedAt: Timestamp, now: Timestamp): (r: World)
    ensures r.held == w.held && r.saved == w.saved && r.sent == w.sent
  {
    if ViewOf(w, id).updateAt >= logUpdatedAt then
      SaveAccount(w.(accounts := w.accounts[id := AccountView(newBalance, now)]), id)
    else w
  }

  /** The compensations of rollback, chosen by the last status set on the log. */
  function Compensate(w: World, log: TransferLogRecord, f: string, t: string, amount: int, now: Timestamp): (r: World)
    ensures r.held == w.held && r.saved == w.saved && r.sent == w.sent
  {
    var refunded := if log.status == DebitFromAccount || log.status == CreditToAccount
      then UpdateAccount(w, f, ViewOf(w, f).balance + amount, log.updatedAt, now) else w;
    if log.status == CreditToAccount
      then UpdateAccount(refunded, t, ViewOf(refunded, t).balance - amount, log.updatedAt, now) else refunded
  }

  /** rollback: compensate, mark FAILED and save; only that last save can throw out of it. */
  function Rollback(w: World, log: TransferLogRecord, f: string, t: string, amount: int,
                    now: Timestamp, failAt: nat): (r: Step)
    ensures r.w.held == w.held && r.w.sent == w.sent
    ensures r.log == log.(status := Failed)
  {
    var compensated := Compensate(w, log, f, t, amount, now);
    var failed := log.(status := Failed);
    Step(SaveLog(compensated, failed, failAt), failed, Fault(compensated, failAt))
  }

  // ---------------------------------------------------------------------------------------
  // The whole transfer

  /** The try and catch blocks of transfer: on an exception, roll back and rethrow it, unless
      rollback itself throws. */
  function TryOrRollback(w: World, log: TransferLogRecord, f: string, t: string, amount: int,
                         rollbackTime: Timestamp, failAt: nat): (r: Step)
    ensures r.w.held == w.held
  {
    var attempt := Attempt(w, log, f, t, amount, failAt);
    if attempt.thrown.None? then attempt
    else
      var rolledBack := Rollback(attempt.w, attempt.log, f, t, amount, rollbackTime, failAt);
      if rolledBack.thrown.Some? then rolledBack else rolledBack.(thrown := attempt.thrown)
  }

  /** transfer(from, to, amount), with the log created at logTime under freshId, compensations
      stamped at rollbackTime, and the collaborator call number failAt throwing. */
  function Transfer(w: World, f: string, t: string, amount: int, freshId: string,
                    logTime: Timestamp, rollbackTime: Timestamp, failAt: nat): Outcome
  {
    var (during, locked) := AcquireResult(w.held, [f, t], RetryTimesToTakeLock);
    if locked.None? then Outcome(w, None, Some(CannotAcquireLock([f, t])))
    else
      var log := TransferLogRecord(freshId, f, t, amount, Start, logTime);
      var after := TryOrRollback(w.(held := during), log, f, t, amount, rollbackTime, failAt);
      var (released, releaseError) := ReleaseResult(after.w.held, locked.value);
      Outcome(after.w.(held := released), Some(after.log),
              if releaseError.Some? then releaseError else after.thrown)
  }
}
