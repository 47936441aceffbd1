/**
 * The collaborators the coordinator calls but whose code is not part of this model:
 * AccountsRepository (an abstract keyed store of Account objects) and NotificationService.
 * Every call that can throw goes through one ExternalCalls object, which records the calls in
 * order and throws on the one whose index is failAt: an injected fault.
 */
module Collaborators {
  import opened Wrappers
  import opened Domain

  datatype Message = NotEnoughMoneyForTransfer | DebitedBy(amount: int) | CreditedBy(amount: int)

  datatype Notice = Notice(accountId: string, message: Message)

  /** One call to a collaborator that may throw, with what it was given. */
  datatype Call =
    | LogSaved(log: TransferLogRecord)
    | AccountSaved(accountId: string, account: AccountView)
    | Notified(notice: Notice)

  class ExternalCalls {
    var made: seq<Call>
    const failAt: nat

    constructor (failAt: nat)
      ensures made == [] && this.failAt == failAt
    {
      made := [];
      this.failAt := failAt;
    }

    /** Records the call; it throws exactly when it is call number failAt. */
    method Make(c: Call) returns (ok: bool)
      modifies this
      ensures made == old(made) + [c]
      ensures ok <==> |old(made)| != failAt
    {
      ok := |made| != failAt;
      made := made + [c];
    }
  }

  /** AccountsRepository: account objects by id. getAccount hands out the stored object
      itself, so a caller's setters change what the store holds. */
  class AccountsRepository {
    var accounts: map<string, Account>
    const calls: ExternalCalls

    ghost predicate Valid()
      reads this
    {
      forall id :: id in accounts ==> accounts[id].accountId == id
    }

    constructor (calls: ExternalCalls)
      ensures Valid() && accounts == map[] && this.calls == calls
    {
      accounts := map[];
      this.calls := calls;
    }

    /** getAccount: the stored object, None for null. */
    function GetAccount(accountId: string): (r: Option<Account>)
      reads this
      ensures r.Some? <==> accountId in accounts
      ensures r.Some? ==> r.value == accounts[accountId]
    {
      if accountId in accounts then Some(accounts[accountId]) else None
    }

    /** createAccount: rejects an id already present. */
    method CreateAccount(account: Account) returns (err: Option<Error>)
      requires Valid()
      modifies this`accounts
      ensures Valid()
      ensures err.Some? <==> account.accountId in old(accounts)
      ensures err.Some? ==> err.value == DuplicateAccountId(account.accountId) && accounts == old(accounts)
      ensures err.None? ==> accounts == old(accounts)[account.accountId := account]
    {
      if account.accountId in accounts {
        return Some(DuplicateAccountId(account.accountId));
      }
      accounts := accounts[account.accountId := account];
      return None;
    }

    /** save: stores the object under its id, unless the call throws. */
    method Save(account: Account) returns (ok: bool)
      requires Valid()
      modifies this`accounts, calls
      ensures Valid()
      ensures calls.made == old(calls.made) + [AccountSaved(account.accountId, account.View())]
      ensures ok <==> |old(calls.made)| != calls.failAt
      ensures accounts == if ok then old(accounts)[account.accountId := account] else old(accounts)
    {
      ok := calls.Make(AccountSaved(account.accountId, account.View()));
      if ok {
        accounts := accounts[account.accountId := account];
      }
    }
  }

  /** NotificationService: the notices delivered, as a ghost list. */
  class NotificationService {
    ghost var sent: seq<Notice>
    const calls: ExternalCalls

    constructor (calls: ExternalCalls)
      ensures sent == [] && this.calls == calls
    {
      sent := [];
      this.calls := calls;
    }

    method NotifyAboutTransfer(account: Account, message: Message) returns (ok: bool)
      modifies this, calls
      ensures calls.made == old(calls.made) + [Notified(Notice(account.accountId, message))]
      ensures ok <==> |old(calls.made)| != calls.failAt
      ensures sent == old(sent) + if ok then [Notice(account.accountId, message)] else []
    {
      ok := calls.Make(Notified(Notice(account.accountId, message)));
      if ok {
        sent := sent + [Notice(account.accountId, message)];
      }
    }
  }
}
