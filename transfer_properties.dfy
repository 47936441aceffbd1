/**
 * What TransferServiceImp.transfer promises, proved about the functions of TransferProtocol:
 * the lock is left as found, money moves only as a whole, every balance write is preceded by
 * the log write announcing it, and what rollback does, including where its timestamp guard
 * keeps it from restoring the balances and where it compensates a step that never happened.
 */
module TransferProperties {
  import opened Wrappers
  import opened JavaStrings
  import opened Domain
  import opened AdvisoryLock
  import opened Collaborators
  import opened TransferProtocol

  /** No collaborator call among the next n throws. */
  predicate NoFaultWithin(w: World, failAt: nat, n: nat) {
    failAt < |w.made| || |w.made| + n <= failAt
  }

  /** The transfer log as created. */
  function Created(f: string, t: string, amount: int, freshId: string, logTime: Timestamp): TransferLogRecord {
    TransferLogRecord(freshId, f, t, amount, Start, logTime)
  }

  /** The accounts after from paid amount to to: the debit, then the credit on what the debit
      left. This is the reference the try block is compared with. */
  function Moved(accounts: map<string, AccountView>, f: string, t: string, amount: int): map<string, AccountView> {
    var debited := accounts[f := Shifted(if f in accounts then accounts[f] else AccountView(0, MinTime), -amount)];
    debited[t := Shifted(if t in debited then debited[t] else AccountView(0, MinTime), amount)]
  }

  /** Between two distinct accounts, from loses amount, to gains it, their sum and their stamps
      stay, and no other account is touched. */
  lemma MovedBetweenTwo(accounts: map<string, AccountView>, f: string, t: string, amount: int)
    requires f in accounts && t in accounts && f != t
    ensures var m := Moved(accounts, f, t, amount);
      && m.Keys == accounts.Keys
      && m[f] == AccountView(accounts[f].balance - amount, accounts[f].updateAt)
      && m[t] == AccountView(accounts[t].balance + amount, accounts[t].updateAt)
      && m[f].balance + m[t].balance == accounts[f].balance + accounts[t].balance
      && (forall id :: id in accounts && id != f && id != t ==> m[id] == accounts[id])
  {
  }

  /** Paying oneself changes nothing. */
  lemma MovedOnSelf(accounts: map<string, AccountView>, f: string, amount: int)
    requires f in accounts
    ensures Moved(accounts, f, f, amount) == accounts
  {
    var debited := accounts[f := Shifted(accounts[f], -amount)];
    assert debited[f := Shifted(debited[f], amount)] == accounts[f := accounts[f]];
  }

  // ---------------------------------------------------------------------------------------
  // Running a plan

  /** Running two plans one after the other is running the first, then the second unless the
      first threw. */
  lemma {:induction false} RunAppend(w: World, log: TransferLogRecord, p: seq<Action>, q: seq<Action>, failAt: nat)
    ensures var r := Run(w, log, p, failAt);
      Run(w, log, p + q, failAt) == if r.thrown.Some? then r else Run(r.w, r.log, q, failAt)
    decreases |p|
  {
    if |p| == 0 {
      assert p + q == q;
    } else {
      var first := Perform(w, log, p[0], failAt);
      assert (p + q)[0] == p[0];
      if first.thrown.None? {
        assert (p + q)[1..] == p[1..] + q;
        RunAppend(first.w, first.log, p[1..], q, failAt);
      }
    }
  }

  /** A plan changes only the status of the log, and what it throws is a collaborator's
      exception. */
  lemma {:induction false} RunKeepsLogFields(w: World, log: TransferLogRecord, plan: seq<Action>, failAt: nat)
    ensures var r := Run(w, log, plan, failAt);
      && r.log == log.(status := r.log.status)
      && (r.thrown.Some? ==> r.thrown == Some(StoreFailure))
    decreases |plan|
  {
    if |plan| > 0 {
      var first := Perform(w, log, plan[0], failAt);
      if first.thrown.None? {
        RunKeepsLogFields(first.w, first.log, plan[1..], failAt);
      }
    }
  }

  /** A collaborator call, by what it touches. */
  datatype CallKind = LogWrite(status: TransferStatus) | AccountWrite(accountId: string) | NoticeTo(accountId: string)

  function KindOf(c: Call): CallKind {
    match c
    case LogSaved(log) => LogWrite(log.status)
    case AccountSaved(id, _) => AccountWrite(id)
    case Notified(notice) => NoticeTo(notice.accountId)
  }

  function Kinds(calls: seq<Call>): (r: seq<CallKind>)
    ensures |r| == |calls|
  {
    seq(|calls|, k requires 0 <= k < |calls| => KindOf(calls[k]))
  }

  /** The calls a step makes: none for the in-memory balance update. */
  function ActionKinds(a: Action): seq<CallKind> {
    match a
    case SaveStatus(status) => [LogWrite(status)]
    case AddToBalance(_, _) => []
    case StoreAccount(id) => [AccountWrite(id)]
    case Tell(id, _) => [NoticeTo(id)]
  }

  /** The calls a plan makes when none of them throws, in order. */
  function CallKinds(plan: seq<Action>): seq<CallKind>
    decreases |plan|
  {
    if |plan| == 0 then [] else ActionKinds(plan[0]) + CallKinds(plan[1..])
  }

  lemma {:induction false} CallKindsAppend(p: seq<Action>, q: seq<Action>)
    ensures CallKinds(p + q) == CallKinds(p) + CallKinds(q)
    decreases |p|
  {
    if |p| == 0 {
      assert p + q == q;
    } else {
      assert (p + q)[0] == p[0] && (p + q)[1..] == p[1..] + q;
      CallKindsAppend(p[1..], q);
    }
  }

  lemma CallKindsOfThree(a: Action, b: Action, c: Action)
    ensures CallKinds([a, b, c]) == ActionKinds(a) + ActionKinds(b) + ActionKinds(c)
  {
    assert [a, b, c][1..] == [b, c] && [b, c][1..] == [c] && [c][1..] == [];
    assert CallKinds([c]) == ActionKinds(c) + CallKinds([]);
    assert CallKinds([b, c]) == ActionKinds(b) + CallKinds([c]);
    assert CallKinds([a, b, c]) == ActionKinds(a) + CallKinds([b, c]);
  }

  /** A plan makes one call per step that is not a balance update, stops right after the
      first that throws, and throws exactly when call number failAt is among its calls. */
  lemma {:induction false} RunCalls(w: World, log: TransferLogRecord, plan: seq<Action>, failAt: nat)
    ensures var r := Run(w, log, plan, failAt);
      var n := |r.w.made| - |w.made|;
      && |w.made| <= |r.w.made| && r.w.made[..|w.made|] == w.made
      && n <= |CallKinds(plan)|
      && (r.thrown.None? <==> NoFaultWithin(w, failAt, |CallKinds(plan)|))
      && (r.thrown.None? ==> n == |CallKinds(plan)|)
      && (r.thrown.Some? ==> failAt == |r.w.made| - 1)
    decreases |plan|
  {
    if |plan| > 0 {
      var first := Perform(w, log, plan[0], failAt);
      if first.thrown.None? {
        RunCalls(first.w, first.log, plan[1..], failAt);
        var r := Run(first.w, first.log, plan[1..], failAt);
        assert r.w.made[..|w.made|] == r.w.made[..|first.w.made|][..|w.made|];
      }
    }
  }

  /** The calls a plan makes are its calls in order, cut right after the one that threw. */
  lemma {:induction false} RunTrace(w: World, log: TransferLogRecord, plan: seq<Action>, failAt: nat)
    ensures var r := Run(w, log, plan, failAt);
      var n := |r.w.made| - |w.made|;
      0 <= n <= |CallKinds(plan)| && Kinds(r.w.made[|w.made|..]) == CallKinds(plan)[..n]
    decreases |plan|
  {
    RunCalls(w, log, plan, failAt);
    if |plan| > 0 {
      var first := Perform(w, log, plan[0], failAt);
      var r := Run(w, log, plan, failAt);
      if first.thrown.None? {
        RunTrace(first.w, first.log, plan[1..], failAt);
        RunCalls(first.w, first.log, plan[1..], failAt);
        PerformKinds(w, log, plan[0], failAt);
        TraceStep(w.made, first.w.made, r.w.made, ActionKinds(plan[0]), CallKinds(plan[1..]));
        assert CallKinds(plan) == ActionKinds(plan[0]) + CallKinds(plan[1..]);
      } else {
        assert r.w.made[|w.made|..] == [r.w.made[|w.made|]];
      }
    }
  }

  /** The trace of a step followed by the trace of the rest is the trace of both. */
  lemma TraceStep(made0: seq<Call>, made1: seq<Call>, made2: seq<Call>, first: seq<CallKind>, rest: seq<CallKind>)
    requires |made0| <= |made1| <= |made2| && made2[..|made1|] == made1
    requires Kinds(made1[|made0|..]) == first
    requires |made2| - |made1| <= |rest| && Kinds(made2[|made1|..]) == rest[..|made2| - |made1|]
    ensures |made2| - |made0| <= |first + rest|
    ensures Kinds(made2[|made0|..]) == (first + rest)[..|made2| - |made0|]
  {
    var head := made1[|made0|..];
    var tail := made2[|made1|..];
    assert made2[|made0|..] == head + tail;
    KindsAppend(head, tail);
    PrefixOfAppend(first, rest, |made2| - |made1|);
  }

  /** A step makes the call it stands for. */
  lemma PerformKinds(w: World, log: TransferLogRecord, a: Action, failAt: nat)
    ensures var r := Perform(w, log, a, failAt);
      |w.made| <= |r.w.made| && Kinds(r.w.made[|w.made|..]) == ActionKinds(a)
  {
    var r := Perform(w, log, a, failAt);
    if !a.AddToBalance? {
      assert r.w.made[|w.made|..] == [r.w.made[|w.made|]];
    }
  }

  lemma KindsAppend(a: seq<Call>, b: seq<Call>)
    ensures Kinds(a + b) == Kinds(a) + Kinds(b)
  {
    assert forall k :: 0 <= k < |a + b| ==> Kinds(a + b)[k] == (Kinds(a) + Kinds(b))[k];
  }

  lemma PrefixOfAppend<T>(x: seq<T>, y: seq<T>, k: nat)
    requires k <= |y|
    ensures (x + y)[..|x| + k] == x + y[..k]
  {
  }

  // ---------------------------------------------------------------------------------------
  // The stages of the try block

  /** debitOrCreditAccount, call by call: the status is set and the log saved; unless that
      threw, the balance is written and the account saved. */
  lemma DebitOrCreditSteps(w: World, log: TransferLogRecord, id: string, delta: int, status: TransferStatus,
                           failAt: nat)
    ensures var logged := log.(status := status);
      var w1 := SaveLog(w, logged, failAt);
      var w2 := w1.(accounts := w1.accounts[id := Shifted(ViewOf(w1, id), delta)]);
      Run(w, log, DebitOrCreditPlan(id, delta, status), failAt)
      == if Throws(w, failAt) then Step(w1, logged, Some(StoreFailure))
         else Step(SaveAccount(w2, id), logged, Fault(w2, failAt))
  {
    var plan := DebitOrCreditPlan(id, delta, status);
    var s1 := Perform(w, log, plan[0], failAt);
    var s2 := Perform(s1.w, s1.log, plan[1], failAt);
    assert plan[1..][1..] == [StoreAccount(id)];
    assert Run(s2.w, s2.log, [StoreAccount(id)], failAt) == Perform(s2.w, s2.log, StoreAccount(id), failAt);
  }

  /** The completion, call by call: COMPLETED saved, from notified, to notified, stopping at
      the first call that throws. */
  lemma CompletionSteps(w: World, log: TransferLogRecord, f: string, t: string, amount: int, failAt: nat)
    ensures var done := log.(status := Completed);
      var w1 := SaveLog(w, done, failAt);
      var w2 := Notify(w1, f, DebitedBy(amount), failAt);
      Run(w, log, CompletionPlan(f, t, amount), failAt)
      == if Throws(w, failAt) then Step(w1, done, Some(StoreFailure))
         else if Throws(w1, failAt) then Step(w2, done, Some(StoreFailure))
         else Step(Notify(w2, t, CreditedBy(amount), failAt), done, Fault(w2, failAt))
  {
    var plan := CompletionPlan(f, t, amount);
    var s1 := Perform(w, log, plan[0], failAt);
    var s2 := Perform(s1.w, s1.log, plan[1], failAt);
    assert plan[1..][1..] == [Tell(t, CreditedBy(amount))];
    assert Run(s2.w, s2.log, [Tell(t, CreditedBy(amount))], failAt)
      == Perform(s2.w, s2.log, Tell(t, CreditedBy(amount)), failAt);
  }

  /** debitOrCreditAccount when neither of its calls throws. */
  lemma DebitOrCreditGoesThrough(w: World, log: TransferLogRecord, id: string, delta: int, status: TransferStatus,
                                 failAt: nat, r: Step)
    requires NoFaultWithin(w, failAt, 2)
    requires r == Run(w, log, DebitOrCreditPlan(id, delta, status), failAt)
    ensures r.thrown.None?
    ensures r.log == log.(status := status)
    ensures r.w.accounts == w.accounts[id := Shifted(ViewOf(w, id), delta)]
    ensures |r.w.made| == |w.made| + 2
    ensures r.w.saved == w.saved + [log.(status := status)] && r.w.sent == w.sent
  {
    var plan := DebitOrCreditPlan(id, delta, status);
    var s1 := Perform(w, log, plan[0], failAt);
    var s2 := Perform(s1.w, s1.log, plan[1], failAt);
    assert plan[1..][1..] == [StoreAccount(id)];
    assert Run(s2.w, s2.log, [StoreAccount(id)], failAt) == Perform(s2.w, s2.log, StoreAccount(id), failAt);
  }

  /** debitOrCreditAccount when one of its calls throws: the status is set either way, and the
      balance is written in memory only when the log save went through. */
  lemma DebitOrCreditStops(w: World, log: TransferLogRecord, id: string, delta: int, status: TransferStatus,
                           failAt: nat, r: Step)
    requires failAt == |w.made| || failAt == |w.made| + 1
    requires r == Run(w, log, DebitOrCreditPlan(id, delta, status), failAt)
    ensures r.thrown == Some(StoreFailure)
    ensures r.log == log.(status := status)
    ensures r.w.accounts == if failAt == |w.made| then w.accounts else w.accounts[id := Shifted(ViewOf(w, id), delta)]
    ensures |r.w.made| == failAt + 1
  {
    var plan := DebitOrCreditPlan(id, delta, status);
    var s1 := Perform(w, log, plan[0], failAt);
    if failAt == |w.made| + 1 {
      var s2 := Perform(s1.w, s1.log, plan[1], failAt);
      assert plan[1..][1..] == [StoreAccount(id)];
      assert Run(s2.w, s2.log, [StoreAccount(id)], failAt) == Perform(s2.w, s2.log, StoreAccount(id), failAt);
    }
  }

  /** The completion when none of its calls throws. */
  lemma CompletionGoesThrough(w: World, log: TransferLogRecord, f: string, t: string, amount: int, failAt: nat, r: Step)
    requires NoFaultWithin(w, failAt, 3)
    requires r == Run(w, log, CompletionPlan(f, t, amount), failAt)
    ensures r.thrown.None?
    ensures r.log == log.(status := Completed)
    ensures r.w.accounts == w.accounts
    ensures |r.w.made| == |w.made| + 3
    ensures r.w.saved == w.saved + [log.(status := Completed)]
    ensures r.w.sent == w.sent + [Notice(f, DebitedBy(amount))] + [Notice(t, CreditedBy(amount))]
  {
    var plan := CompletionPlan(f, t, amount);
    var s1 := Perform(w, log, plan[0], failAt);
    var s2 := Perform(s1.w, s1.log, plan[1], failAt);
    assert plan[1..][1..] == [Tell(t, CreditedBy(amount))];
    assert Run(s2.w, s2.log, [Tell(t, CreditedBy(amount))], failAt)
      == Perform(s2.w, s2.log, Tell(t, CreditedBy(amount)), failAt);
  }

  /** The completion when one of its calls throws: the status is COMPLETED in memory anyway,
      and no balance changes. */
  lemma CompletionStops(w: World, log: TransferLogRecord, f: string, t: string, amount: int, failAt: nat, r: Step)
    requires |w.made| <= failAt < |w.made| + 3
    requires r == Run(w, log, CompletionPlan(f, t, amount), failAt)
    ensures r.thrown == Some(StoreFailure)
    ensures r.log == log.(status := Completed)
    ensures r.w.accounts == w.accounts
  {
    var plan := CompletionPlan(f, t, amount);
    var s1 := Perform(w, log, plan[0], failAt);
    if failAt > |w.made| {
      var s2 := Perform(s1.w, s1.log, plan[1], failAt);
      assert plan[1..][1..] == [Tell(t, CreditedBy(amount))];
      assert Run(s2.w, s2.log, [Tell(t, CreditedBy(amount))], failAt)
        == Perform(s2.w, s2.log, Tell(t, CreditedBy(amount)), failAt);
    }
  }

  /** The try block with enough money, as its three stages. */
  lemma AttemptInStages(w: World, log: TransferLogRecord, f: string, t: string, amount: int, failAt: nat)
    requires ViewOf(w, f).balance >= amount
    ensures var debit := Run(w, log, DebitOrCreditPlan(f, -amount, DebitFromAccount), failAt);
      var credit := Run(debit.w, debit.log, DebitOrCreditPlan(t, amount, CreditToAccount), failAt);
      Attempt(w, log, f, t, amount, failAt)
      == if debit.thrown.Some? then debit
         else if credit.thrown.Some? then credit
         else Run(credit.w, credit.log, CompletionPlan(f, t, amount), failAt)
  {
    var d := DebitOrCreditPlan(f, -amount, DebitFromAccount);
    var c := DebitOrCreditPlan(t, amount, CreditToAccount);
    RunAppend(w, log, d + c, CompletionPlan(f, t, amount), failAt);
    RunAppend(w, log, d, c, failAt);
  }

  // ---------------------------------------------------------------------------------------
  // The try block

  /** The try block when no call fails moves the money, saves DEBIT, CREDIT and COMPLETED, and
      notifies from and then to. */
  lemma AttemptCompletes(w: World, log: TransferLogRecord, f: string, t: string, amount: int, failAt: nat)
    requires ViewOf(w, f).balance >= amount
    requires NoFaultWithin(w, failAt, 7)
    ensures var a := Attempt(w, log, f, t, amount, failAt);
      && a.thrown.None?
      && a.log == log.(status := Completed)
      && a.w.accounts == Moved(w.accounts, f, t, amount)
      && |a.w.made| == |w.made| + 7
      && a.w.saved == w.saved + [log.(status := DebitFromAccount)] + [log.(status := CreditToAccount)]
                      + [log.(status := Completed)]
      && a.w.sent == w.sent + [Notice(f, DebitedBy(amount))] + [Notice(t, CreditedBy(amount))]
  {
    AttemptInStages(w, log, f, t, amount, failAt);
    var debit := Run(w, log, DebitOrCreditPlan(f, -amount, DebitFromAccount), failAt);
    DebitOrCreditGoesThrough(w, log, f, -amount, DebitFromAccount, failAt, debit);
    var credit := Run(debit.w, debit.log, DebitOrCreditPlan(t, amount, CreditToAccount), failAt);
    DebitOrCreditGoesThrough(debit.w, debit.log, t, amount, CreditToAccount, failAt, credit);
    var done := Run(credit.w, credit.log, CompletionPlan(f, t, amount), failAt);
    CompletionGoesThrough(credit.w, credit.log, f, t, amount, failAt, done);
  }

  /** The try block changes only the status of the log; it ends COMPLETED exactly when it
      throws nothing, which needs the money and no failing call among its seven. */
  lemma AttemptOutcome(w: World, log: TransferLogRecord, f: string, t: string, amount: int, failAt: nat)
    ensures var a := Attempt(w, log, f, t, amount, failAt);
      && a.log == log.(status := a.log.status)
      && (a.thrown.None? <==> ViewOf(w, f).balance >= amount && NoFaultWithin(w, failAt, 7))
      && (a.thrown.None? ==> a.log.status == Completed)
  {
    if ViewOf(w, f).balance >= amount {
      var plan := ForwardPlan(f, t, amount);
      RunKeepsLogFields(w, log, plan, failAt);
      RunCalls(w, log, plan, failAt);
      ForwardCallOrder(f, t, amount);
      if NoFaultWithin(w, failAt, 7) {
        AttemptCompletes(w, log, f, t, amount, failAt);
      }
    }
  }

  /** The calls of the try block, in order: every balance write comes right after the log
      write that announces it, and the notices come last. */
  lemma ForwardCallOrder(f: string, t: string, amount: int)
    ensures CallKinds(ForwardPlan(f, t, amount))
      == [LogWrite(DebitFromAccount), AccountWrite(f), LogWrite(CreditToAccount), AccountWrite(t),
          LogWrite(Completed), NoticeTo(f), NoticeTo(t)]
  {
    var d := DebitOrCreditPlan(f, -amount, DebitFromAccount);
    var c := DebitOrCreditPlan(t, amount, CreditToAccount);
    var k := CompletionPlan(f, t, amount);
    CallKindsAppend(d + c, k);
    CallKindsAppend(d, c);
    CallKindsOfThree(d[0], d[1], d[2]);
    CallKindsOfThree(c[0], c[1], c[2]);
    CallKindsOfThree(k[0], k[1], k[2]);
    assert d == [d[0], d[1], d[2]] && c == [c[0], c[1], c[2]] && k == [k[0], k[1], k[2]];
  }

  /** Write-ahead: once the balance check passed, the calls made are a prefix of that order,
      cut right after the one that threw. */
  lemma AttemptWritesAhead(w: World, log: TransferLogRecord, f: string, t: string, amount: int, failAt: nat)
    requires ViewOf(w, f).balance >= amount
    ensures var a := Attempt(w, log, f, t, amount, failAt);
      var n := |a.w.made| - |w.made|;
      var order := [LogWrite(DebitFromAccount), AccountWrite(f), LogWrite(CreditToAccount), AccountWrite(t),
                    LogWrite(Completed), NoticeTo(f), NoticeTo(t)];
      && 0 <= n <= 7 && a.w.made[..|w.made|] == w.made
      && Kinds(a.w.made[|w.made|..]) == order[..n]
      && (a.thrown.Some? ==> failAt == |a.w.made| - 1)
      && (a.thrown.None? ==> n == 7)
  {
    RunCalls(w, log, ForwardPlan(f, t, amount), failAt);
    RunTrace(w, log, ForwardPlan(f, t, amount), failAt);
    ForwardCallOrder(f, t, amount);
  }

  /** The try block when a call of the debit throws. */
  lemma AttemptFailsInDebit(w: World, log: TransferLogRecord, f: string, t: string, amount: int, failAt: nat)
    requires ViewOf(w, f).balance >= amount
    requires failAt == |w.made| || failAt == |w.made| + 1
    ensures var a := Attempt(w, log, f, t, amount, failAt);
      && a.thrown == Some(StoreFailure)
      && a.log == log.(status := DebitFromAccount)
      && a.w.accounts == if failAt == |w.made| then w.accounts else w.accounts[f := Shifted(ViewOf(w, f), -amount)]
  {
    AttemptInStages(w, log, f, t, amount, failAt);
    var debit := Run(w, log, DebitOrCreditPlan(f, -amount, DebitFromAccount), failAt);
    DebitOrCreditStops(w, log, f, -amount, DebitFromAccount, failAt, debit);
  }

  /** The try block when a call of the credit throws: the debit stays in memory. */
  lemma AttemptFailsInCredit(w: World, log: TransferLogRecord, f: string, t: string, amount: int, failAt: nat)
    requires ViewOf(w, f).balance >= amount
    requires failAt == |w.made| + 2 || failAt == |w.made| + 3
    ensures var a := Attempt(w, log, f, t, amount, failAt);
      var debited := w.accounts[f := Shifted(ViewOf(w, f), -amount)];
      && a.thrown == Some(StoreFailure)
      && a.log == log.(status := CreditToAccount)
      && a.w.accounts == if failAt == |w.made| + 2 then debited else Moved(w.accounts, f, t, amount)
  {
    AttemptInStages(w, log, f, t, amount, failAt);
    var debit := Run(w, log, DebitOrCreditPlan(f, -amount, DebitFromAccount), failAt);
    DebitOrCreditGoesThrough(w, log, f, -amount, DebitFromAccount, failAt, debit);
    var credit := Run(debit.w, debit.log, DebitOrCreditPlan(t, amount, CreditToAccount), failAt);
    DebitOrCreditStops(debit.w, debit.log, t, amount, CreditToAccount, failAt, credit);
  }

  /** The try block when a call of the completion throws: the money has moved. */
  lemma AttemptFailsInCompletion(w: World, log: TransferLogRecord, f: string, t: string, amount: int, failAt: nat)
    requires ViewOf(w, f).balance >= amount
    requires |w.made| + 4 <= failAt < |w.made| + 7
    ensures var a := Attempt(w, log, f, t, amount, failAt);
      && a.thrown == Some(StoreFailure)
      && a.log == log.(status := Completed)
      && a.w.accounts == Moved(w.accounts, f, t, amount)
  {
    AttemptInStages(w, log, f, t, amount, failAt);
    var debit := Run(w, log, DebitOrCreditPlan(f, -amount, DebitFromAccount), failAt);
    DebitOrCreditGoesThrough(w, log, f, -amount, DebitFromAccount, failAt, debit);
    var credit := Run(debit.w, debit.log, DebitOrCreditPlan(t, amount, CreditToAccount), failAt);
    DebitOrCreditGoesThrough(debit.w, debit.log, t, amount, CreditToAccount, failAt, credit);
    var done := Run(credit.w, credit.log, CompletionPlan(f, t, amount), failAt);
    CompletionStops(credit.w, credit.log, f, t, amount, failAt, done);
  }

  // ---------------------------------------------------------------------------------------
  // The catch block

  /** What rollback does, by the last status set on the log: nothing to the accounts after
      START (or COMPLETED); after DEBIT, refund from; after CREDIT, refund from and take the
      amount back from to, as it reads after the refund (the same account when from and to are
      one). Each compensation happens only when the account's stamp is not older than the
      log's, and is stamped now. Then the log is marked FAILED and saved; that save is the only
      call whose exception comes out. */
  lemma RollbackByStatus(w: World, log: TransferLogRecord, f: string, t: string, amount: int,
                         now: Timestamp, failAt: nat)
    ensures var r := Rollback(w, log, f, t, amount, now, failAt);
      var refunded := if ViewOf(w, f).updateAt >= log.updatedAt
                      then w.accounts[f := AccountView(ViewOf(w, f).balance + amount, now)] else w.accounts;
      var seen := ViewOf(w.(accounts := refunded), t);
      && r.log == log.(status := Failed)
      && r.w.held == w.held && r.w.sent == w.sent
      && r.w.saved == w.saved + (if r.thrown.Some? then [] else [r.log])
      && (r.thrown.Some? <==> failAt == |r.w.made| - 1)
      && (r.thrown.Some? ==> r.thrown == Some(StoreFailure))
      && r.w.accounts == match log.status
           case DebitFromAccount => refunded
           case CreditToAccount =>
             if seen.updateAt >= log.updatedAt then refunded[t := AccountView(seen.balance - amount, now)] else refunded
           case _ => w.accounts
  {
  }

  /** Rolling back a failed self-transfer after its credit: the refund and the charge-back hit
      the same account and cancel out, when its stamp is not older than the log's and the
      rollback time is not earlier than the log's; the account is left with its balance,
      stamped with the rollback time. */
  lemma RollbackSelfTransfer(w: World, log: TransferLogRecord, f: string, amount: int,
                             now: Timestamp, failAt: nat)
    requires log.status == CreditToAccount
    requires ViewOf(w, f).updateAt >= log.updatedAt && now >= log.updatedAt
    ensures var r := Rollback(w, log, f, f, amount, now, failAt);
      r.w.accounts == w.accounts[f := AccountView(ViewOf(w, f).balance, now)]
  {
    RollbackByStatus(w, log, f, f, amount, now, failAt);
  }

  // ---------------------------------------------------------------------------------------
  // The whole transfer

  /** The lock on two plain, free ids is taken and given back unchanged. */
  lemma LockRoundTrip(held: set<string>, f: string, t: string)
    requires PlainId(f) && PlainId(t) && f !in held && t !in held
    ensures var (during, locked) := AcquireResult(held, [f, t], RetryTimesToTakeLock);
      && locked.Some? && during == held + {f, t}
      && ReleaseResult(during, locked.value) == (held, None)
  {
    assert ToSet([f, t]) == {f, t};
    ReleaseAfterAcquire(held, [f, t], RetryTimesToTakeLock);
  }

  /** Once the lock on two plain, free ids is taken, a transfer is its try and catch blocks
      with the lock table put back afterwards. */
  lemma TransferOnceLocked(w: World, f: string, t: string, amount: int, freshId: string,
                           logTime: Timestamp, rollbackTime: Timestamp, failAt: nat)
    requires PlainId(f) && PlainId(t) && f !in w.held && t !in w.held
    ensures var c := TryOrRollback(w.(held := w.held + {f, t}), Created(f, t, amount, freshId, logTime),
                                   f, t, amount, rollbackTime, failAt);
      Transfer(w, f, t, amount, freshId, logTime, rollbackTime, failAt) == Outcome(c.w.(held := w.held), Some(c.log), c.thrown)
  {
    LockRoundTrip(w.held, f, t);
  }

  /** When either account is locked by someone else the transfer throws the lock exception
      and changes nothing: no log is created, no call is made. */
  lemma TransferLockBusy(w: World, f: string, t: string, amount: int, freshId: string,
                         logTime: Timestamp, rollbackTime: Timestamp, failAt: nat)
    requires f in w.held || t in w.held
    ensures Transfer(w, f, t, amount, freshId, logTime, rollbackTime, failAt)
      == Outcome(w, None, Some(CannotAcquireLock([f, t])))
  {
    AcquireAllOrNothing(w.held, [f, t], RetryTimesToTakeLock);
  }

  /** Once the lock on two plain ids is taken, the lock table ends as it was whatever fails,
      the transfer log ends COMPLETED exactly when no exception reaches the caller and FAILED
      otherwise, with its other fields as created; and no exception reaches the caller exactly
      when there was the money and none of the seven calls of the try block failed. */
  lemma TransferOutcome(w: World, f: string, t: string, amount: int, freshId: string,
                        logTime: Timestamp, rollbackTime: Timestamp, failAt: nat)
    requires PlainId(f) && PlainId(t) && f !in w.held && t !in w.held
    ensures var r := Transfer(w, f, t, amount, freshId, logTime, rollbackTime, failAt);
      && r.w.held == w.held
      && r.log.Some?
      && r.log.value == Created(f, t, amount, freshId, logTime).(status := r.log.value.status)
      && (r.log.value.status == Completed || r.log.value.status == Failed)
      && (r.thrown.None? <==> r.log.value.status == Completed)
      && (r.thrown.None? <==> ViewOf(w, f).balance >= amount && NoFaultWithin(w, failAt, 7))
  {
    TransferOnceLocked(w, f, t, amount, freshId, logTime, rollbackTime, failAt);
    AttemptOutcome(w.(held := w.held + {f, t}), Created(f, t, amount, freshId, logTime), f, t, amount, failAt);
  }

  /** A transfer that meets no failure and has the money moves it: from pays amount to to,
      the log goes DEBIT, CREDIT, COMPLETED, both holders are notified, seven calls are made
      and the lock table is as before. */
  lemma TransferMovesAmount(w: World, f: string, t: string, amount: int, freshId: string,
                            logTime: Timestamp, rollbackTime: Timestamp, failAt: nat)
    requires PlainId(f) && PlainId(t) && f !in w.held && t !in w.held
    requires ViewOf(w, f).balance >= amount
    requires NoFaultWithin(w, failAt, 7)
    ensures var r := Transfer(w, f, t, amount, freshId, logTime, rollbackTime, failAt);
      var log := Created(f, t, amount, freshId, logTime);
      && r.thrown.None?
      && r.w.held == w.held
      && r.w.accounts == Moved(w.accounts, f, t, amount)
      && r.log == Some(log.(status := Completed))
      && r.w.saved == w.saved + [log.(status := DebitFromAccount)] + [log.(status := CreditToAccount)]
                      + [log.(status := Completed)]
      && r.w.sent == w.sent + [Notice(f, DebitedBy(amount))] + [Notice(t, CreditedBy(amount))]
      && |r.w.made| == |w.made| + 7
  {
    TransferOnceLocked(w, f, t, amount, freshId, logTime, rollbackTime, failAt);
    AttemptCompletes(w.(held := w.held + {f, t}), Created(f, t, amount, freshId, logTime), f, t, amount, failAt);
  }

  /** A transfer from an account to itself that goes through leaves the account as it was,
      and its holder gets both notices. */
  lemma SelfTransferKeepsBalance(w: World, f: string, amount: int, freshId: string,
                                 logTime: Timestamp, rollbackTime: Timestamp, failAt: nat)
    requires f in w.accounts && PlainId(f) && f !in w.held
    requires w.accounts[f].balance >= amount
    requires NoFaultWithin(w, failAt, 7)
    ensures var r := Transfer(w, f, f, amount, freshId, logTime, rollbackTime, failAt);
      && r.thrown.None?
      && r.w.accounts == w.accounts
      && r.w.sent == w.sent + [Notice(f, DebitedBy(amount)), Notice(f, CreditedBy(amount))]
  {
    TransferMovesAmount(w, f, f, amount, freshId, logTime, rollbackTime, failAt);
    MovedOnSelf(w.accounts, f, amount);
  }

  /** A successful transfer between two accounts conserves money: from loses exactly amount,
      to gains it, the sum stays; from is not overdrawn by it, nor is to when amount is not
      negative. Nothing checks the sign of amount, so a negative one pulls money into from. */
  lemma SuccessfulTransferConserves(w: World, f: string, t: string, amount: int, freshId: string,
                                    logTime: Timestamp, rollbackTime: Timestamp, failAt: nat)
    requires f in w.accounts && t in w.accounts && f != t
    requires PlainId(f) && PlainId(t)
    requires Transfer(w, f, t, amount, freshId, logTime, rollbackTime, failAt).thrown.None?
    ensures var r := Transfer(w, f, t, amount, freshId, logTime, rollbackTime, failAt);
      && ViewOf(r.w, f).balance == w.accounts[f].balance - amount
      && ViewOf(r.w, t).balance == w.accounts[t].balance + amount
      && ViewOf(r.w, f).balance + ViewOf(r.w, t).balance == w.accounts[f].balance + w.accounts[t].balance
      && ViewOf(r.w, f).balance >= 0
      && (amount >= 0 && w.accounts[t].balance >= 0 ==> ViewOf(r.w, t).balance >= 0)
      && (amount < 0 ==> ViewOf(r.w, f).balance > w.accounts[f].balance)
  {
    if f in w.held || t in w.held {
      TransferLockBusy(w, f, t, amount, freshId, logTime, rollbackTime, failAt);
    } else {
      TransferOutcome(w, f, t, amount, freshId, logTime, rollbackTime, failAt);
      TransferMovesAmount(w, f, t, amount, freshId, logTime, rollbackTime, failAt);
      MovedBetweenTwo(w.accounts, f, t, amount);
    }
  }

  /** Not enough money: the holder of from is told, the service exception reaches the caller,
      no balance changes, and the log is saved once, as FAILED. */
  lemma TransferNotEnoughMoney(w: World, f: string, t: string, amount: int, freshId: string,
                               logTime: Timestamp, rollbackTime: Timestamp, failAt: nat)
    requires PlainId(f) && PlainId(t) && f !in w.held && t !in w.held
    requires ViewOf(w, f).balance < amount
    requires NoFaultWithin(w, failAt, 2)
    ensures var r := Transfer(w, f, t, amount, freshId, logTime, rollbackTime, failAt);
      && r.thrown == Some(NotEnoughMoney(f))
      && r.w.held == w.held
      && r.w.accounts == w.accounts
      && r.log == Some(Created(f, t, amount, freshId, logTime).(status := Failed))
      && r.w.saved == w.saved + [Created(f, t, amount, freshId, logTime).(status := Failed)]
      && r.w.sent == w.sent + [Notice(f, NotEnoughMoneyForTransfer)]
  {
    TransferOnceLocked(w, f, t, amount, freshId, logTime, rollbackTime, failAt);
    var locked := w.(held := w.held + {f, t});
    var log := Created(f, t, amount, freshId, logTime);
    var a := Attempt(locked, log, f, t, amount, failAt);
    RollbackByStatus(a.w, a.log, f, t, amount, rollbackTime, failAt);
  }

  /** A failing account save is compensated when both accounts carry stamps not older than
      the log's: the balances are restored (and stamped with the rollback time), the log ends
      FAILED and the store's exception reaches the caller. */
  lemma CompensationRestoresBalances(w: World, f: string, t: string, amount: int, freshId: string,
                                     logTime: Timestamp, rollbackTime: Timestamp, failAt: nat)
    requires f in w.accounts && t in w.accounts && f != t
    requires PlainId(f) && PlainId(t) && f !in w.held && t !in w.held
    requires w.accounts[f].balance >= amount
    requires w.accounts[f].updateAt >= logTime && w.accounts[t].updateAt >= logTime
    requires failAt == |w.made| + 1 || failAt == |w.made| + 3
    ensures var r := Transfer(w, f, t, amount, freshId, logTime, rollbackTime, failAt);
      && r.thrown == Some(StoreFailure)
      && ViewOf(r.w, f).balance == w.accounts[f].balance
      && ViewOf(r.w, t).balance == w.accounts[t].balance
      && r.log == Some(Created(f, t, amount, freshId, logTime).(status := Failed))
  {
    TransferOnceLocked(w, f, t, amount, freshId, logTime, rollbackTime, failAt);
    var locked := w.(held := w.held + {f, t});
    var log := Created(f, t, amount, freshId, logTime);
    if failAt == |w.made| + 1 {
      AttemptFailsInDebit(locked, log, f, t, amount, failAt);
    } else {
      AttemptFailsInCredit(locked, log, f, t, amount, failAt);
    }
    var a := Attempt(locked, log, f, t, amount, failAt);
    RollbackByStatus(a.w, a.log, f, t, amount, rollbackTime, failAt);
  }

  /** The transfer code writes balances without stamping the accounts, so an account whose
      stamp predates the log is never compensated: a failing save after the debit leaves from
      debited while the caller sees the exception. */
  lemma StaleStampSkipsCompensation(w: World, f: string, t: string, amount: int, freshId: string,
                                    logTime: Timestamp, rollbackTime: Timestamp, failAt: nat)
    requires f in w.accounts && t in w.accounts && f != t
    requires PlainId(f) && PlainId(t) && f !in w.held && t !in w.held
    requires w.accounts[f].balance >= amount
    requires w.accounts[f].updateAt < logTime
    requires failAt == |w.made| + 1
    ensures var r := Transfer(w, f, t, amount, freshId, logTime, rollbackTime, failAt);
      && r.thrown == Some(StoreFailure)
      && ViewOf(r.w, f) == AccountView(w.accounts[f].balance - amount, w.accounts[f].updateAt)
      && ViewOf(r.w, t) == w.accounts[t]
  {
    TransferOnceLocked(w, f, t, amount, freshId, logTime, rollbackTime, failAt);
    var locked := w.(held := w.held + {f, t});
    var log := Created(f, t, amount, freshId, logTime);
    AttemptFailsInDebit(locked, log, f, t, amount, failAt);
    var a := Attempt(locked, log, f, t, amount, failAt);
    RollbackByStatus(a.w, a.log, f, t, amount, rollbackTime, failAt);
  }

  /** The status is set before the log save that may throw, so when that save of DEBIT throws,
      rollback refunds a debit that never happened: from ends with amount more than it had. */
  lemma LostDebitLogRefundsAnyway(w: World, f: string, t: string, amount: int, freshId: string,
                                  logTime: Timestamp, rollbackTime: Timestamp, failAt: nat)
    requires f in w.accounts && t in w.accounts && f != t
    requires PlainId(f) && PlainId(t) && f !in w.held && t !in w.held
    requires w.accounts[f].balance >= amount
    requires w.accounts[f].updateAt >= logTime
    requires failAt == |w.made|
    ensures var r := Transfer(w, f, t, amount, freshId, logTime, rollbackTime, failAt);
      && r.thrown == Some(StoreFailure)
      && ViewOf(r.w, f) == AccountView(w.accounts[f].balance + amount, rollbackTime)
      && ViewOf(r.w, t) == w.accounts[t]
  {
    TransferOnceLocked(w, f, t, amount, freshId, logTime, rollbackTime, failAt);
    var locked := w.(held := w.held + {f, t});
    var log := Created(f, t, amount, freshId, logTime);
    AttemptFailsInDebit(locked, log, f, t, amount, failAt);
    var a := Attempt(locked, log, f, t, amount, failAt);
    RollbackByStatus(a.w, a.log, f, t, amount, rollbackTime, failAt);
  }

  /** Likewise when the save of CREDIT throws: from is refunded, and to, never credited, is
      charged the amount. */
  lemma LostCreditLogChargesBackAnyway(w: World, f: string, t: string, amount: int, freshId: string,
                                       logTime: Timestamp, rollbackTime: Timestamp, failAt: nat)
    requires f in w.accounts && t in w.accounts && f != t
    requires PlainId(f) && PlainId(t) && f !in w.held && t !in w.held
    requires w.accounts[f].balance >= amount
    requires w.accounts[f].updateAt >= logTime && w.accounts[t].updateAt >= logTime
    requires failAt == |w.made| + 2
    ensures var r := Transfer(w, f, t, amount, freshId, logTime, rollbackTime, failAt);
      && r.thrown == Some(StoreFailure)
      && ViewOf(r.w, f) == AccountView(w.accounts[f].balance, rollbackTime)
      && ViewOf(r.w, t) == AccountView(w.accounts[t].balance - amount, rollbackTime)
  {
    TransferOnceLocked(w, f, t, amount, freshId, logTime, rollbackTime, failAt);
    var locked := w.(held := w.held + {f, t});
    var log := Created(f, t, amount, freshId, logTime);
    AttemptFailsInCredit(locked, log, f, t, amount, failAt);
    var a := Attempt(locked, log, f, t, amount, failAt);
    RollbackByStatus(a.w, a.log, f, t, amount, rollbackTime, failAt);
  }

  /** A failure after both balance writes (saving COMPLETED or a notice) is not compensated,
      since the status is COMPLETED by then: the money stays moved, yet the log ends FAILED and
      the caller sees the exception. */
  lemma LateFailureKeepsMovedAmount(w: World, f: string, t: string, amount: int, freshId: string,
                                    logTime: Timestamp, rollbackTime: Timestamp, failAt: nat)
    requires PlainId(f) && PlainId(t) && f !in w.held && t !in w.held
    requires ViewOf(w, f).balance >= amount
    requires |w.made| + 4 <= failAt < |w.made| + 7
    ensures var r := Transfer(w, f, t, amount, freshId, logTime, rollbackTime, failAt);
      && r.thrown == Some(StoreFailure)
      && r.w.accounts == Moved(w.accounts, f, t, amount)
      && r.log == Some(Created(f, t, amount, freshId, logTime).(status := Failed))
  {
    TransferOnceLocked(w, f, t, amount, freshId, logTime, rollbackTime, failAt);
    var locked := w.(held := w.held + {f, t});
    var log := Created(f, t, amount, freshId, logTime);
    AttemptFailsInCompletion(locked, log, f, t, amount, failAt);
  }
}
