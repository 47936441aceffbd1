/**
 * TransferRepositoryLogInMemory: the history of transfer logs, a map from "from:to" to the
 * list of logs appended for that ordered pair, searchable by an inclusive update-time range.
 * The coordinator also calls a save(log) that the repository interface does not declare; it is
 * modelled here as recording a snapshot of the log in the list saved, through ExternalCalls.
 */
module TransferLogRepository {
  import opened JavaStrings
  import opened Domain
  import opened Collaborators

  /** createKey: from + ":" + to. */
  function CreateKey(fromAccountId: string, toAccountId: string): string {
    fromAccountId + [Sep] + toAccountId
  }

  /** matchByDate: fromDate <= updatedAt <= toDate, both ends included. */
  predicate MatchByDate(updatedAt: Timestamp, fromDate: Timestamp, toDate: Timestamp) {
    fromDate <= updatedAt <= toDate
  }

  /** The stream filter of findFor: the logs in the range, in stored order. */
  function Matching(logs: seq<TransferLog>, fromDate: Timestamp, toDate: Timestamp): (r: seq<TransferLog>)
    reads logs
    ensures |r| <= |logs|
    ensures forall k :: 0 <= k < |r| ==> r[k] in logs && MatchByDate(r[k].updatedAt, fromDate, toDate)
    ensures forall k :: 0 <= k < |logs| && MatchByDate(logs[k].updatedAt, fromDate, toDate) ==> logs[k] in r
  {
    if |logs| == 0 then []
    else
      var rest := Matching(logs[..|logs| - 1], fromDate, toDate);
      var last := logs[|logs| - 1];
      assert logs == logs[..|logs| - 1] + [last];
      if MatchByDate(last.updatedAt, fromDate, toDate) then rest + [last] else rest
  }

  // ---------------------------------------------------------------------------------------
  // Properties of the history

  /** Filtering keeps the stored order: the matches of a concatenation are the matches of
      each part, in turn. */
  lemma {:induction false} MatchingOfConcat(s: seq<TransferLog>, t: seq<TransferLog>, fromDate: Timestamp, toDate: Timestamp)
    ensures Matching(s + t, fromDate, toDate) == Matching(s, fromDate, toDate) + Matching(t, fromDate, toDate)
  {
    if |t| == 0 {
      assert s + t == s;
    } else {
      var init := t[..|t| - 1];
      assert (s + t)[..|s + t| - 1] == s + init;
      assert (s + t)[|s + t| - 1] == t[|t| - 1];
      MatchingOfConcat(s, init, fromDate, toDate);
    }
  }

  /** An empty or inverted range, or one lying after every log, finds nothing. */
  lemma {:induction false} FindNothingOutsideRange(logs: seq<TransferLog>, fromDate: Timestamp, toDate: Timestamp)
    requires toDate < fromDate || forall k :: 0 <= k < |logs| ==> logs[k].updatedAt < fromDate
    ensures Matching(logs, fromDate, toDate) == []
  {
    if |logs| > 0 {
      FindNothingOutsideRange(logs[..|logs| - 1], fromDate, toDate);
    }
  }

  /** Every log of the list whose time is in range is found, and only those. */
  lemma {:induction false} FindEverythingInRange(logs: seq<TransferLog>, fromDate: Timestamp, toDate: Timestamp)
    requires forall k :: 0 <= k < |logs| ==> MatchByDate(logs[k].updatedAt, fromDate, toDate)
    ensures Matching(logs, fromDate, toDate) == logs
  {
    if |logs| > 0 {
      var init := logs[..|logs| - 1];
      FindEverythingInRange(init, fromDate, toDate);
      assert logs == init + [logs[|logs| - 1]];
    }
  }

  /** Keys of pairs whose from-ids contain no ':' are distinct for distinct pairs. */
  lemma KeyInjective(from1: string, to1: string, from2: string, to2: string)
    requires Sep !in from1 && Sep !in from2
    requires CreateKey(from1, to1) == CreateKey(from2, to2)
    ensures from1 == from2 && to1 == to2
  {
    SeparatedInjective(from1, to1, from2, to2);
  }

  class TransferRepositoryLogInMemory {
    var accountToTransfers: map<string, seq<TransferLog>>
    var saved: seq<TransferLogRecord>
    const calls: ExternalCalls

    constructor (calls: ExternalCalls)
      ensures accountToTransfers == map[] && saved == [] && this.calls == calls
    {
      accountToTransfers := map[];
      saved := [];
      this.calls := calls;
    }

    function Logs(key: string): seq<TransferLog>
      reads this
    {
      if key in accountToTransfers then accountToTransfers[key] else []
    }

    /** create: a new START log, not stored anywhere. */
    method Create(fromAccountId: string, toAccountId: string, amount: int, freshId: string, now: Timestamp)
      returns (log: TransferLog)
      ensures fresh(log)
      ensures log.Record() == TransferLogRecord(freshId, fromAccountId, toAccountId, amount, Start, now)
    {
      log := new TransferLog(fromAccountId, toAccountId, amount, freshId, now);
    }

    /** append: the log goes at the end of its pair's list; no other list changes. */
    method Append(transferLog: TransferLog)
      modifies this`accountToTransfers
      ensures var key := CreateKey(transferLog.fromAccountId, transferLog.toAccountId);
        accountToTransfers == old(accountToTransfers)[key := old(Logs(key)) + [transferLog]]
    {
      var key := CreateKey(transferLog.fromAccountId, transferLog.toAccountId);
      var existingLogs := Logs(key);
      existingLogs := existingLogs + [transferLog];
      accountToTransfers := accountToTransfers[key := existingLogs];
    }

    /** findFor(from, to, fromDate, toDate): the logs of the pair whose time is in the range,
        every one of them, in stored order. */
    function FindFor(fromAccountId: string, toAccountId: string, fromDate: Timestamp, toDate: Timestamp)
      : (r: seq<TransferLog>)
      reads this, Logs(CreateKey(fromAccountId, toAccountId))
      ensures var logs := Logs(CreateKey(fromAccountId, toAccountId));
        && (forall k :: 0 <= k < |r| ==> r[k] in logs && MatchByDate(r[k].updatedAt, fromDate, toDate))
        && (forall k :: 0 <= k < |logs| && MatchByDate(logs[k].updatedAt, fromDate, toDate) ==> logs[k] in r)
    {
      Matching(Logs(CreateKey(fromAccountId, toAccountId)), fromDate, toDate)
    }

    /** findFor(from, to): the range from LocalDateTime.MIN to the clock reading now, so every
        log of the pair not later than now. */
    function FindForUntil(fromAccountId: string, toAccountId: string, now: Timestamp): (r: seq<TransferLog>)
      reads this, Logs(CreateKey(fromAccountId, toAccountId))
      ensures var logs := Logs(CreateKey(fromAccountId, toAccountId));
        && (forall k :: 0 <= k < |r| ==> r[k] in logs && r[k].updatedAt <= now)
        && (forall k :: 0 <= k < |logs| && logs[k].updatedAt <= now ==> logs[k] in r)
    {
      FindFor(fromAccountId, toAccountId, MinTime, now)
    }

    /** save: records the log's current state, unless the call throws. */
    method Save(transferLog: TransferLog) returns (ok: bool)
      modifies this`saved, calls
      ensures calls.made == old(calls.made) + [LogSaved(transferLog.Record())]
      ensures ok <==> |old(calls.made)| != calls.failAt
      ensures saved == old(saved) + if ok then [transferLog.Record()] else []
    {
      ok := calls.Make(LogSaved(transferLog.Record()));
      if ok {
        saved := saved + [transferLog.Record()];
      }
    }
  }
}
