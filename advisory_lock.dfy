/**
 * The advisory lock table (AdvisoryLockService and AdvisoryLockServiceImp): a set of held
 * account ids; acquisition of several ids is all-or-nothing, in lexicographic order, with a
 * bounded retry loop; the token names the sorted ids joined by ':'.
 */
module AdvisoryLock {
  import opened Wrappers
  import opened JavaStrings
  import opened Domain

  /** START_LOCK_PAUSE_IN_MILLIS */
  const StartLockPauseInMillis: int := 100

  /** AdvisoryLockService.Token: a value with one final string, compared by that string. */
  datatype Token = Token(token: string)

  // ---------------------------------------------------------------------------------------
  // Sorting by String.compareTo

  predicate Sorted(s: seq<string>) {
    forall k :: 0 < k < |s| ==> LexLe(s[k - 1], s[k])
  }

  function Insert(x: string, s: seq<string>): seq<string> {
    if |s| == 0 then [x]
    else if LexLe(x, s[0]) then [x] + s
    else [s[0]] + Insert(x, s[1..])
  }

  /** The ids in natural order: the list sort of acquire, as a function. */
  function SortedIds(s: seq<string>): seq<string> {
    if |s| == 0 then [] else Insert(s[0], SortedIds(s[1..]))
  }

  lemma {:induction false} InsertSortedPermutation(x: string, s: seq<string>)
    requires Sorted(s)
    ensures Sorted(Insert(x, s))
    ensures multiset(Insert(x, s)) == multiset(s) + multiset{x}
    ensures |Insert(x, s)| == |s| + 1
    ensures Insert(x, s)[0] == x || Insert(x, s)[0] == s[0]
  {
    if |s| == 0 {
    } else if LexLe(x, s[0]) {
      SortedCons(x, s);
    } else {
      var rest := Insert(x, s[1..]);
      LexLeTotal(x, s[0]);
      InsertSortedPermutation(x, s[1..]);
      assert LexLe(s[0], rest[0]) by {
        if rest[0] != x {
          assert rest[0] == s[1];
        }
      }
      SortedCons(s[0], rest);
      assert s == [s[0]] + s[1..];
    }
  }

  lemma SortedCons(y: string, r: seq<string>)
    requires Sorted(r) && |r| > 0 && LexLe(y, r[0])
    ensures Sorted([y] + r)
  {
    var t := [y] + r;
    forall k | 0 < k < |t|
      ensures LexLe(t[k - 1], t[k])
    {
      if k > 1 {
        assert t[k - 1] == r[k - 2] && t[k] == r[k - 1];
      }
    }
  }

  lemma {:induction false} SortedIdsSortedPermutation(s: seq<string>)
    ensures Sorted(SortedIds(s))
    ensures multiset(SortedIds(s)) == multiset(s)
  {
    if |s| > 0 {
      SortedIdsSortedPermutation(s[1..]);
      InsertSortedPermutation(s[0], SortedIds(s[1..]));
      assert s == [s[0]] + s[1..];
    }
  }

  lemma {:induction false} SortedFirstIsLeast(s: seq<string>, k: nat)
    requires Sorted(s) && k < |s|
    ensures LexLe(s[0], s[k])
  {
    if k == 0 {
      LexLeTotal(s[0], s[0]);
    } else {
      SortedFirstIsLeast(s, k - 1);
      LexLeTransitive(s[0], s[k - 1], s[k]);
    }
  }

  /** Two sorted arrangements of the same non-empty multiset start with the same id. */
  lemma SortedSameHead(s: seq<string>, t: seq<string>)
    requires Sorted(s) && Sorted(t) && |s| > 0
    requires multiset(s) == multiset(t)
    ensures |t| > 0 && s[0] == t[0]
  {
    assert s[0] in multiset(t);
    assert |t| > 0;
    assert t[0] in multiset(s);
    var i :| 0 <= i < |s| && s[i] == t[0];
    var j :| 0 <= j < |t| && t[j] == s[0];
    SortedFirstIsLeast(s, i);
    SortedFirstIsLeast(t, j);
    LexLeAntisymmetric(s[0], t[0]);
  }

  lemma TailMultiset(s: seq<string>)
    requires |s| > 0
    ensures multiset(s[1..]) == multiset(s) - multiset{s[0]}
  {
    assert s == [s[0]] + s[1..];
  }

  /** A sorted arrangement of a multiset of ids is unique. */
  lemma {:induction false} SortedUnique(s: seq<string>, t: seq<string>)
    requires Sorted(s) && Sorted(t)
    requires multiset(s) == multiset(t)
    ensures s == t
    decreases |s|
  {
    if |s| == 0 {
      assert |t| == |multiset(t)| == 0;
    } else {
      SortedSameHead(s, t);
      TailMultiset(s);
      TailMultiset(t);
      SortedUnique(s[1..], t[1..]);
      assert s == [s[0]] + s[1..] && t == [t[0]] + t[1..];
    }
  }

  /** Any arrangement of the same ids sorts to the same list. */
  lemma SortedIdsPermutationInvariant(s: seq<string>, t: seq<string>)
    requires multiset(s) == multiset(t)
    ensures SortedIds(s) == SortedIds(t)
  {
    SortedIdsSortedPermutation(s);
    SortedIdsSortedPermutation(t);
    SortedUnique(SortedIds(s), SortedIds(t));
  }

  /** List.sort(Comparator.naturalOrder()) on the array behind the list: an insertion sort. */
  method SortInPlace(a: array<string>)
    modifies a
    ensures Sorted(a[..])
    ensures multiset(a[..]) == multiset(old(a[..]))
  {
    var i := 0;
    while i < a.Length
      invariant 0 <= i <= a.Length
      invariant forall k :: 0 < k < i ==> LexLe(a[k - 1], a[k])
      invariant multiset(a[..]) == multiset(old(a[..]))
    {
      SinkInto(a, i);
      i := i + 1;
    }
  }

  /** Moves a[i] down into the sorted prefix a[..i], leaving a[..i + 1] sorted. */
  method SinkInto(a: array<string>, i: nat)
    requires i < a.Length
    requires forall k :: 0 < k < i ==> LexLe(a[k - 1], a[k])
    modifies a
    ensures forall k :: 0 < k <= i ==> LexLe(a[k - 1], a[k])
    ensures multiset(a[..]) == multiset(old(a[..]))
  {
    var j := i;
    while j > 0 && !LexLe(a[j - 1], a[j])
      invariant 0 <= j <= i
      invariant forall k :: 0 < k <= i && k != j ==> LexLe(a[k - 1], a[k])
      invariant 0 < j < i ==> LexLe(a[j - 1], a[j + 1])
      invariant multiset(a[..]) == multiset(old(a[..]))
    {
      LexLeTotal(a[j - 1], a[j]);
      Swap(a, j - 1, j);
      j := j - 1;
    }
  }

  method Swap(a: array<string>, i: nat, j: nat)
    requires i < j < a.Length
    modifies a
    ensures a[i] == old(a[j]) && a[j] == old(a[i])
    ensures forall k :: 0 <= k < a.Length && k != i && k != j ==> a[k] == old(a[k])
    ensures multiset(a[..]) == multiset(old(a[..]))
  {
    a[i], a[j] := a[j], a[i];
  }

  /** The copy-then-sort of acquire. */
  method SortIds(ids: seq<string>) returns (sorted: seq<string>)
    ensures sorted == SortedIds(ids)
  {
    var a := new string[|ids|](k requires 0 <= k < |ids| => ids[k]);
    assert a[..] == ids;
    SortInPlace(a);
    sorted := a[..];
    SortedIdsSortedPermutation(ids);
    SortedUnique(sorted, SortedIds(ids));
  }

  // ---------------------------------------------------------------------------------------
  // The lock table as functions of the held set

  function ToSet(ids: seq<string>): set<string> {
    set id | id in ids
  }

  predicate AllFree(held: set<string>, ids: seq<string>) {
    forall id :: id in ids ==> id !in held
  }

  /** acquire(ids, retryTimes) with no other caller: the new held set and the answer. */
  function AcquireResult(held: set<string>, ids: seq<string>, retryTimes: int): (set<string>, Option<Token>)
    requires retryTimes >= 0
  {
    if |ids| == 0 || retryTimes == 0 || !AllFree(held, ids) then (held, None)
    else (held + ToSet(ids), Some(Token(Join(SortedIds(ids)))))
  }

  // ---------------------------------------------------------------------------------------
  // The pause as the source keeps it: a Java long

  const LongModulus: int := 0x1_0000_0000_0000_0000
  const LongMin: int := -0x8000_0000_0000_0000

  predicate IsLong(x: int) {
    LongMin <= x < LongMin + LongModulus
  }

  /** p * 2 on a Java long: the exact double when it fits, otherwise the double wrapped by 2^64
      back into the range of a long. */
  function DoubleLong(p: int): (r: int)
    requires IsLong(p)
    ensures IsLong(r)
    ensures r == 2 * p || r == 2 * p - LongModulus || r == 2 * p + LongModulus
    ensures IsLong(2 * p) ==> r == 2 * p
  {
    if 2 * p < LongMin then 2 * p + LongModulus
    else if 2 * p >= LongMin + LongModulus then 2 * p - LongModulus
    else 2 * p
  }

  /** The pause given to the k-th sleep (counting from 0) of tryAcquireLockFewTimes: the start
      pause doubled k times, each doubling a long multiplication. */
  function SleepPause(k: nat): (r: int)
    ensures IsLong(r)
  {
    if k == 0 then StartLockPauseInMillis else DoubleLong(SleepPause(k - 1))
  }

  /** The index of the first sleep whose pause has wrapped below zero. */
  const FirstNegativeSleep: nat := 57

  lemma {:induction false} Pow2Add(a: nat, b: nat)
    ensures Pow2(a + b) == Pow2(a) * Pow2(b)
  {
    if a > 0 {
      Pow2Add(a - 1, b);
    }
  }

  lemma Pow2Of56()
    ensures Pow2(56) == 0x100_0000_0000_0000
  {
    assert Pow2(7) == 0x80;
    Pow2Add(7, 7);
    assert Pow2(14) == 0x4000;
    Pow2Add(14, 14);
    assert Pow2(28) == 0x1000_0000;
    Pow2Add(28, 28);
  }

  lemma HalfBound(a: int, b: int, c: int)
    requires a >= 1 && b >= 2 && a * b == c
    ensures 2 * a <= c
  {
    assert a * b == a * (b - 2) + 2 * a;
  }

  lemma {:induction false} Pow2Positive(k: nat)
    ensures Pow2(k) >= 1
  {
    if k > 0 {
      Pow2Positive(k - 1);
    }
  }

  /** Up to the 57th sleep the pause is the exact doubling 100 * 2^k. */
  lemma {:induction false} SleepPauseDoubles(k: nat)
    requires k <= 56
    ensures SleepPause(k) == StartLockPauseInMillis * Pow2(k)
  {
    if k > 0 {
      SleepPauseDoubles(k - 1);
      var p := Pow2(k - 1);
      Pow2Add(k - 1, 57 - k);
      Pow2Positive(k - 1);
      Pow2Positive(56 - k);
      Pow2Of56();
      HalfBound(p, Pow2(57 - k), Pow2(56));
      assert SleepPause(k - 1) * 2 == StartLockPauseInMillis * (2 * p) <= StartLockPauseInMillis * 0x100_0000_0000_0000;
    }
  }

  /** The first 57 sleeps get a positive pause; the 58th gets 100 * 2^57, which does not fit
      in a long and wraps to a negative value. */
  lemma SleepPauseTurnsNegative(k: nat)
    requires k <= FirstNegativeSleep
    ensures k < FirstNegativeSleep ==> SleepPause(k) > 0
    ensures k == FirstNegativeSleep ==> SleepPause(k) < 0
  {
    if k < FirstNegativeSleep {
      SleepPauseDoubles(k);
      Pow2Positive(k);
    } else {
      SleepPauseDoubles(56);
      Pow2Of56();
      assert 2 * SleepPause(56) == 0xC800_0000_0000_0000;
    }
  }

  /** The end of an acquire as the source has it: the held set, the token, the exception. */
  datatype Acquisition = Acquisition(held: set<string>, token: Option<Token>, thrown: Option<Error>)

  /** acquire(ids, retryTimes) as written, with no other caller. A held id stays held, so every
      attempt fails: after each failed attempt the loop sleeps for SleepPause(k), and
      Thread.sleep throws IllegalArgumentException on the first negative pause, unless the
      count reached 0 first. A negative count never reaches 0. */
  function AcquireAsWrittenResult(held: set<string>, ids: seq<string>, retryTimes: int): (r: Acquisition)
    ensures r.held == held || (r.token.Some? && r.held == held + ToSet(ids))
  {
    if |ids| == 0 || retryTimes == 0 then Acquisition(held, None, None)
    else if AllFree(held, ids) then Acquisition(held + ToSet(ids), Some(Token(Join(SortedIds(ids)))), None)
    else if 0 < retryTimes <= FirstNegativeSleep then Acquisition(held, None, None)
    else Acquisition(held, None, Some(NegativeSleep(SleepPause(FirstNegativeSleep))))
  }

  /** The source as written and the corrected acquire agree except where a held id meets more
      than 57 attempts (or a negative count): there the source throws from Thread.sleep with a
      negative pause, where the corrected one gives up with nothing. */
  lemma AcquireAsWrittenAgrees(held: set<string>, ids: seq<string>, retryTimes: int)
    requires retryTimes >= 0
    ensures var r := AcquireAsWrittenResult(held, ids, retryTimes);
      && (r.thrown.None? ==> (r.held, r.token) == AcquireResult(held, ids, retryTimes))
      && (r.thrown.Some? <==> |ids| > 0 && !AllFree(held, ids) && retryTimes > FirstNegativeSleep)
      && (r.thrown.Some? ==> r.held == held && r.token.None? && AcquireResult(held, ids, retryTimes) == (held, None))
  {
  }

  /** With the 300 attempts both services ask for, a held id makes the source's acquire throw
      IllegalArgumentException (the 58th pause, 100 * 2^57, has wrapped below zero) instead of
      giving up with an empty answer, which is what the corrected acquire does. */
  lemma AcquireHeldThrowsAsWritten(held: set<string>, id: string)
    requires id in held
    ensures var r := AcquireAsWrittenResult(held, [id], 300);
      && r == Acquisition(held, None, Some(NegativeSleep(SleepPause(FirstNegativeSleep))))
      && SleepPause(FirstNegativeSleep) < 0
    ensures AcquireResult(held, [id], 300) == (held, None)
  {
    SleepPauseTurnsNegative(FirstNegativeSleep);
    assert !AllFree(held, [id]) by { assert id in [id]; }
  }

  /** release(token): the new held set and the exception thrown, if any. */
  function ReleaseResult(held: set<string>, token: Token): (set<string>, Option<Error>) {
    var parsed := Split(token.token);
    if |parsed| == 0 then (held, Some(InvalidToken))
    else if forall id :: id in parsed ==> id in held then (held - ToSet(parsed), None)
    else (held, Some(NotAllAcquired(parsed)))
  }

  // ---------------------------------------------------------------------------------------
  // Properties of the lock table

  /** One acquisition either takes every requested id, none of which was held, or changes
      nothing; an id already held makes it fail. */
  lemma AcquireAllOrNothing(held: set<string>, ids: seq<string>, retryTimes: int)
    requires retryTimes >= 0
    ensures var (after, token) := AcquireResult(held, ids, retryTimes);
      || (token.None? && after == held)
      || (token.Some? && held !! ToSet(ids) && after == held + ToSet(ids))
    ensures (exists id :: id in ids && id in held) ==> AcquireResult(held, ids, retryTimes).1.None?
  {
  }

  /** With at least one attempt, acquire succeeds exactly when some id is asked for and none
      of them is held; no ids or no attempts never succeed. */
  lemma AcquireSucceedsIff(held: set<string>, ids: seq<string>, retryTimes: int)
    requires retryTimes >= 0
    ensures AcquireResult(held, ids, retryTimes).1.Some? <==> |ids| > 0 && retryTimes > 0 && AllFree(held, ids)
  {
  }

  /** The token is the ids in natural order joined by ':'. */
  lemma {:induction false} AcquireTokenIsSortedJoin(held: set<string>, ids: seq<string>, retryTimes: int)
    requires retryTimes >= 0
    requires AcquireResult(held, ids, retryTimes).1.Some?
    ensures var sorted := SortedIds(ids);
      && Sorted(sorted) && multiset(sorted) == multiset(ids)
      && AcquireResult(held, ids, retryTimes).1.value == Token(Join(sorted))
  {
    SortedIdsSortedPermutation(ids);
  }

  /** The order of the requested ids makes no difference: acquire([A, B]) and acquire([B, A])
      change the table alike and give equal tokens. */
  lemma AcquireOrderInsensitive(held: set<string>, ids1: seq<string>, ids2: seq<string>, retryTimes: int)
    requires retryTimes >= 0
    requires multiset(ids1) == multiset(ids2)
    ensures AcquireResult(held, ids1, retryTimes) == AcquireResult(held, ids2, retryTimes)
  {
    SortedIdsPermutationInvariant(ids1, ids2);
    SameElements(ids1, ids2);
    assert |ids1| == |multiset(ids1)| == |ids2|;
  }

  /** Releasing the token of a successful acquisition of plain ids restores the table. */
  lemma ReleaseAfterAcquire(held: set<string>, ids: seq<string>, retryTimes: int)
    requires retryTimes >= 0
    requires forall k :: 0 <= k < |ids| ==> PlainId(ids[k])
    requires AcquireResult(held, ids, retryTimes).1.Some?
    ensures var (during, token) := AcquireResult(held, ids, retryTimes);
      ReleaseResult(during, token.value) == (held, None)
  {
    var sorted := SortedIds(ids);
    SortedIdsSortedPermutation(ids);
    SameElements(ids, sorted);
    forall k | 0 <= k < |sorted|
      ensures PlainId(sorted[k])
    {
      assert sorted[k] in multiset(ids);
    }
    assert |sorted| == |multiset(ids)| == |ids|;
    SplitJoin(sorted);
  }

  /** A second release of the same token throws and leaves the table alone. */
  lemma DoubleReleaseFails(held: set<string>, token: Token)
    requires ReleaseResult(held, token).1.None?
    ensures var after := ReleaseResult(held, token).0;
      ReleaseResult(after, token) == (after, Some(NotAllAcquired(Split(token.token))))
  {
    var parsed := Split(token.token);
    assert parsed[0] in ToSet(parsed);
  }

  /** A token naming an id nobody holds, like "bla-bla", is refused. */
  lemma ReleaseUnknownToken(held: set<string>)
    requires "bla-bla" !in held
    ensures ReleaseResult(held, Token("bla-bla")) == (held, Some(NotAllAcquired(["bla-bla"])))
  {
    var t := "bla-bla";
    assert forall k :: 0 <= k < |t| ==> t[k] != Sep;
    assert Split(t) == [t];
  }

  /** Tokens are equal exactly when their strings are. */
  lemma TokenEquality(a: Token, b: Token)
    ensures a == b <==> a.token == b.token
  {
  }

  // ---------------------------------------------------------------------------------------
  // The service

  class AdvisoryLockServiceImp {
    var acquiredAccounts: set<string>

    constructor ()
      ensures acquiredAccounts == {}
    {
      acquiredAccounts := {};
    }

    /** One atomic test-and-set: all ids free, then all taken; otherwise nothing changes. */
    method CanAcquireAll(accIds: seq<string>) returns (ok: bool)
      modifies this
      ensures ok == AllFree(old(acquiredAccounts), accIds)
      ensures acquiredAccounts == if ok then old(acquiredAccounts) + ToSet(accIds) else old(acquiredAccounts)
    {
      if exists accId :: accId in accIds && accId in acquiredAccounts {
        return false;
      }
      acquiredAccounts := acquiredAccounts + ToSet(accIds);
      return true;
    }

    /** The retry loop: at most times attempts, each failed one sleeping for a pause that
        doubles; the pauses survive as the ghost list slept. */
    method TryAcquireLockFewTimes(accountIds: seq<string>, ghost pause: int, times: int)
      returns (r: Option<Token>, ghost slept: seq<int>)
      requires times >= 0
      modifies this
      ensures r.Some? <==> times > 0 && AllFree(old(acquiredAccounts), accountIds)
      ensures r.Some? ==> r.value == Token(Join(accountIds))
      ensures acquiredAccounts == if r.Some? then old(acquiredAccounts) + ToSet(accountIds) else old(acquiredAccounts)
      ensures |slept| == if r.Some? then 0 else times
      ensures forall k :: 0 <= k < |slept| ==> slept[k] == pause * Pow2(k)
    {
      var t := times;
      ghost var p := pause;
      slept := [];
      while t != 0
        invariant 0 <= t <= times
        invariant |slept| == times - t
        invariant p == pause * Pow2(|slept|)
        invariant forall k :: 0 <= k < |slept| ==> slept[k] == pause * Pow2(k)
        invariant acquiredAccounts == old(acquiredAccounts)
        invariant |slept| > 0 ==> !AllFree(acquiredAccounts, accountIds)
      {
        var ok := CanAcquireAll(accountIds);
        if ok {
          return Some(Token(Join(accountIds))), slept;
        }
        slept := slept + [p];
        p := p * 2;
        t := t - 1;
      }
      return None, slept;
    }

    method Acquire(accountId: seq<string>, retryTimes: int) returns (r: Option<Token>)
      requires retryTimes >= 0
      modifies this
      ensures (acquiredAccounts, r) == AcquireResult(old(acquiredAccounts), accountId, retryTimes)
    {
      if |accountId| == 0 {
        return None;
      }
      var sortedAccountIds := SortIds(accountId);
      SortedIdsSortedPermutation(accountId);
      SameElements(accountId, sortedAccountIds);
      ghost var slept;
      r, slept := TryAcquireLockFewTimes(sortedAccountIds, StartLockPauseInMillis, retryTimes);
    }

    /** acquire as the source has it: the pause of tryAcquireLockFewTimes is a long that
        doubles after every failed attempt, and Thread.sleep throws on a negative pause. The
        tail recursion is the loop. */
    method AcquireAsWritten(accountId: seq<string>, retryTimes: int) returns (r: Option<Token>, thrown: Option<Error>)
      modifies this
      ensures Acquisition(acquiredAccounts, r, thrown) == AcquireAsWrittenResult(old(acquiredAccounts), accountId, retryTimes)
    {
      if |accountId| == 0 {
        return None, None;
      }
      var sortedAccountIds := SortIds(accountId);
      SortedIdsSortedPermutation(accountId);
      SameElements(accountId, sortedAccountIds);
      var pause := StartLockPauseInMillis;
      var times := retryTimes;
      ghost var k: nat := 0;
      while times != 0
        invariant k <= FirstNegativeSleep
        invariant pause == SleepPause(k) && times == retryTimes - k
        invariant retryTimes < 0 || retryTimes >= k
        invariant acquiredAccounts == old(acquiredAccounts)
        invariant k > 0 ==> !AllFree(acquiredAccounts, sortedAccountIds)
        decreases FirstNegativeSleep - k
      {
        var ok := CanAcquireAll(sortedAccountIds);
        if ok {
          return Some(Token(Join(sortedAccountIds))), None;
        }
        SleepPauseTurnsNegative(k);
        if pause < 0 {
          return None, Some(NegativeSleep(pause));
        }
        pause := DoubleLong(pause);
        times := times - 1;
        k := k + 1;
      }
      return None, None;
    }

    method Release(token: Token) returns (err: Option<Error>)
      modifies this
      ensures (acquiredAccounts, err) == ReleaseResult(old(acquiredAccounts), token)
    {
      var parsedAccIds := Split(token.token);
      if |parsedAccIds| == 0 {
        return Some(InvalidToken);
      }
      if forall acc :: acc in parsedAccIds ==> acc in acquiredAccounts {
        acquiredAccounts := acquiredAccounts - ToSet(parsedAccIds);
        return None;
      }
      return Some(NotAllAcquired(parsedAccIds));
    }
  }

  function Pow2(k: nat): int {
    if k == 0 then 1 else 2 * Pow2(k - 1)
  }

  lemma SameElements(s: seq<string>, t: seq<string>)
    requires multiset(s) == multiset(t)
    ensures ToSet(s) == ToSet(t)
    ensures forall held :: AllFree(held, s) <==> AllFree(held, t)
  {
    assert forall x :: x in s <==> x in multiset(s);
    assert forall x :: x in t <==> x in multiset(t);
  }
}
