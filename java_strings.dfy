/**
 * The java.lang.String behaviour the lock table and the log repository rely on:
 * String.compareTo (the natural order used to sort account ids, here over code points rather
 * than UTF-16 units), Collectors.joining(":") and String.split(":") with Java's rule that
 * trailing empty fields are dropped.
 */
module JavaStrings {

  /** KEY_SEP of both AdvisoryLockServiceImp and TransferRepositoryLogInMemory. */
  const Sep: char := ':'

  /** a.compareTo(b) <= 0 with characters compared as code points rather than UTF-16 units:
      character by character, a proper prefix ordered first. */
  predicate LexLe(a: string, b: string)
    decreases |a|
  {
    |a| == 0 || (|b| > 0 && (a[0] < b[0] || (a[0] == b[0] && LexLe(a[1..], b[1..]))))
  }

  lemma {:induction false} LexLeTotal(a: string, b: string)
    ensures LexLe(a, b) || LexLe(b, a)
    decreases |a|
  {
    if |a| > 0 && |b| > 0 && a[0] == b[0] {
      LexLeTotal(a[1..], b[1..]);
    }
  }

  lemma {:induction false} LexLeAntisymmetric(a: string, b: string)
    requires LexLe(a, b) && LexLe(b, a)
    ensures a == b
    decreases |a|
  {
    if |a| > 0 {
      LexLeAntisymmetric(a[1..], b[1..]);
      assert a == [a[0]] + a[1..] && b == [b[0]] + b[1..];
    }
  }

  lemma {:induction false} LexLeTransitive(a: string, b: string, c: string)
    requires LexLe(a, b) && LexLe(b, c)
    ensures LexLe(a, c)
    decreases |a|
  {
    if |a| > 0 && a[0] == b[0] && b[0] == c[0] {
      LexLeTransitive(a[1..], b[1..], c[1..]);
    }
  }

  /** An account id that survives a join/split round trip: non-empty, without the separator. */
  predicate PlainId(id: string) {
    |id| > 0 && Sep !in id
  }

  /** Collectors.joining(":"): the parts separated by ':', "" for no parts. */
  function Join(parts: seq<string>): string {
    if |parts| == 0 then ""
    else if |parts| == 1 then parts[0]
    else parts[0] + [Sep] + Join(parts[1..])
  }

  /** Every ':'-separated field of s, empty ones included. */
  function Fields(s: string): (r: seq<string>)
    ensures |r| >= 1
    ensures |r| == 1 <==> Sep !in s
  {
    if |s| == 0 then [""]
    else if s[0] == Sep then [""] + Fields(s[1..])
    else
      var rest := Fields(s[1..]);
      [[s[0]] + rest[0]] + rest[1..]
  }

  function DropTrailingEmpty(fields: seq<string>): (r: seq<string>)
    ensures |r| <= |fields| && r == fields[..|r|]
    ensures |r| > 0 ==> r[|r| - 1] != ""
  {
    if |fields| > 0 && fields[|fields| - 1] == "" then DropTrailingEmpty(fields[..|fields| - 1])
    else fields
  }

  /** s.split(":"): the whole string when it has no separator, otherwise its fields with the
      trailing empty ones removed (so ":" and "::" split into nothing). */
  function Split(s: string): seq<string> {
    if Sep !in s then [s] else DropTrailingEmpty(Fields(s))
  }

  lemma {:induction false} FieldsOfPlain(s: string)
    requires Sep !in s
    ensures Fields(s) == [s]
  {
    // the postcondition of Fields gives the length; the element follows by induction
    if |s| > 0 {
      FieldsOfPlain(s[1..]);
      assert s == [s[0]] + s[1..];
    }
  }

  lemma {:induction false} FieldsOfSeparated(a: string, b: string)
    requires Sep !in a
    ensures Fields(a + [Sep] + b) == [a] + Fields(b)
  {
    if |a| == 0 {
      assert a + [Sep] + b == [Sep] + b;
      assert ([Sep] + b)[1..] == b;
    } else {
      var s := a + [Sep] + b;
      assert s[1..] == a[1..] + [Sep] + b;
      FieldsOfSeparated(a[1..], b);
      assert [a[0]] + a[1..] == a;
    }
  }

  lemma {:induction false} FieldsOfJoin(parts: seq<string>)
    requires |parts| >= 1
    requires forall k :: 0 <= k < |parts| ==> Sep !in parts[k]
    ensures Fields(Join(parts)) == parts
  {
    if |parts| == 1 {
      FieldsOfPlain(parts[0]);
    } else {
      FieldsOfJoin(parts[1..]);
      FieldsOfSeparated(parts[0], Join(parts[1..]));
      assert parts == [parts[0]] + parts[1..];
    }
  }

  /** Joining plain ids and splitting the result gives the ids back. */
  lemma {:induction false} SplitJoin(parts: seq<string>)
    requires |parts| >= 1
    requires forall k :: 0 <= k < |parts| ==> PlainId(parts[k])
    ensures Split(Join(parts)) == parts
  {
    FieldsOfJoin(parts);
    if |parts| > 1 {
      assert Join(parts)[|parts[0]|] == Sep;
    }
  }

  lemma SeparatorAt(a: string, b: string)
    ensures (a + [Sep] + b)[|a|] == Sep
    ensures forall k :: 0 <= k < |a| ==> (a + [Sep] + b)[k] == a[k]
  {
  }

  /** Two separator-joined pairs are equal only if their parts are, when the first parts
      contain no separator. */
  lemma SeparatedInjective(a1: string, b1: string, a2: string, b2: string)
    requires Sep !in a1 && Sep !in a2
    requires a1 + [Sep] + b1 == a2 + [Sep] + b2
    ensures a1 == a2 && b1 == b2
  {
    var s1, s2 := a1 + [Sep] + b1, a2 + [Sep] + b2;
    SeparatorAt(a1, b1);
    SeparatorAt(a2, b2);
    if |a1| != |a2| {
      assert false;
    }
    assert a1 == s1[..|a1|] && a2 == s2[..|a2|];
    assert b1 == s1[|a1| + 1..] && b2 == s2[|a2| + 1..];
  }
}
