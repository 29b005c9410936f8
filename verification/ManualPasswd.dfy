/** Which passwd lines report an account, and how granted principals are written. */
module ManualPasswd {
  import opened Text
  import opened Sorting
  import opened ManualPlan

  const INT_MAX := 0x7fff_ffff_ffff_ffff

  function Decimal(n: nat): string {
    var digit := ('0' as int + n % 10) as char;
    if n < 10 then [digit] else Decimal(n / 10) + [digit]
  }

  lemma {:induction false} DecimalDigits(n: nat)
    ensures AllDigits(Decimal(n)) && Digits(Decimal(n)) == n
  {
    var s := Decimal(n);
    var digit := ('0' as int + n % 10) as char;
    if n < 10 {
      assert s[..0] == [];
    } else {
      DecimalDigits(n / 10);
      assert s[..|s| - 1] == Decimal(n / 10) && s[|s| - 1] == digit;
    }
  }

  /** Atoi on digits, with or without a sign in front. */
  lemma {:induction false} AtoiOfDigits(s: string)
    requires AllDigits(s)
    ensures Atoi(s) == (if Digits(s) <= INT_MAX then Some(Digits(s)) else None)
    ensures Atoi("+" + s) == (if Digits(s) <= INT_MAX then Some(Digits(s)) else None)
    ensures Atoi("-" + s) == (if Digits(s) <= INT_MAX + 1 then Some(-Digits(s)) else None)
  {
    assert s[0] != '-' && s[0] != '+';
    assert ("+" + s)[1..] == s && ("-" + s)[1..] == s;
  }

  /** Numbers are read as they are written, if 64 bits hold them. */
  lemma {:induction false} AtoiReadsDecimals(n: nat, s: string)
    requires s == Decimal(n)
    ensures Atoi(s) == (if n <= INT_MAX then Some(n) else None)
    ensures Atoi("+" + s) == (if n <= INT_MAX then Some(n) else None)
    ensures Atoi("-" + s) == (if n <= INT_MAX + 1 then Some(-(n as int)) else None)
  {
    assert AllDigits(s) && Digits(s) == n by {
      DecimalDigits(n);
    }
    AtoiOfDigits(s);
  }

  lemma {:induction false} AtoiRefuses(s: string, i: nat)
    requires s == "" || (0 < i < |s| && !('0' <= s[i] <= '9'))
    ensures Atoi(s) == None
  {
    if s != "" {
      assert s[1..][i - 1] == s[i];
    }
  }

  /** Letters, digits, `_`, `-` and `.`, and no `.` or `-` first. */
  predicate NameIsSafe(name: string) {
    && name != "" && name[0] !in "-."
    && forall c :: c in name ==> 'a' <= c <= 'z' || 'A' <= c <= 'Z' || '0' <= c <= '9' || c in "_-."
  }

  lemma {:induction false} SafeNames(name: string)
    ensures SafeName(name) <==> NameIsSafe(name)
  {
    if NameIsSafe(name) {
      forall i | 0 <= i < |name| ensures SafeChar(name[i]) {
        assert name[i] in name;
      }
    }
  }

  ghost predicate LoginShell(shell: string) {
    && (forall s: string :: shell != s + "nologin")
    && (forall s: string :: shell != s + "false")
    && (forall s: string :: shell != s + "sync")
  }

  lemma {:induction false} SuffixIs(s: string, suffix: string)
    ensures HasSuffix(s, suffix) <==> exists a: string :: s == a + suffix
  {
    if HasSuffix(s, suffix) {
      assert s == s[..|s| - |suffix|] + suffix;
    }
    if a: string :| s == a + suffix {
      assert |s| - |suffix| == |a| && s[|a|..] == suffix;
    }
  }

  /** A passwd line reports its first field exactly when that is a safe name, the
      third field is zero or a number from 1000 on, and the seventh a login shell. */
  lemma {:induction false} LineReports(fields: seq<string>, uid: nat)
    requires fields != [] && forall f :: f in fields ==> ':' !in f
    requires |fields| >= 3 ==> fields[2] == Decimal(uid)
    ensures LoginName(Join(fields, ':')) ==
            if |fields| >= 7 && NameIsSafe(fields[0]) && LoginShell(fields[6])
               && (uid == 0 || 1000 <= uid <= INT_MAX)
            then Some(fields[0]) else None
  {
    SplitAfterJoin(fields, ':');
    if |fields| >= 3 {
      AtoiReadsDecimals(uid, fields[2]);
    }
    SafeNames(fields[0]);
    if |fields| >= 7 {
      SuffixIs(fields[6], "nologin");
      SuffixIs(fields[6], "false");
      SuffixIs(fields[6], "sync");
    }
  }

  /** What is no number reports nothing, and a negative one neither. */
  lemma {:induction false} NoUidNoReport(fields: seq<string>, i: nat)
    requires |fields| >= 7 && forall f :: f in fields ==> ':' !in f
    requires fields[2] == "" || (0 < i < |fields[2]| && !('0' <= fields[2][i] <= '9'))
    ensures LoginName(Join(fields, ':')) == None
  {
    SplitAfterJoin(fields, ':');
    AtoiRefuses(fields[2], i);
  }

  lemma {:induction false} NegativeReportsNothing(fields: seq<string>, n: nat)
    requires |fields| >= 7 && forall f :: f in fields ==> ':' !in f
    requires n > 0 && fields[2] == "-" + Decimal(n)
    ensures LoginName(Join(fields, ':')) == None
  {
    SplitAfterJoin(fields, ':');
    AtoiReadsDecimals(n, fields[2][1..]);
  }

  /** The principals file is the strictly ordered lines of what is granted, so it
      is the same for the same principals in any order, repeated or not. */
  lemma {:induction false} RenderedInOrder(ids: seq<string>, lines: seq<string>)
    requires StrictlySorted(lines) && forall l :: l in lines <==> l in ids && l != ""
    ensures RenderPrincipals(ids) == Lines(lines)
  {
    NonEmptyAre(ids);
    SortUniqueCorrect(NonEmpty(ids));
    StrictlySortedUnique(SortUnique(NonEmpty(ids)), lines);
  }
}
