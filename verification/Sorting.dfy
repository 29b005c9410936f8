/** Byte order of strings, and what slices.Sort followed by slices.Compact gives. */
module Sorting {

  predicate Less(a: string, b: string) {
    b != [] && (a == [] || a[0] < b[0] || (a[0] == b[0] && Less(a[1..], b[1..])))
  }

  predicate StrictlySorted(xs: seq<string>) {
    forall i, j :: 0 <= i < j < |xs| ==> Less(xs[i], xs[j])
  }

  function Insert(x: string, xs: seq<string>): seq<string> {
    if xs == [] || Less(x, xs[0]) then [x] + xs
    else if x == xs[0] then xs
    else [xs[0]] + Insert(x, xs[1..])
  }

  function SortUnique(xs: seq<string>): seq<string> {
    if xs == [] then [] else Insert(xs[0], SortUnique(xs[1..]))
  }

  lemma {:induction false} LessTrans(a: string, b: string, c: string)
    requires Less(a, b) && Less(b, c)
    ensures Less(a, c)
  {
    if a == [] || a[0] != b[0] || b[0] != c[0] {
    } else {
      LessTrans(a[1..], b[1..], c[1..]);
    }
  }

  lemma {:induction false} LessTotal(a: string, b: string)
    ensures Less(a, b) || Less(b, a) || a == b
  {
    if a == [] || b == [] || a[0] != b[0] {
    } else {
      LessTotal(a[1..], b[1..]);
      assert a == [a[0]] + a[1..] && b == [b[0]] + b[1..];
    }
  }

  lemma {:induction false} LessIrreflexive(a: string)
    ensures !Less(a, a)
  {
    if a == [] {
    } else {
      LessIrreflexive(a[1..]);
    }
  }

  lemma {:induction false} LessAsymmetric(a: string, b: string)
    requires Less(a, b)
    ensures !Less(b, a)
  {
    if a == [] || a[0] != b[0] {
    } else {
      LessAsymmetric(a[1..], b[1..]);
    }
  }

  lemma {:induction false} LessThanLonger(a: string, s: string)
    requires s != []
    ensures Less(a, a + s)
  {
    if a == [] {
    } else {
      LessThanLonger(a[1..], s);
      assert (a + s)[1..] == a[1..] + s;
    }
  }

  lemma {:induction false} InsertSorted(x: string, xs: seq<string>)
    requires StrictlySorted(xs)
    ensures StrictlySorted(Insert(x, xs))
    ensures forall y :: y in Insert(x, xs) <==> y == x || y in xs
  {
    if xs == [] {
    } else {
      var r := Insert(x, xs);
      if Less(x, xs[0]) {
        forall j | 0 < j < |r| ensures Less(r[0], r[j]) {
          if j > 1 {
            LessTrans(x, xs[0], xs[j - 1]);
          }
        }
      } else if x != xs[0] {
        InsertSorted(x, xs[1..]);
        LessTotal(x, xs[0]);
        var t := Insert(x, xs[1..]);
        forall j | 0 < j < |r| ensures Less(r[0], r[j]) {
          assert r[j] == t[j - 1];
          assert t[j - 1] in t;
          assert t[j - 1] == x || t[j - 1] in xs[1..];
        }
        forall i, j | 0 <= i < j < |r| ensures Less(r[i], r[j]) {
          if i > 0 {
            assert r[i] == t[i - 1] && r[j] == t[j - 1];
          }
        }
        assert xs == [xs[0]] + xs[1..];
      }
    }
  }

  /** The result is strictly increasing and has the elements of the input. */
  lemma {:induction false} SortUniqueCorrect(xs: seq<string>)
    ensures StrictlySorted(SortUnique(xs))
    ensures forall y :: y in SortUnique(xs) <==> y in xs
  {
    if xs == [] {
    } else {
      SortUniqueCorrect(xs[1..]);
      InsertSorted(xs[0], SortUnique(xs[1..]));
    }
  }

  /** Nothing else is strictly increasing with those elements, so any way of
      sorting and compacting gives this sequence. */
  lemma {:induction false} StrictlySortedUnique(xs: seq<string>, ys: seq<string>)
    requires StrictlySorted(xs) && StrictlySorted(ys)
    requires forall z :: z in xs <==> z in ys
    ensures xs == ys
  {
    assert |ys| > 0 ==> ys[0] in ys;
    if xs == [] {
    } else {
      assert xs[0] in ys;
      HeadsAgree(xs, ys);
      HeadNotInTail(xs);
      HeadNotInTail(ys);
      assert xs == [xs[0]] + xs[1..] && ys == [ys[0]] + ys[1..];
      forall z ensures z in xs[1..] <==> z in ys[1..] {
        assert z in xs <==> z == xs[0] || z in xs[1..];
        assert z in ys <==> z == ys[0] || z in ys[1..];
        assert z in xs <==> z in ys;
      }
      StrictlySortedUnique(xs[1..], ys[1..]);
    }
  }

  lemma {:induction false} HeadNotInTail(xs: seq<string>)
    requires xs != [] && StrictlySorted(xs)
    ensures xs[0] !in xs[1..]
  {
    forall i | 0 < i < |xs| ensures xs[i] != xs[0] {
      LessIrreflexive(xs[0]);
    }
  }

  lemma {:induction false} HeadsAgree(xs: seq<string>, ys: seq<string>)
    requires StrictlySorted(xs) && StrictlySorted(ys)
    requires xs != [] && xs[0] in ys && ys[0] in xs
    ensures xs[0] == ys[0]
  {
    var i :| 0 <= i < |ys| && ys[i] == xs[0];
    var j :| 0 <= j < |xs| && xs[j] == ys[0];
    if i > 0 && j > 0 {
      assert Less(ys[0], ys[i]) && Less(xs[0], xs[j]);
      LessTrans(xs[0], xs[j], xs[0]);
      LessIrreflexive(xs[0]);
    }
  }
}
