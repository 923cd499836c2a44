// Strings as the Go code prints and splits them: strconv.Itoa, strings.Split.
module Text {
  datatype Option<+T> = None | Some(value: T)

  const DIGITS: string := "0123456789"

  function DigitValue(c: char): nat {
    if '0' <= c <= '9' then c as nat - '0' as nat else 0
  }

  predicate AllDigits(s: string) {
    forall i :: 0 <= i < |s| ==> '0' <= s[i] <= '9'
  }

  /** Decimal digits without a superfluous leading zero: the form in which Itoa prints a number. */
  predicate Canonical(s: string) {
    |s| > 0 && AllDigits(s) && (|s| > 1 ==> s[0] != '0')
  }

  function ItoaNat(n: nat): (s: string)
    ensures Canonical(s)
    ensures n > 0 ==> s[0] != '0'
  {
    if n < 10 then [DIGITS[n]] else ItoaNat(n / 10) + [DIGITS[n % 10]]
  }

  /** strconv.Itoa */
  function Itoa(n: int): string {
    if n < 0 then "-" + ItoaNat(-n) else ItoaNat(n)
  }

  function Value(s: string): nat {
    if s == "" then 0 else Value(s[..|s| - 1]) * 10 + DigitValue(s[|s| - 1])
  }

  lemma {:induction false} ValueOfItoa(n: nat)
    ensures Value(ItoaNat(n)) == n
  {
    if n >= 10 {
      ValueOfItoa(n / 10);
      assert ItoaNat(n)[..|ItoaNat(n)| - 1] == ItoaNat(n / 10);
    } else {
      assert ItoaNat(n)[..0] == "";
    }
  }

  lemma {:induction false} ItoaOfValue(s: string)
    requires Canonical(s)
    ensures ItoaNat(Value(s)) == s
  {
    var init, last := s[..|s| - 1], s[|s| - 1];
    if |s| == 1 {
      assert init == "" && s == [last];
    } else {
      ItoaOfValue(init);
      assert Value(s) / 10 == Value(init) && Value(s) % 10 == DigitValue(last);
      assert init != ItoaNat(0);
      assert s == init + [last];
    }
  }

  /** Two numbers never print alike, so a pool keyed by printed ports is a pool of ports. */
  lemma ItoaInjective(m: int, n: int)
    ensures Itoa(m) == Itoa(n) ==> m == n
  {
    if Itoa(m) == Itoa(n) {
      if m < 0 && n < 0 {
        assert Itoa(m)[1..] == ItoaNat(-m) && Itoa(n)[1..] == ItoaNat(-n);
      }
      ValueOfItoa(if m < 0 then -m else m);
      ValueOfItoa(if n < 0 then -n else n);
    }
  }

  /** A printed number is a sign, if it is negative, and the decimal digits of its size without leading zeros. */
  lemma ItoaMeaning(n: int)
    ensures n >= 0 ==> Canonical(Itoa(n)) && Value(Itoa(n)) == n
    ensures n < 0 ==> Itoa(n)[0] == '-' && Canonical(Itoa(n)[1..]) && Value(Itoa(n)[1..]) == -n
  {
    ValueOfItoa(if n < 0 then -n else n);
    if n < 0 {
      assert Itoa(n)[1..] == ItoaNat(-n);
    }
  }

  lemma ItoaHasNoSeparator(n: int)
    ensures ':' !in Itoa(n)
    ensures '.' !in Itoa(n)
  {
  }

  /** strings.Split with a one-character separator */
  function Split(s: string, sep: char): (parts: seq<string>)
    ensures |parts| >= 1
    ensures forall p :: p in parts ==> sep !in p
  {
    if s == "" then [""]
    else
      var rest := Split(s[1..], sep);
      if s[0] == sep then [""] + rest else [[s[0]] + rest[0]] + rest[1..]
  }

  function Join(parts: seq<string>, sep: char): string {
    if parts == [] then ""
    else if |parts| == 1 then parts[0]
    else parts[0] + [sep] + Join(parts[1..], sep)
  }

  lemma {:induction false} SplitWhole(a: string, sep: char)
    requires sep !in a
    ensures Split(a, sep) == [a]
  {
    if a != "" {
      SplitWhole(a[1..], sep);
      assert [a[0]] + a[1..] == a;
    }
  }

  lemma {:induction false} SplitFirst(a: string, b: string, sep: char)
    requires sep !in a
    ensures Split(a + [sep] + b, sep) == [a] + Split(b, sep)
  {
    var s := a + [sep] + b;
    if a == "" {
      assert s[1..] == b;
    } else {
      SplitFirst(a[1..], b, sep);
      assert s[1..] == a[1..] + [sep] + b;
      assert [a[0]] + a[1..] == a;
    }
  }

  lemma {:induction false} SplitCount(a: string, b: string, sep: char)
    ensures |Split(a + [sep] + b, sep)| == |Split(a, sep)| + |Split(b, sep)|
  {
    var s := a + [sep] + b;
    if a == "" {
      assert s[1..] == b;
    } else {
      SplitCount(a[1..], b, sep);
      assert s[1..] == a[1..] + [sep] + b;
    }
  }

  /** Joined strings split into at least as many parts. */
  lemma {:induction false} SplitOfJoinCount(parts: seq<string>, sep: char)
    requires parts != []
    ensures |Split(Join(parts, sep), sep)| >= |parts|
  {
    if |parts| > 1 {
      SplitOfJoinCount(parts[1..], sep);
      SplitCount(parts[0], Join(parts[1..], sep), sep);
    }
  }

  lemma {:induction false} JoinOfSplit(s: string, sep: char)
    ensures Join(Split(s, sep), sep) == s
  {
    if s != "" {
      JoinOfSplit(s[1..], sep);
      var rest := Split(s[1..], sep);
      if s[0] == sep {
        assert ([""] + rest)[1..] == rest;
      } else {
        var parts := [[s[0]] + rest[0]] + rest[1..];
        assert parts[1..] == rest[1..];
      }
    }
  }

  /** Splitting undoes joining for parts that do not contain the separator. */
  lemma {:induction false} SplitOfJoin(parts: seq<string>, sep: char)
    requires parts != [] && forall p :: p in parts ==> sep !in p
    ensures Split(Join(parts, sep), sep) == parts
  {
    if |parts| == 1 {
      SplitWhole(parts[0], sep);
    } else {
      SplitOfJoin(parts[1..], sep);
      SplitFirst(parts[0], Join(parts[1..], sep), sep);
    }
  }

  /** A separator that occurs in neither right half fixes where two joined strings meet. */
  lemma LastSeparatorDecides(a: string, b: string, c: string, d: string, sep: char)
    requires a + [sep] + b == c + [sep] + d
    requires sep !in b && sep !in d
    ensures a == c && b == d
  {
    var s, t := a + [sep] + b, c + [sep] + d;
    assert s[|a|] == sep && t[|c|] == sep;
    assert forall i :: |a| < i < |s| ==> s[i] == b[i - |a| - 1];
    assert forall i :: |c| < i < |t| ==> t[i] == d[i - |c| - 1];
    assert |a| == |c|;
    assert s[..|a|] == a && t[..|c|] == c && s[|a| + 1..] == b && t[|c| + 1..] == d;
  }

  /** So does a string with a single separator: its halves are unique. */
  lemma OnlySeparatorDecides(a: string, b: string, c: string, d: string, sep: char)
    requires a + [sep] + b == c + [sep] + d
    requires sep !in a && sep !in b
    ensures a == c && b == d
  {
    var s, t := a + [sep] + b, c + [sep] + d;
    assert t[|c|] == sep;
    assert forall i :: 0 <= i < |a| ==> s[i] == a[i];
    assert forall i :: |a| < i < |s| ==> s[i] == b[i - |a| - 1];
    assert |a| == |c|;
    assert s[..|a|] == a && t[..|c|] == c && s[|a| + 1..] == b && t[|c| + 1..] == d;
  }
}
