/** The string building blocks the ledger uses: Python's `str(int)`, `c * n`,
    `str.startswith`, `sep.join(parts)` and its inverse `str.split(sep)`. */
module Text {

  function DigitChar(d: nat): (c: char)
    requires d < 10
    ensures '0' <= c <= '9'
  {
    (48 + d) as char
  }

  /** Decimal digits of a natural number, most significant first, no leading zeros. */
  function NatToDecimal(n: nat): (s: string)
    ensures |s| >= 1
    ensures forall i :: 0 <= i < |s| ==> '0' <= s[i] <= '9'
    ensures n >= 10 ==> |s| >= 2
    decreases n
  {
    if n < 10 then [DigitChar(n)] else NatToDecimal(n / 10) + [DigitChar(n % 10)]
  }

  /** Python's `str(n)` (also what an f-string prints) for an `int`. */
  function IntToDecimal(n: int): (s: string)
    ensures |s| >= 1
    ensures forall i :: 0 <= i < |s| ==> s[i] == '-' || '0' <= s[i] <= '9'
    ensures s[0] == '-' <==> n < 0
  {
    if n < 0 then "-" + NatToDecimal(-n) else NatToDecimal(n)
  }

  lemma {:induction false} NatToDecimalInjective(a: nat, b: nat)
    ensures NatToDecimal(a) == NatToDecimal(b) ==> a == b
    decreases a
  {
    var sa, sb := NatToDecimal(a), NatToDecimal(b);
    if sa == sb {
      assert (a < 10) == (|sa| == 1) == (b < 10);
      if a < 10 {
        assert DigitChar(a) == sa[0] == DigitChar(b);
      } else {
        var pa, pb := NatToDecimal(a / 10), NatToDecimal(b / 10);
        assert sa == pa + [DigitChar(a % 10)] && sb == pb + [DigitChar(b % 10)];
        assert |pa| == |pb|;
        assert pa == sa[..|pa|] == sb[..|pb|] == pb;
        assert DigitChar(a % 10) == sa[|pa|] == DigitChar(b % 10);
        NatToDecimalInjective(a / 10, b / 10);
      }
    }
  }

  /** Distinct integers print differently: `str` is injective on `int`. */
  lemma IntToDecimalInjective(a: int, b: int)
    ensures IntToDecimal(a) == IntToDecimal(b) ==> a == b
  {
    var sa, sb := IntToDecimal(a), IntToDecimal(b);
    if sa == sb {
      if a < 0 && b < 0 {
        assert sa[1..] == NatToDecimal(-a) && sb[1..] == NatToDecimal(-b);
        NatToDecimalInjective(-a, -b);
      } else if a >= 0 && b >= 0 {
        NatToDecimalInjective(a, b);
      }
    }
  }

  /** Python's `c * n` for a one-character string `c` and `n >= 0`. */
  function Repeat(c: char, n: nat): (s: string)
    ensures |s| == n
    ensures forall i :: 0 <= i < n ==> s[i] == c
  {
    seq(n, _ => c)
  }

  /** Python's `s.startswith(prefix)`. */
  predicate StartsWith(s: string, prefix: string)
  {
    |prefix| <= |s| && s[..|prefix|] == prefix
  }

  /** Python's `sep.join(parts)` for a one-character separator. */
  function Join(parts: seq<string>, sep: char): string
  {
    if |parts| == 0 then ""
    else if |parts| == 1 then parts[0]
    else parts[0] + [sep] + Join(parts[1..], sep)
  }

  /** Python's `s.split(sep)`: the pieces between occurrences of `sep`. */
  function Split(s: string, sep: char): (r: seq<string>)
    ensures |r| >= 1
    decreases |s|
  {
    if |s| == 0 then [""]
    else
      var rest := Split(s[1..], sep);
      if s[0] == sep then [""] + rest else [[s[0]] + rest[0]] + rest[1..]
  }

  /** Splitting `a + s` where `a` holds no separator glues `a` onto the first piece of `s`. */
  lemma {:induction false} SplitNoSeparatorPrefix(a: string, s: string, sep: char)
    requires sep !in a
    ensures Split(a + s, sep) == [a + Split(s, sep)[0]] + Split(s, sep)[1..]
    decreases |a|
  {
    if |a| > 0 {
      assert (a + s)[1..] == a[1..] + s;
      SplitNoSeparatorPrefix(a[1..], s, sep);
      assert [a[0]] + (a[1..] + Split(s, sep)[0]) == a + Split(s, sep)[0];
    } else {
      assert a + s == s;
      var r := Split(s, sep);
      assert a + r[0] == r[0];
      assert r == [r[0]] + r[1..];
    }
  }

  /** Round trip: splitting a join of separator-free parts gives the parts back. */
  lemma {:induction false} SplitJoin(parts: seq<string>, sep: char)
    requires |parts| >= 1
    requires forall i :: 0 <= i < |parts| ==> sep !in parts[i]
    ensures Split(Join(parts, sep), sep) == parts
    decreases |parts|
  {
    if |parts| == 1 {
      SplitNoSeparatorPrefix(parts[0], "", sep);
      assert parts[0] + "" == parts[0];
    } else {
      var rest := Join(parts[1..], sep);
      SplitJoin(parts[1..], sep);
      assert Join(parts, sep) == parts[0] + ([sep] + rest);
      SplitNoSeparatorPrefix(parts[0], [sep] + rest, sep);
      assert ([sep] + rest)[1..] == rest;
      assert Split([sep] + rest, sep) == [""] + parts[1..];
      assert parts[0] + "" == parts[0];
    }
  }

  /** A separator-free head before the first separator is determined. */
  lemma SeparatorSplitsAt(a: string, r1: string, b: string, r2: string, sep: char)
    requires sep !in a && sep !in b
    requires a + [sep] + r1 == b + [sep] + r2
    ensures a == b && r1 == r2
  {
    var s, t := a + [sep] + r1, b + [sep] + r2;
    assert forall i :: 0 <= i < |a| ==> s[i] == a[i] && a[i] != sep;
    assert forall i :: 0 <= i < |b| ==> t[i] == b[i] && b[i] != sep;
    assert s[|a|] == sep && t[|b|] == sep;
    assert |a| == |b|;
    assert a == s[..|a|] == b;
    assert r1 == s[|a| + 1..] == r2;
  }

  /** A join of equally many parts, all but the last separator-free, determines
      the parts: the last part may contain the separator. */
  lemma {:induction false} JoinInjectiveLastFree(p1: seq<string>, p2: seq<string>, sep: char)
    requires |p1| == |p2| >= 1
    requires forall i :: 0 <= i < |p1| - 1 ==> sep !in p1[i] && sep !in p2[i]
    requires Join(p1, sep) == Join(p2, sep)
    ensures p1 == p2
    decreases |p1|
  {
    if |p1| > 1 {
      SeparatorSplitsAt(p1[0], Join(p1[1..], sep), p2[0], Join(p2[1..], sep), sep);
      JoinInjectiveLastFree(p1[1..], p2[1..], sep);
      assert p1 == [p1[0]] + p1[1..];
      assert p2 == [p2[0]] + p2[1..];
    }
  }
}
