/** Strings as JavaScript compares, sorts and formats them. */
module Text {

  /** Strict lexicographic order by character code: the order of `<` on strings
      and of `Array.prototype.sort()` without a comparator. */
  predicate Less(a: string, b: string)
  {
    if |a| == 0 then |b| > 0
    else if |b| == 0 then false
    else if a[0] != b[0] then a[0] < b[0]
    else Less(a[1..], b[1..])
  }

  predicate LessEq(a: string, b: string)
  {
    a == b || Less(a, b)
  }

  lemma {:induction false} LessIrreflexive(a: string)
    ensures !Less(a, a)
  {
    if |a| > 0 {
      LessIrreflexive(a[1..]);
    }
  }

  lemma {:induction false} LessTransitive(a: string, b: string, c: string)
    requires Less(a, b) && Less(b, c)
    ensures Less(a, c)
  {
    if |a| > 0 && |c| > 0 && a[0] == b[0] && b[0] == c[0] {
      LessTransitive(a[1..], b[1..], c[1..]);
    }
  }

  /** Any two distinct strings are ordered one way or the other. */
  lemma {:induction false} LessTotal(a: string, b: string)
    ensures a == b || Less(a, b) || Less(b, a)
  {
    if |a| > 0 && |b| > 0 && a[0] == b[0] {
      LessTotal(a[1..], b[1..]);
      if a[1..] == b[1..] {
        assert a == [a[0]] + a[1..] && b == [b[0]] + b[1..];
      }
    }
  }

  lemma LessAsymmetric(a: string, b: string)
    requires Less(a, b)
    ensures !Less(b, a)
  {
    if Less(b, a) {
      LessTransitive(a, b, a);
      LessIrreflexive(a);
    }
  }

  lemma LessEqTransitive(a: string, b: string, c: string)
    requires LessEq(a, b) && LessEq(b, c)
    ensures LessEq(a, c)
  {
    if a != b && b != c {
      LessTransitive(a, b, c);
    }
  }

  /** Every element is strictly greater than every later one: sorted descending, no duplicates. */
  ghost predicate StrictlyDescending(s: seq<string>)
  {
    forall i, j :: 0 <= i < j < |s| ==> Less(s[j], s[i])
  }

  /** Inserts `x` into a strictly descending list, dropping it if already present. */
  function InsertDescending(x: string, s: seq<string>): (r: seq<string>)
    requires StrictlyDescending(s)
    ensures StrictlyDescending(r)
    ensures forall y :: y in r <==> y == x || y in s
  {
    if |s| == 0 then [x]
    else if x == s[0] then s
    else if Less(s[0], x) then
      LessChainHead(x, s);
      [x] + s
    else
      LessTotal(x, s[0]);
      var rest := InsertDescending(x, s[1..]);
      assert forall y :: y in rest ==> Less(y, s[0]) by {
        forall y | y in rest ensures Less(y, s[0]) {
          if y != x {
            var k :| 1 <= k < |s| && s[k] == y;
          }
        }
      }
      [s[0]] + rest
  }

  /** A value above the head of a strictly descending list is above all of it. */
  lemma LessChainHead(x: string, s: seq<string>)
    requires StrictlyDescending(s) && |s| > 0 && Less(s[0], x)
    ensures StrictlyDescending([x] + s)
  {
    forall j | 1 <= j < |s| + 1 ensures Less(([x] + s)[j], x) {
      if j > 1 {
        LessTransitive(s[j - 1], s[0], x);
      }
    }
  }

  /** The distinct elements of `xs`, latest first: duplicates dropped, sorted by
      string order, then reversed. */
  function DistinctDescending(xs: seq<string>): (r: seq<string>)
    ensures StrictlyDescending(r)
    ensures forall y :: y in r <==> y in xs
  {
    if |xs| == 0 then [] else InsertDescending(xs[0], DistinctDescending(xs[1..]))
  }

  /** The head of a strictly descending list is its greatest element. */
  lemma HeadIsGreatest(s: seq<string>, y: string)
    requires StrictlyDescending(s) && y in s
    ensures LessEq(y, s[0])
  {
  }

  lemma LessEqAntisymmetric(a: string, b: string)
    requires LessEq(a, b) && LessEq(b, a)
    ensures a == b
  {
    if a != b {
      LessAsymmetric(a, b);
    }
  }

  /** Two strictly descending lists with the same elements are equal, so
      `DistinctDescending` is the only list a set-then-sort-then-reverse can produce. */
  lemma {:induction false} StrictlyDescendingUnique(a: seq<string>, b: seq<string>)
    requires StrictlyDescending(a) && StrictlyDescending(b)
    requires forall y :: y in a <==> y in b
    ensures a == b
  {
    assert |a| > 0 ==> a[0] in b;
    assert |b| > 0 ==> b[0] in a;
    if |a| > 0 && |b| > 0 {
      HeadIsGreatest(b, a[0]);
      HeadIsGreatest(a, b[0]);
      LessEqAntisymmetric(a[0], b[0]);
      LessIrreflexive(a[0]);
      forall y ensures y in a[1..] <==> y in b[1..] {
        assert y in a[1..] ==> Less(y, a[0]) && y in b;
        assert y in b[1..] ==> Less(y, b[0]) && y in a;
        assert y in b && y != b[0] ==> y in b[1..];
        assert y in a && y != a[0] ==> y in a[1..];
      }
      StrictlyDescendingUnique(a[1..], b[1..]);
      assert a == [a[0]] + a[1..] && b == [b[0]] + b[1..];
    }
  }

  // ---- decimal formatting (`Number.prototype.toString`, `String.prototype.padStart`)

  predicate IsDigit(c: char)
  {
    '0' <= c <= '9'
  }

  predicate AllDigits(s: string)
  {
    forall i :: 0 <= i < |s| ==> IsDigit(s[i])
  }

  function DigitChar(d: nat): (c: char)
    requires d < 10
    ensures IsDigit(c) && (c as int) - ('0' as int) == d
  {
    ('0' as int + d) as char
  }

  /** The value of a string of decimal digits. */
  function DigitsValue(s: string): nat
    requires AllDigits(s)
  {
    if |s| == 0 then 0
    else DigitsValue(s[..|s| - 1]) * 10 + ((s[|s| - 1] as int) - ('0' as int))
  }

  /** Decimal representation of a natural number, without leading zeros. */
  function NatToString(n: nat): (r: string)
    ensures |r| >= 1 && AllDigits(r)
    ensures DigitsValue(r) == n
    ensures (|r| > 1 ==> r[0] != '0')
  {
    if n < 10 then [DigitChar(n)]
    else
      var front := NatToString(n / 10);
      var r := front + [DigitChar(n % 10)];
      assert r[..|r| - 1] == front;
      r
  }

  lemma {:induction false} NatToStringLength(n: nat)
    ensures n < 10 ==> |NatToString(n)| == 1
    ensures 10 <= n < 100 ==> |NatToString(n)| == 2
    ensures 100 <= n < 1000 ==> |NatToString(n)| == 3
    ensures 1000 <= n < 10000 ==> |NatToString(n)| == 4
  {
    if n >= 10 {
      NatToStringLength(n / 10);
    }
  }

  /** Decimal representation of an integer, with a leading '-' when negative. */
  function IntToString(n: int): (r: string)
    ensures |r| >= 1
    ensures n >= 0 ==> r == NatToString(n)
    ensures n < 0 ==> r == "-" + NatToString(-n)
  {
    if n < 0 then "-" + NatToString(-n) else NatToString(n)
  }

  /** A string shorter than two characters, padded on the left with '0' to two. */
  function PadStart2(s: string): (r: string)
    ensures |s| >= 2 ==> r == s
    ensures |s| < 2 ==> |r| == 2 && r[2 - |s|..] == s
    ensures forall i :: 0 <= i < 2 - |s| ==> r[i] == '0'
  {
    if |s| >= 2 then s else seq(2 - |s|, _ => '0') + s
  }

  /** Zero-padding keeps the value of a digit string. */
  lemma PadStart2Value(s: string)
    requires AllDigits(s)
    ensures AllDigits(PadStart2(s)) && DigitsValue(PadStart2(s)) == DigitsValue(s)
  {
    var r := PadStart2(s);
    if |s| == 0 {
      assert r == "00";
      assert r[..1] == "0";
    } else if |s| == 1 {
      assert r == "0" + s;
      assert r[..1] == "0";
      assert s[..0] == "";
    }
  }

  /** The first seven characters, or all of a shorter string. */
  function Prefix7(s: string): (r: string)
    ensures r <= s
    ensures |r| == if |s| < 7 then |s| else 7
  {
    if |s| < 7 then s else s[..7]
  }
}
