/** Strings as the control plane compares, trims, joins and prints them. */
module Text {

  /** The byte order of Go's `<` on strings. */
  predicate Less(a: string, b: string)
  {
    b != [] && (a == [] || a[0] < b[0] || (a[0] == b[0] && Less(a[1..], b[1..])))
  }

  lemma LessIrreflexive(a: string)
    ensures !Less(a, a)
  {
  }

  lemma {:induction false} LessTransitive(a: string, b: string, c: string)
    requires Less(a, b) && Less(b, c)
    ensures Less(a, c)
  {
    if a != [] && a[0] == b[0] && b[0] == c[0] {
      LessTransitive(a[1..], b[1..], c[1..]);
    }
  }

  lemma {:induction false} LessTotal(a: string, b: string)
    ensures a == b || Less(a, b) || Less(b, a)
  {
    if a != [] && b != [] && a[0] == b[0] {
      LessTotal(a[1..], b[1..]);
      assert a == [a[0]] + a[1..] && b == [b[0]] + b[1..];
    }
  }

  /** Strings are compared at the first place where they differ; a proper prefix comes first. */
  lemma {:induction false} LessIff(a: string, b: string)
    ensures Less(a, b) <==> a < b || exists k :: 0 <= k < |a| && k < |b| && a[..k] == b[..k] && a[k] < b[k]
  {
    if a == [] || b == [] || a[0] != b[0] {
      if b != [] && a != [] && a[0] < b[0] {
        assert a[..0] == b[..0];
      }
      assert forall k | 0 < k < |a| && k < |b| :: a[..k] == b[..k] ==> a[..k][0] == b[..k][0];
    } else {
      LessIff(a[1..], b[1..]);
      assert a == [a[0]] + a[1..] && b == [b[0]] + b[1..];
      forall k | 0 <= k < |a| - 1 && k < |b| - 1
        ensures a[1..][..k] == b[1..][..k] <==> a[..k + 1] == b[..k + 1]
      {
        assert a[..k + 1] == [a[0]] + a[1..][..k] && b[..k + 1] == [b[0]] + b[1..][..k];
        assert a[1..][..k] == a[..k + 1][1..] && b[1..][..k] == b[..k + 1][1..];
      }
      DifferenceMoves(a, b);
    }
  }

  lemma DifferenceMoves(a: string, b: string)
    requires a != [] && b != [] && a[0] == b[0]
    requires forall k | 0 <= k < |a| - 1 && k < |b| - 1 :: a[1..][..k] == b[1..][..k] <==> a[..k + 1] == b[..k + 1]
    ensures (exists k :: 0 <= k < |a[1..]| && k < |b[1..]| && a[1..][..k] == b[1..][..k] && a[1..][k] < b[1..][k])
            <==> exists k :: 0 <= k < |a| && k < |b| && a[..k] == b[..k] && a[k] < b[k]
  {
    if k :| 0 <= k < |a[1..]| && k < |b[1..]| && a[1..][..k] == b[1..][..k] && a[1..][k] < b[1..][k] {
      assert a[..k + 1] == b[..k + 1] && a[k + 1] < b[k + 1];
    }
    if k :| 0 <= k < |a| && k < |b| && a[..k] == b[..k] && a[k] < b[k] {
      assert a[1..][..k - 1] == b[1..][..k - 1] && a[1..][k - 1] < b[1..][k - 1];
    }
  }

  /** A separator that occurs in neither head splits a joined string in one way only. */
  lemma SplitUnique(sep: char, a: string, x: string, b: string, y: string)
    requires sep !in a && sep !in b
    requires a + [sep] + x == b + [sep] + y
    ensures a == b && x == y
  {
    var s, t := a + [sep] + x, b + [sep] + y;
    assert s[|a|] == sep && t[|b|] == sep;
    assert forall k | 0 <= k < |a| :: s[k] == a[k] != sep;
    assert forall k | 0 <= k < |b| :: t[k] == b[k] != sep;
    assert |a| == |b|;
    assert a == s[..|a|] && b == t[..|b|];
    assert x == s[|a| + 1..] && y == t[|b| + 1..];
  }

  /** A prefix ends inside the first part, right at its separator, or behind it. */
  lemma JoinedPrefixIff(sep: char, a: string, b: string, f: string)
    ensures a + [sep] <= b + [sep] + f <==> a == b || a + [sep] <= b || (b + [sep] <= a && a[|b| + 1..] + [sep] <= f)
  {
    var s, t := a + [sep], b + [sep] + f;
    if |a| < |b| {
      assert t[..|s|] == b[..|s|];
    } else if |a| == |b| {
      assert t[..|s|] == b + [sep];
      assert s <= t <==> s == b + [sep];
      assert s == b + [sep] <==> a == b by {
        assert s[..|a|] == a && (b + [sep])[..|a|] == b;
      }
    } else if |s| <= |t| {
      assert t[..|s|] == b + [sep] + f[..|a| - |b|];
      assert s == s[..|b| + 1] + s[|b| + 1..];
      assert s[..|b| + 1] == a[..|b| + 1] && s[|b| + 1..] == a[|b| + 1..] + [sep];
    }
  }

  /** Exactly when two joined strings are equal: the same parts, or one head begins the other and the tails make up. */
  lemma JoinedEqualIff(sep: char, a: string, x: string, b: string, y: string)
    ensures a + [sep] + x == b + [sep] + y <==>
      || (a == b && x == y)
      || (a + [sep] <= b && x == b[|a| + 1..] + [sep] + y)
      || (b + [sep] <= a && y == a[|b| + 1..] + [sep] + x)
  {
    if |a| < |b| {
      LongerHeadIff(sep, a, x, b, y);
    } else if |b| < |a| {
      LongerHeadIff(sep, b, y, a, x);
    } else {
      assert (a + [sep] + x)[..|a|] == a && (b + [sep] + y)[..|a|] == b;
      assert (a + [sep] + x)[|a| + 1..] == x && (b + [sep] + y)[|a| + 1..] == y;
    }
  }

  lemma LongerHeadIff(sep: char, a: string, x: string, b: string, y: string)
    requires |a| < |b|
    ensures a + [sep] + x == b + [sep] + y <==> a + [sep] <= b && x == b[|a| + 1..] + [sep] + y
  {
    var s, t := a + [sep] + x, b + [sep] + y;
    assert s == s[..|a| + 1] + s[|a| + 1..] && t == t[..|a| + 1] + t[|a| + 1..];
    assert s[..|a| + 1] == a + [sep] && s[|a| + 1..] == x;
    assert t[..|a| + 1] == b[..|a| + 1] && t[|a| + 1..] == b[|a| + 1..] + [sep] + y;
  }

  lemma SharedPrefix(p: string, a: string, b: string)
    ensures p + a <= p + b <==> a <= b
  {
    assert |a| <= |b| ==> (p + b)[..|p + a|] == p + b[..|a|];
    assert |a| <= |b| ==> (p + a == p + b[..|a|] <==> a == b[..|a|]) by {
      assert (p + a)[|p|..] == a;
      assert |a| <= |b| ==> (p + b[..|a|])[|p|..] == b[..|a|];
    }
  }

  /** White space as strings.TrimSpace sees it, for the characters below U+0100. */
  predicate IsSpace(c: char)
  {
    '\t' <= c <= '\r' || c == ' ' || c == 0x85 as char || c == 0xA0 as char
  }

  function TrimLeft(s: string): string
  {
    if s != [] && IsSpace(s[0]) then TrimLeft(s[1..]) else s
  }

  function TrimRight(s: string): string
  {
    if s != [] && IsSpace(s[|s| - 1]) then TrimRight(s[..|s| - 1]) else s
  }

  /** strings.TrimSpace. */
  function Trim(s: string): string
  {
    TrimRight(TrimLeft(s))
  }

  lemma {:induction false} TrimLeftEnd(s: string)
    ensures TrimLeft(s) != [] ==> !IsSpace(TrimLeft(s)[0])
  {
    if s != [] && IsSpace(s[0]) {
      TrimLeftEnd(s[1..]);
    }
  }

  lemma {:induction false} TrimRightEnd(s: string)
    ensures TrimRight(s) <= s && (TrimRight(s) != [] ==> !IsSpace(TrimRight(s)[|TrimRight(s)| - 1]))
  {
    if s != [] && IsSpace(s[|s| - 1]) {
      TrimRightEnd(s[..|s| - 1]);
    }
  }

  ghost predicate Blank(s: string)
  {
    forall c <- s :: c in ['\t', '\n', 0x0B as char, 0x0C as char, '\r', ' ', 0x85 as char, 0xA0 as char]
  }

  lemma {:induction false} TrimmedLeft(s: string) returns (l: string)
    ensures s == l + TrimLeft(s) && Blank(l)
  {
    l := [];
    if s != [] && IsSpace(s[0]) {
      l := TrimmedLeft(s[1..]);
      l := [s[0]] + l;
    }
  }

  lemma {:induction false} TrimmedRight(s: string) returns (r: string)
    ensures s == TrimRight(s) + r && Blank(r)
  {
    r := [];
    if s != [] && IsSpace(s[|s| - 1]) {
      r := TrimmedRight(s[..|s| - 1]);
      r := r + [s[|s| - 1]];
    }
  }

  /** Trimming takes white space off both ends, and all of it. */
  lemma TrimIsMiddle(s: string) returns (l: string, r: string)
    ensures s == l + Trim(s) + r && Blank(l) && Blank(r)
    ensures var t := Trim(s); t != [] ==> !Blank([t[0]]) && !Blank([t[|t| - 1]])
  {
    l := TrimmedLeft(s);
    r := TrimmedRight(TrimLeft(s));
    TrimLeftEnd(s);
    TrimRightEnd(TrimLeft(s));
    var t := Trim(s);
    if t != [] {
      assert t[0] == TrimLeft(s)[0] && [t[0]][0] in [t[0]] && [t[|t| - 1]][0] in [t[|t| - 1]];
    }
  }

  function Digit(n: nat): (c: char)
    requires n < 16
    ensures n < 10 ==> '0' <= c <= '9'
    ensures c != '.' && c != ':'
  {
    if n < 10 then ('0' as int + n) as char else ('a' as int + n - 10) as char
  }

  /** Decimal rendering, as the verb %d prints a non-negative number. */
  function Decimal(n: nat): (s: string)
    ensures |s| > 0
  {
    if n < 10 then [Digit(n)] else Decimal(n / 10) + [Digit(n % 10)]
  }

  lemma {:induction false} DecimalInjective(m: nat, n: nat)
    requires Decimal(m) == Decimal(n)
    ensures m == n
    decreases m
  {
    assert |Decimal(m)| == 1 <==> m < 10;
    assert |Decimal(n)| == 1 <==> n < 10;
    if m < 10 {
      assert Digit(m) == Decimal(m)[0] == Decimal(n)[0] == Digit(n);
    } else {
      var a, b := Decimal(m / 10), Decimal(n / 10);
      assert a == Decimal(m)[..|Decimal(m)| - 1] && b == Decimal(n)[..|Decimal(n)| - 1];
      assert Digit(m % 10) == Decimal(m)[|a|] == Decimal(n)[|b|] == Digit(n % 10);
      DecimalInjective(m / 10, n / 10);
    }
  }

  /** The number a string of digits stands for. */
  ghost function Value(s: string, base: nat): int
  {
    if s == [] then 0 else
      var c := s[|s| - 1];
      Value(s[..|s| - 1], base) * base + if '0' <= c <= '9' then c as int - '0' as int else c as int - 'a' as int + 10
  }

  lemma {:induction false} DecimalReadsBack(n: nat)
    ensures Value(Decimal(n), 10) == n
  {
    if n >= 10 {
      DecimalReadsBack(n / 10);
      assert Decimal(n)[..|Decimal(n)| - 1] == Decimal(n / 10);
    }
  }

  lemma Hex2ReadsBack(n: nat)
    requires n < 256
    ensures Value(Hex2(n), 16) == n
  {
    assert Hex2(n)[..1] == [Digit(n / 16)];
    assert Value([Digit(n / 16)], 16) == n / 16 by {
      assert [Digit(n / 16)][..0] == [];
    }
  }

  /** The decimal rendering of a byte, written out. */
  function Octet(n: nat): (s: string)
    requires n < 256
    ensures '.' !in s
  {
    if n < 10 then [Digit(n)]
    else if n < 100 then [Digit(n / 10), Digit(n % 10)]
    else [Digit(n / 100), Digit(n / 10 % 10), Digit(n % 10)]
  }

  lemma OctetIsDecimal(n: nat)
    requires n < 256
    ensures Octet(n) == Decimal(n)
  {
    if n >= 100 {
      assert Decimal(n / 10) == [Digit(n / 100)] + [Digit(n / 10 % 10)];
    }
  }

  /** Two lower-case hexadecimal digits, as the verb %02x prints a byte. */
  function Hex2(n: nat): (s: string)
    requires n < 256
    ensures |s| == 2 && ':' !in s
  {
    [Digit(n / 16), Digit(n % 16)]
  }

  lemma Hex2Injective(m: nat, n: nat)
    requires m < 256 && n < 256 && Hex2(m) == Hex2(n)
    ensures m == n
  {
    assert Digit(m / 16) == Hex2(m)[0] == Hex2(n)[0] == Digit(n / 16);
    assert Digit(m % 16) == Hex2(m)[1] == Hex2(n)[1] == Digit(n % 16);
  }
}
