/**
 * String helpers that the Python code gets from `str`: decimal rendering
 * and parsing (`str(n)`, `int(s)`), ASCII case mapping (`upper`, `lower`),
 * `startswith`, `", ".join` and `sorted` on strings.
 */
module Text {

  // ---------------------------------------------------------------------
  // Decimal digits

  predicate IsDigit(c: char) { '0' <= c <= '9' }

  predicate AllDigits(s: string) { forall i :: 0 <= i < |s| ==> IsDigit(s[i]) }

  /** The strings of the regular expression `[0-9]+`. */
  predicate IsDigitString(s: string) { |s| > 0 && AllDigits(s) }

  function DigitValue(c: char): nat
    requires IsDigit(c)
  {
    (c as int) - ('0' as int)
  }

  function DigitChar(d: nat): (c: char)
    requires d < 10
    ensures IsDigit(c) && DigitValue(c) == d
  {
    (('0' as int) + d) as char
  }

  /** `str(n)` for a non-negative integer. */
  function DecimalString(n: nat): (s: string)
    decreases n
  {
    if n < 10 then [DigitChar(n)] else DecimalString(n / 10) + [DigitChar(n % 10)]
  }

  /** `int(s)` for a string of ASCII digits (leading zeros allowed). */
  function ParseDigits(s: string): nat
    requires AllDigits(s)
  {
    if s == [] then 0 else 10 * ParseDigits(s[..|s| - 1]) + DigitValue(s[|s| - 1])
  }

  /** Leading zeros removed; "0" (or "000") becomes "0". */
  function StripLeadingZeros(s: string): (r: string)
    requires IsDigitString(s)
    ensures IsDigitString(r)
  {
    if |s| > 1 && s[0] == '0' then StripLeadingZeros(s[1..]) else s
  }

  /** No superfluous leading zero. */
  predicate IsCanonical(s: string)
  {
    IsDigitString(s) && (|s| == 1 || s[0] != '0')
  }

  /** `str(n)` is a canonical digit string. */
  lemma {:induction false} DecimalIsCanonical(n: nat)
    ensures IsCanonical(DecimalString(n))
    ensures n > 0 ==> DecimalString(n)[0] != '0'
    decreases n
  {
    if n >= 10 {
      DecimalIsCanonical(n / 10);
      var p := DecimalString(n / 10);
      assert DecimalString(n) == p + [DigitChar(n % 10)];
      assert DecimalString(n)[0] == p[0];
    }
  }

  /** `int(str(n)) == n`. */
  lemma {:induction false} ParseDecimal(n: nat)
    ensures AllDigits(DecimalString(n)) && ParseDigits(DecimalString(n)) == n
    decreases n
  {
    DecimalIsCanonical(n);
    if n >= 10 {
      ParseDecimal(n / 10);
      var p := DecimalString(n / 10);
      var s := DecimalString(n);
      assert s == p + [DigitChar(n % 10)];
      assert s[..|s| - 1] == p;
    }
  }

  lemma {:induction false} ParseOfSnoc(s: string, c: char)
    requires AllDigits(s) && IsDigit(c)
    ensures AllDigits(s + [c]) && ParseDigits(s + [c]) == 10 * ParseDigits(s) + DigitValue(c)
  {
    assert (s + [c])[..|s + [c]| - 1] == s;
  }

  /** A leading zero does not change the value. */
  lemma {:induction false} ParseLeadingZero(u: string)
    requires AllDigits(u)
    ensures AllDigits(['0'] + u) && ParseDigits(['0'] + u) == ParseDigits(u)
    decreases |u|
  {
    if u != [] {
      var init := u[..|u| - 1];
      ParseLeadingZero(init);
      assert ['0'] + u == (['0'] + init) + [u[|u| - 1]];
      ParseOfSnoc(['0'] + init, u[|u| - 1]);
      assert u == init + [u[|u| - 1]];
      ParseOfSnoc(init, u[|u| - 1]);
    }
  }

  lemma {:induction false} StripKeepsValue(s: string)
    requires IsDigitString(s)
    ensures ParseDigits(StripLeadingZeros(s)) == ParseDigits(s)
    ensures IsCanonical(StripLeadingZeros(s))
    decreases |s|
  {
    if |s| > 1 && s[0] == '0' {
      StripKeepsValue(s[1..]);
      assert s == ['0'] + s[1..];
      ParseLeadingZero(s[1..]);
    }
  }

  lemma {:induction false} CanonicalIsPositive(s: string)
    requires IsDigitString(s) && s[0] != '0'
    ensures ParseDigits(s) > 0
    decreases |s|
  {
    if |s| > 1 {
      var init := s[..|s| - 1];
      CanonicalIsPositive(init);
    }
  }

  /** `str(int(s)) == s` for a canonical digit string. */
  lemma {:induction false} DecimalOfCanonical(s: string)
    requires IsCanonical(s)
    ensures DecimalString(ParseDigits(s)) == s
    decreases |s|
  {
    if |s| > 1 {
      var init := s[..|s| - 1];
      var d := DigitValue(s[|s| - 1]);
      var n := ParseDigits(s);
      CanonicalIsPositive(init);
      DecimalOfCanonical(init);
      assert n == 10 * ParseDigits(init) + d;
      DivModTen(ParseDigits(init), d);
      assert DecimalString(n) == DecimalString(ParseDigits(init)) + [DigitChar(d)];
      assert DigitChar(d) == s[|s| - 1];
      assert s == init + [s[|s| - 1]];
    }
  }

  lemma DivModTen(q: nat, d: nat)
    requires d < 10
    ensures (10 * q + d) / 10 == q && (10 * q + d) % 10 == d
  {
  }

  /**
   * Decimal parsing then rendering normalises: `str(int(s))` is `s` with its
   * leading zeros removed, and equals `s` exactly when `s` is canonical.
   */
  lemma DecimalOfParse(s: string)
    requires IsDigitString(s)
    ensures DecimalString(ParseDigits(s)) == StripLeadingZeros(s)
    ensures DecimalString(ParseDigits(s)) == s <==> IsCanonical(s)
  {
    StripKeepsValue(s);
    DecimalOfCanonical(StripLeadingZeros(s));
    DecimalIsCanonical(ParseDigits(s));
  }

  // ---------------------------------------------------------------------
  // ASCII case mapping (the only case mapping the model covers)

  function UpperChar(c: char): char
  {
    if 'a' <= c <= 'z' then (c as int - 32) as char else c
  }

  function LowerChar(c: char): char
  {
    if 'A' <= c <= 'Z' then (c as int + 32) as char else c
  }

  /** `s.upper()` restricted to ASCII letters. */
  function Upper(s: string): (r: string)
    ensures |r| == |s|
    ensures forall i :: 0 <= i < |s| ==> r[i] == UpperChar(s[i])
  {
    seq(|s|, i requires 0 <= i < |s| => UpperChar(s[i]))
  }

  /** `s.lower()` restricted to ASCII letters. */
  function Lower(s: string): (r: string)
    ensures |r| == |s|
    ensures forall i :: 0 <= i < |s| ==> r[i] == LowerChar(s[i])
  {
    seq(|s|, i requires 0 <= i < |s| => LowerChar(s[i]))
  }

  predicate StartsWith(s: string, prefix: string)
  {
    |prefix| <= |s| && s[..|prefix|] == prefix
  }

  /** `sep.join(parts)`. */
  function Join(parts: seq<string>, sep: string): string
  {
    if parts == [] then ""
    else if |parts| == 1 then parts[0]
    else parts[0] + sep + Join(parts[1..], sep)
  }

  // ---------------------------------------------------------------------
  // Python's string ordering (code point lexicographic) and `sorted`

  /** `a <= b` on Python strings. */
  predicate LexLessEq(a: string, b: string)
    decreases |a|
  {
    a == [] || (b != [] && (a[0] < b[0] || (a[0] == b[0] && LexLessEq(a[1..], b[1..]))))
  }

  lemma {:induction false} LexTotal(a: string, b: string)
    ensures LexLessEq(a, b) || LexLessEq(b, a)
    decreases |a|
  {
    if a != [] && b != [] && a[0] == b[0] {
      LexTotal(a[1..], b[1..]);
    }
  }

  /** Adjacent elements are in order. */
  predicate Sorted(xs: seq<string>)
  {
    forall i :: 0 < i < |xs| ==> LexLessEq(xs[i - 1], xs[i])
  }

  predicate NoDuplicates<T(==)>(xs: seq<T>)
  {
    forall i, j :: 0 <= i < j < |xs| ==> xs[i] != xs[j]
  }

  /** The set of elements of a sequence. */
  function Elements<T>(xs: seq<T>): set<T>
  {
    set x | x in xs
  }

  function Insert(x: string, ys: seq<string>): (r: seq<string>)
    requires Sorted(ys)
    ensures Sorted(r) && multiset(r) == multiset(ys) + multiset{x}
    ensures r != [] && (r[0] == x || (ys != [] && r[0] == ys[0]))
  {
    if ys == [] then [x]
    else if LexLessEq(x, ys[0]) then [x] + ys
    else
      LexTotal(x, ys[0]);
      var rest := Insert(x, ys[1..]);
      assert ys == [ys[0]] + ys[1..];
      [ys[0]] + rest
  }

  /** `sorted(xs)` on strings. */
  function SortStrings(xs: seq<string>): (r: seq<string>)
    ensures Sorted(r) && multiset(r) == multiset(xs)
  {
    if xs == [] then []
    else
      assert xs == [xs[0]] + xs[1..];
      Insert(xs[0], SortStrings(xs[1..]))
  }

  lemma DistinctMultisetPreserved<T>(xs: seq<T>, ys: seq<T>)
    requires multiset(xs) == multiset(ys) && NoDuplicates(xs)
    ensures NoDuplicates(ys) && Elements(ys) == Elements(xs)
  {
    forall i, j | 0 <= i < j < |ys| ensures ys[i] != ys[j] {
      if ys[i] == ys[j] {
        var e := ys[i];
        assert multiset(ys)[e] >= 2 by {
          assert ys == ys[..i] + [e] + ys[i + 1..j] + [e] + ys[j + 1..];
        }
        CountInDistinct(xs, e);
        assert false;
      }
    }
    forall e ensures e in Elements(ys) <==> e in Elements(xs) {
      assert e in Elements(ys) <==> e in multiset(ys);
      assert e in Elements(xs) <==> e in multiset(xs);
    }
  }

  lemma {:induction false} CountInDistinct<T>(xs: seq<T>, e: T)
    requires NoDuplicates(xs)
    ensures multiset(xs)[e] <= 1
    decreases |xs|
  {
    if xs != [] {
      CountInDistinct(xs[1..], e);
      assert xs == [xs[0]] + xs[1..];
      if xs[0] == e {
        assert e !in xs[1..];
        assert multiset(xs[1..])[e] == 0;
      }
    }
  }
}
