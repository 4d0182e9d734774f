/** String helpers shared by both thermostat scripts: Python's `str.ljust`
    and slicing as used for the 16-column LCD, decimal rendering of
    integers as done by an f-string, and a reference decoder used to state
    that the telemetry record can be read back. */
module Text {

  datatype Option<+T> = None | Some(value: T)

  /** `n` blanks. */
  function Spaces(n: nat): (s: string)
    ensures |s| == n
    ensures forall i | 0 <= i < n :: s[i] == ' '
  {
    seq(n, _ => ' ')
  }

  /** Python's `s.ljust(width)`: pads on the right with blanks, never shortens. */
  function Ljust(s: string, width: nat): (r: string)
    ensures |s| >= width ==> r == s
    ensures |s| < width ==> |r| == width && r[..|s|] == s
    ensures forall i | |s| <= i < |r| :: r[i] == ' '
  {
    if |s| >= width then s else s + Spaces(width - |s|)
  }

  /** Python's `s[:width]`. */
  function Truncate(s: string, width: nat): (r: string)
    ensures |r| == if |s| < width then |s| else width
    ensures r == s[..|r|]
  {
    if |s| <= width then s else s[..width]
  }

  /** `s.ljust(width)[:width]`, the order used by the thermostat display loop. */
  function LjustThenTruncate(s: string, width: nat): (r: string)
    ensures |r| == width
    ensures |s| <= width ==> r == s + Spaces(width - |s|)
    ensures |s| >= width ==> r == s[..width]
  {
    Truncate(Ljust(s, width), width)
  }

  /** `s[:width].ljust(width)`, the order used by the sensor display. */
  function TruncateThenLjust(s: string, width: nat): (r: string)
    ensures |r| == width
    ensures |s| <= width ==> r == s + Spaces(width - |s|)
    ensures |s| >= width ==> r == s[..width]
  {
    Ljust(Truncate(s, width), width)
  }

  /** Both orders of padding and cutting give the same line. */
  lemma FitOrdersAgree(s: string, width: nat)
    ensures LjustThenTruncate(s, width) == TruncateThenLjust(s, width)
  {
    if |s| <= width {
      assert LjustThenTruncate(s, width) == s + Spaces(width - |s|);
    } else {
      assert LjustThenTruncate(s, width) == s[..width];
    }
  }

  /** A fitted line keeps every character of the source string that fits,
      and blanks fill only the columns the string does not reach. */
  lemma {:induction false} FitKeepsPrefix(s: string, width: nat, i: nat)
    requires i < width
    ensures i < |s| ==> LjustThenTruncate(s, width)[i] == s[i]
    ensures i >= |s| ==> LjustThenTruncate(s, width)[i] == ' '
  {
    var r := LjustThenTruncate(s, width);
    if |s| <= width {
      assert r == s + Spaces(width - |s|);
      if i >= |s| {
        assert r[i] == Spaces(width - |s|)[i - |s|];
      }
    } else {
      assert r == s[..width];
    }
  }

  // ---------------------------------------------------------------------
  // Decimal integers, as Python's f"{n}" writes them.

  predicate IsDigit(c: char) {
    '0' <= c <= '9'
  }

  predicate AllDigits(s: string) {
    forall i | 0 <= i < |s| :: IsDigit(s[i])
  }

  function DigitChar(d: nat): (c: char)
    requires d < 10
    ensures IsDigit(c) && c as int - '0' as int == d
  {
    ('0' as int + d) as char
  }

  /** The value of a run of decimal digits, most significant first. */
  function DigitsValue(s: string): int
    decreases |s|
  {
    if s == [] then 0
    else DigitsValue(s[..|s| - 1]) * 10 + (s[|s| - 1] as int - '0' as int)
  }

  /** Decimal digits of `n` without leading zeros. */
  function NatToString(n: nat): (s: string)
    ensures |s| >= 1
    decreases n
  {
    if n < 10 then [DigitChar(n)] else NatToString(n / 10) + [DigitChar(n % 10)]
  }

  lemma {:induction false} NatToStringDigits(n: nat)
    ensures AllDigits(NatToString(n))
    ensures |NatToString(n)| > 1 ==> NatToString(n)[0] != '0'
    decreases n
  {
    if n >= 10 {
      NatToStringDigits(n / 10);
      var s := NatToString(n);
      assert s == NatToString(n / 10) + [DigitChar(n % 10)];
      assert s[0] == NatToString(n / 10)[0];
    }
  }

  /** An optional minus sign followed by at least one digit. */
  predicate IsDecimal(s: string) {
    (|s| >= 1 && AllDigits(s)) || (|s| >= 2 && s[0] == '-' && AllDigits(s[1..]))
  }

  /** Python's f"{i}" for an `int`: a leading '-' exactly for negatives. */
  function IntToString(i: int): (s: string)
    ensures |s| >= 1
  {
    if i < 0 then "-" + NatToString(-i) else NatToString(i)
  }

  lemma IntToStringIsDecimal(i: int)
    ensures IsDecimal(IntToString(i))
    ensures IntToString(i)[0] == '-' <==> i < 0
  {
    if i < 0 {
      NatToStringDigits(-i);
      assert IntToString(i)[1..] == NatToString(-i);
    } else {
      NatToStringDigits(i);
    }
  }

  /** Reads back what `IntToString` writes; anything else is `None`. */
  function ParseInt(s: string): Option<int> {
    if |s| >= 2 && s[0] == '-' && AllDigits(s[1..]) then Some(-(DigitsValue(s[1..]) as int))
    else if |s| >= 1 && AllDigits(s) then Some(DigitsValue(s))
    else None
  }

  lemma {:induction false} NatToStringValue(n: nat)
    ensures DigitsValue(NatToString(n)) == n
    decreases n
  {
    var s := NatToString(n);
    if n >= 10 {
      NatToStringValue(n / 10);
      assert s[..|s| - 1] == NatToString(n / 10);
    }
  }

  /** Rendering an integer in decimal loses nothing. */
  lemma IntToStringRoundTrip(i: int)
    ensures ParseInt(IntToString(i)) == Some(i)
  {
    var s := IntToString(i);
    if i < 0 {
      var digits := NatToString(-i);
      NatToStringDigits(-i);
      NatToStringValue(-i);
      assert s == "-" + digits && s[1..] == digits;
    } else {
      NatToStringDigits(i);
      NatToStringValue(i);
      assert IsDigit(s[0]);
    }
  }

  /** Decimal text holds no separator or line break of the telemetry record. */
  lemma DecimalHasNo(s: string, c: char)
    requires IsDecimal(s)
    requires c != '-' && !IsDigit(c)
    ensures c !in s
  {
  }

  // ---------------------------------------------------------------------
  // Splitting at a separator character, the inverse of joining with it.

  /** Python's `s.split(sep)` for a one-character separator. */
  function Split(s: string, sep: char): (parts: seq<string>)
    ensures |parts| == multiset(s)[sep] + 1
    ensures forall p | p in parts :: sep !in p
    decreases |s|
  {
    if s == [] then [[]]
    else
      var rest := Split(s[1..], sep);
      assert s == [s[0]] + s[1..];
      if s[0] == sep then [[]] + rest
      else [[s[0]] + rest[0]] + rest[1..]
  }

  lemma {:induction false} SplitWithoutSep(a: string, sep: char)
    requires sep !in a
    ensures Split(a, sep) == [a]
    decreases |a|
  {
    if a != [] {
      SplitWithoutSep(a[1..], sep);
      assert [a[0]] + a[1..] == a;
    }
  }

  /** Splitting `a + sep + b` yields `a` and then the pieces of `b`. */
  lemma {:induction false} SplitAfterField(a: string, sep: char, b: string)
    requires sep !in a
    ensures Split(a + [sep] + b, sep) == [a] + Split(b, sep)
    decreases |a|
  {
    var s := a + [sep] + b;
    if a == [] {
      assert s[1..] == b;
    } else {
      assert s[1..] == a[1..] + [sep] + b;
      SplitAfterField(a[1..], sep, b);
      assert [a[0]] + a[1..] == a;
    }
  }

  /** Three fields free of the separator, joined by it, split back into
      exactly those fields. */
  lemma SplitThreeFields(a: string, b: string, c: string, sep: char)
    requires sep !in a && sep !in b && sep !in c
    ensures Split(a + [sep] + b + [sep] + c, sep) == [a, b, c]
  {
    var bc := b + [sep] + c;
    SplitWithoutSep(c, sep);
    SplitAfterField(b, sep, c);
    assert Split(bc, sep) == [b, c];
    SplitAfterField(a, sep, bc);
    assert a + [sep] + b + [sep] + c == a + [sep] + bc;
  }

  /** Three fields free of `sep` and `eol`, joined by `sep` and ended by
      `eol`, hold `sep` twice and `eol` once. */
  lemma JoinedLineCounts(a: string, b: string, c: string, sep: char, eol: char)
    requires sep != eol
    requires sep !in a && sep !in b && sep !in c
    requires eol !in a && eol !in b && eol !in c
    ensures multiset(a + [sep] + b + [sep] + c + [eol])[sep] == 2
    ensures multiset(a + [sep] + b + [sep] + c + [eol])[eol] == 1
  {
    assert multiset(a)[sep] == 0 && multiset(b)[sep] == 0 && multiset(c)[sep] == 0;
    assert multiset(a)[eol] == 0 && multiset(b)[eol] == 0 && multiset(c)[eol] == 0;
    assert multiset(a + [sep] + b + [sep] + c + [eol])
      == multiset(a) + multiset([sep]) + multiset(b) + multiset([sep]) + multiset(c) + multiset([eol]);
  }

  // ---------------------------------------------------------------------
  // Python's `str.upper()` restricted to ASCII letters.

  function UpperChar(c: char): char {
    if 'a' <= c <= 'z' then (c as int - 32) as char else c
  }

  function Upper(s: string): (r: string)
    ensures |r| == |s|
    ensures forall i | 0 <= i < |s| :: r[i] == UpperChar(s[i])
  {
    seq(|s|, i requires 0 <= i < |s| => UpperChar(s[i]))
  }
}
