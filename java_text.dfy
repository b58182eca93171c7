/**
 * The pieces of the Java library the ledger relies on, written out:
 * `int` range, `Integer.toString`/`Integer.parseInt`, `"%.2f"` formatting
 * and `Double.parseDouble` on amounts in cents, `String.split(",")`,
 * `String.trim`, `toUpperCase`, `equalsIgnoreCase` and `%-Ns` padding.
 */
module JavaText {
  import opened Wrappers

  const MinInt: int := -0x8000_0000
  const MaxInt: int := 0x7fff_ffff

  /** A Java `int`. */
  type Int32 = x: int | MinInt <= x <= MaxInt

  // ---------------------------------------------------------------- digits

  predicate IsDigit(c: char) { '0' <= c <= '9' }

  predicate AllDigits(s: string) { forall i :: 0 <= i < |s| ==> IsDigit(s[i]) }

  function DigitChar(d: nat): (c: char)
    requires d < 10
    ensures IsDigit(c)
  {
    ('0' as int + d) as char
  }

  function DigitValue(c: char): (d: nat)
    requires IsDigit(c)
    ensures d < 10
  {
    c as int - '0' as int
  }

  /** Decimal digits of `n`, most significant first, without leading zeros. */
  function NatToString(n: nat): (s: string)
    ensures |s| >= 1 && AllDigits(s)
    decreases n
  {
    if n < 10 then [DigitChar(n)] else NatToString(n / 10) + [DigitChar(n % 10)]
  }

  /** The number a string of decimal digits denotes. */
  function DigitsValue(s: string): nat
    requires AllDigits(s)
    decreases |s|
  {
    if s == [] then 0 else DigitsValue(s[..|s| - 1]) * 10 + DigitValue(s[|s| - 1])
  }

  lemma {:induction false} NatToStringRoundTrip(n: nat)
    ensures DigitsValue(NatToString(n)) == n
    decreases n
  {
    if n >= 10 {
      var s := NatToString(n);
      assert s[..|s| - 1] == NatToString(n / 10);
      NatToStringRoundTrip(n / 10);
    }
  }

  // ---------------------------------------------------------------- int

  /** `Integer.toString(n)` (and string concatenation of an `int`). */
  function IntToString(n: int): string
  {
    if n < 0 then "-" + NatToString(-n) else NatToString(n)
  }

  /**
   * `Integer.parseInt(s)`: an optional sign, then at least one decimal digit,
   * and a value inside the `int` range; anything else is a
   * NumberFormatException, here `None`.
   */
  function ParseInt(s: string): Option<Int32>
  {
    if s == [] then None
    else
      var negative := s[0] == '-';
      var body := if s[0] == '-' || s[0] == '+' then s[1..] else s;
      if body == [] || !AllDigits(body) then None
      else
        var d: int := DigitsValue(body);
        var v := if negative then -d else d;
        if MinInt <= v <= MaxInt then Some(v) else None
  }

  lemma IntToStringRoundTrip(n: Int32)
    ensures ParseInt(IntToString(n)) == Some(n)
  {
    var s := IntToString(n);
    if n < 0 {
      var m: nat := -(n as int);
      var w := NatToString(m);
      assert s == "-" + w;
      assert s[0] == '-' && s[1..] == w;
      NatToStringRoundTrip(m);
      assert ParseInt(s) == Some(n);
    } else {
      var w := NatToString(n);
      assert s == w;
      assert IsDigit(s[0]);
      NatToStringRoundTrip(n);
      assert ParseInt(s) == Some(n);
    }
  }

  /** Distinct `int`s print differently. */
  lemma IntToStringInjective(m: Int32, n: Int32)
    requires IntToString(m) == IntToString(n)
    ensures m == n
  {
    IntToStringRoundTrip(m);
    IntToStringRoundTrip(n);
  }

  // ---------------------------------------------------------------- money

  function Abs(x: int): nat { if x < 0 then -x else x }

  /**
   * `String.format("%.2f", amount)` for an amount held in cents: an optional
   * minus sign, the whole units, a point and exactly two digits (a locale
   * with a `.` decimal separator and ASCII digits).
   */
  function FormatCents(cents: int): string
  {
    var a := Abs(cents);
    (if cents < 0 then "-" else "")
      + (NatToString(a / 100) + "." + CentsDigits(a))
  }

  /** First index of `c` in `s`. */
  function IndexOf(s: string, c: char): (r: Option<nat>)
    ensures r.Some? ==> r.value < |s| && s[r.value] == c && c !in s[..r.value]
    ensures r.None? ==> c !in s
    decreases |s|
  {
    if s == [] then None
    else if s[0] == c then Some(0)
    else
      match IndexOf(s[1..], c)
      case None => None
      case Some(i) => assert s[..i + 1] == [s[0]] + s[1..][..i]; Some(i + 1)
  }

  /** Cents denoted by at most two fraction digits ("", "5" or "05"). */
  function FractionCents(f: string): nat
    requires AllDigits(f) && |f| <= 2
  {
    if |f| == 0 then 0
    else if |f| == 1 then DigitValue(f[0]) * 10
    else DigitValue(f[0]) * 10 + DigitValue(f[1])
  }

  /**
   * An unsigned amount: whole units, and optionally a point followed by at
   * most two digits, with at least one digit in all.
   */
  function ParseUnsignedMoney(body: string): Option<nat>
  {
    var (whole, fraction) :=
      match IndexOf(body, '.')
      case Some(i) => (body[..i], body[i + 1..])
      case None => (body, "");
    if AllDigits(whole) && AllDigits(fraction) && |fraction| <= 2 && |whole| + |fraction| > 0 then
      Some(DigitsValue(whole) * 100 + FractionCents(fraction))
    else None
  }

  /**
   * `Double.parseDouble(s)` restricted to amounts that are whole cents:
   * surrounding white space, an optional sign, then an unsigned amount.
   * `None` stands for a NumberFormatException.
   */
  function ParseMoney(s: string): Option<int>
  {
    var t := Trim(s);
    var negative := t != [] && t[0] == '-';
    var body := if t != [] && (t[0] == '-' || t[0] == '+') then t[1..] else t;
    match ParseUnsignedMoney(body)
    case None => None
    case Some(cents) => var c: int := cents; Some(if negative then -c else c)
  }

  function CentsDigits(a: nat): string
  {
    [DigitChar(a % 100 / 10), DigitChar(a % 10)]
  }

  lemma NoPointInDigits(w: string)
    requires AllDigits(w)
    ensures '.' !in w
  {
    forall i | 0 <= i < |w| ensures w[i] != '.' { assert IsDigit(w[i]); }
  }

  lemma IndexOfAfterPrefix(w: string, rest: string)
    requires '.' !in w
    ensures IndexOf(w + "." + rest, '.') == Some(|w|)
  {
    var body := w + "." + rest;
    assert body[..|w|] == w;
    assert body[|w|] == '.';
  }

  lemma FractionCentsOfDigits(a: nat)
    ensures AllDigits(CentsDigits(a)) && FractionCents(CentsDigits(a)) == a % 100
  {
  }

  lemma UnsignedMoneyRoundTrip(a: nat)
    ensures ParseUnsignedMoney(NatToString(a / 100) + "." + CentsDigits(a)) == Some(a)
  {
    var w := NatToString(a / 100);
    var f := CentsDigits(a);
    var body := w + "." + f;
    NoPointInDigits(w);
    IndexOfAfterPrefix(w, f);
    assert body[..|w|] == w;
    assert body[|w| + 1..] == f;
    NatToStringRoundTrip(a / 100);
    FractionCentsOfDigits(a);
    assert DigitsValue(w) * 100 + FractionCents(f) == a by {
      assert DigitsValue(w) == a / 100;
      DivMod100(a);
    }
    assert AllDigits(body[..|w|]);
    assert AllDigits(body[|w| + 1..]);
  }

  lemma DivMod100(a: nat)
    ensures a / 100 * 100 + a % 100 == a
  {
  }

  lemma ParseMoneyNegative(body: string)
    requires Trim("-" + body) == "-" + body
    ensures ParseMoney("-" + body) == match ParseUnsignedMoney(body)
                                      case None => None
                                      case Some(c) => Some(0 - c as int)
  {
    assert ("-" + body)[1..] == body;
  }

  lemma ParseMoneyDigitFirst(body: string)
    requires Trim(body) == body && body != [] && IsDigit(body[0])
    ensures ParseMoney(body) == match ParseUnsignedMoney(body)
                                case None => None
                                case Some(c) => Some(c)
  {
  }

  /** Every amount in cents survives `"%.2f"` followed by `Double.parseDouble`. */
  lemma FormatCentsRoundTrip(cents: int)
    ensures ParseMoney(FormatCents(cents)) == Some(cents)
  {
    var a := Abs(cents);
    var w := NatToString(a / 100);
    var body := w + "." + CentsDigits(a);
    var s := FormatCents(cents);
    assert IsDigit(w[0]);
    assert body[0] == w[0];
    assert body[|body| - 1] == CentsDigits(a)[1];
    UnsignedMoneyRoundTrip(a);
    if cents < 0 {
      assert s == "-" + body;
      TrimNoPadding(s);
      ParseMoneyNegative(body);
    } else {
      assert s == body;
      TrimNoPadding(s);
      ParseMoneyDigitFirst(body);
    }
  }

  // ---------------------------------------------------------------- trim

  function TrimStart(s: string): string
    decreases |s|
  {
    if s != [] && s[0] <= ' ' then TrimStart(s[1..]) else s
  }

  function TrimEnd(s: string): string
    decreases |s|
  {
    if s != [] && s[|s| - 1] <= ' ' then TrimEnd(s[..|s| - 1]) else s
  }

  /** `String.trim()`: drops leading and trailing characters up to U+0020. */
  function Trim(s: string): string
  {
    TrimEnd(TrimStart(s))
  }

  /** A text that starts and ends with a character above U+0020 (or is empty). */
  predicate Unpadded(s: string)
  {
    s != [] ==> s[0] > ' ' && s[|s| - 1] > ' '
  }

  lemma TrimNoPadding(s: string)
    requires Unpadded(s)
    ensures Trim(s) == s
  {
  }

  lemma {:induction false} TrimEndKeepsFirst(s: string)
    requires s != [] && s[0] > ' '
    ensures TrimEnd(s) != []
    decreases |s|
  {
    if s[|s| - 1] <= ' ' {
      TrimEndKeepsFirst(s[..|s| - 1]);
    }
  }

  /** A text that starts with a character above U+0020 is not blank. */
  lemma TrimNotBlank(s: string)
    requires s != [] && s[0] > ' '
    ensures Trim(s) != ""
  {
    TrimEndKeepsFirst(s);
  }

  // ---------------------------------------------------------------- split

  /** Every piece between commas, empty pieces included. */
  function SplitAll(s: string): (r: seq<string>)
    ensures |r| >= 1
    ensures forall i :: 0 <= i < |r| ==> ',' !in r[i]
    decreases |s|
  {
    if s == [] then [""]
    else
      var rest := SplitAll(s[1..]);
      if s[0] == ',' then [""] + rest
      else [[s[0]] + rest[0]] + rest[1..]
  }

  function DropTrailingEmpty(p: seq<string>): (r: seq<string>)
    ensures |r| <= |p| && r == p[..|r|]
    ensures r != [] ==> r[|r| - 1] != ""
    decreases |p|
  {
    if p != [] && p[|p| - 1] == "" then DropTrailingEmpty(p[..|p| - 1]) else p
  }

  /**
   * `s.split(",")`: a string without a comma is its own single piece;
   * otherwise the pieces between commas with trailing empty pieces removed.
   */
  function Split(s: string): (r: seq<string>)
  {
    if ',' !in s then [s] else DropTrailingEmpty(SplitAll(s))
  }

  /** No piece of a split holds a comma, and a split into several pieces does not end with an empty one. */
  lemma SplitPieces(s: string)
    ensures forall i :: 0 <= i < |Split(s)| ==> ',' !in Split(s)[i]
    ensures |Split(s)| >= 2 ==> Split(s)[|Split(s)| - 1] != ""
  {
    if ',' in s {
      var all := SplitAll(s);
      var r := DropTrailingEmpty(all);
      forall i | 0 <= i < |r| ensures ',' !in r[i] {
        assert r[i] == all[i];
      }
    }
  }

  /** The pieces joined back with commas (the CSV line a row is written as). */
  function Join(fields: seq<string>): string
    requires |fields| >= 1
    decreases |fields|
  {
    if |fields| == 1 then fields[0] else fields[0] + "," + Join(fields[1..])
  }

  predicate NoCommas(fields: seq<string>)
  {
    forall i :: 0 <= i < |fields| ==> ',' !in fields[i]
  }

  lemma {:induction false} SplitAllNoComma(s: string)
    requires ',' !in s
    ensures SplitAll(s) == [s]
    decreases |s|
  {
    if s != [] {
      SplitAllNoComma(s[1..]);
      assert [s[0]] + s[1..] == s;
    }
  }

  /** A comma between two texts separates the first from all pieces of the second. */
  lemma {:induction false} SplitAllPrefix(a: string, b: string)
    requires ',' !in a
    ensures SplitAll(a + "," + b) == [a] + SplitAll(b)
    decreases |a|
  {
    if a != [] {
      assert (a + "," + b)[1..] == a[1..] + "," + b;
      SplitAllPrefix(a[1..], b);
      assert [a[0]] + a[1..] == a;
    } else {
      assert a + "," + b == [','] + b;
      assert ([','] + b)[1..] == b;
    }
  }

  lemma {:induction false} SplitAllJoin(fields: seq<string>)
    requires |fields| >= 1 && NoCommas(fields)
    ensures SplitAll(Join(fields)) == fields
    decreases |fields|
  {
    if |fields| == 1 {
      SplitAllNoComma(fields[0]);
    } else {
      SplitAllJoin(fields[1..]);
      SplitAllPrefix(fields[0], Join(fields[1..]));
      assert fields == [fields[0]] + fields[1..];
    }
  }

  /**
   * Splitting a line written by `Join` gives the fields back, as long as no
   * field holds a comma and the last one is not empty (Java drops trailing
   * empty pieces).
   */
  lemma SplitJoin(fields: seq<string>)
    requires |fields| >= 2 && NoCommas(fields) && fields[|fields| - 1] != ""
    ensures Split(Join(fields)) == fields
  {
    SplitAllJoin(fields);
    var s := Join(fields);
    assert s == fields[0] + "," + Join(fields[1..]);
    assert s[|fields[0]|] == ',';
    assert ',' in s;
  }

  /** A text without commas is a single piece. */
  lemma SplitNoComma(s: string)
    requires ',' !in s
    ensures Split(s) == [s]
  {
  }

  lemma {:induction false} JoinNoComma(fields: seq<string>)
    requires |fields| >= 1
    ensures ',' in Join(fields) <==> |fields| >= 2 || ',' in fields[0]
    decreases |fields|
  {
    if |fields| > 1 {
      var s := Join(fields);
      assert s == fields[0] + "," + Join(fields[1..]);
      assert s[|fields[0]|] == ',';
    }
  }

  // ---------------------------------------------------------------- case

  function UpperChar(c: char): char
  {
    if 'a' <= c <= 'z' then (c as int - 'a' as int + 'A' as int) as char else c
  }

  /** `toUpperCase()` on the ASCII letters. */
  function ToUpper(s: string): (r: string)
    ensures |r| == |s|
    ensures forall i :: 0 <= i < |s| ==> r[i] == UpperChar(s[i])
  {
    seq(|s|, i requires 0 <= i < |s| => UpperChar(s[i]))
  }

  lemma ToUpperIdempotent(s: string)
    ensures ToUpper(ToUpper(s)) == ToUpper(s)
  {
  }

  /** Upper-casing neither adds nor removes commas. */
  lemma ToUpperKeepsCommas(s: string)
    ensures ',' in ToUpper(s) <==> ',' in s
  {
    if ',' in s {
      var i :| 0 <= i < |s| && s[i] == ',';
      assert ToUpper(s)[i] == ',';
    }
    if ',' in ToUpper(s) {
      var i :| 0 <= i < |s| && ToUpper(s)[i] == ',';
      assert s[i] == ',';
    }
  }

  /** `a.equalsIgnoreCase(b)` on the ASCII letters. */
  predicate EqualsIgnoreCase(a: string, b: string)
  {
    |a| == |b| && forall i :: 0 <= i < |a| ==> UpperChar(a[i]) == UpperChar(b[i])
  }

  // ---------------------------------------------------------------- padding

  /** `String.format("%-Ns", s)`: left-justified, padded with spaces to `width`, never cut. */
  function PadRight(s: string, width: nat): (r: string)
  {
    if |s| < width then s + seq(width - |s|, _ => ' ') else s
  }

  // ------------------------------------------------------------ no commas in formatted values

  lemma IntToStringNoComma(n: int)
    ensures ',' !in IntToString(n)
  {
    var s := IntToString(n);
    var w := NatToString(if n < 0 then -n else n);
    forall i | 0 <= i < |w| ensures w[i] != ',' { assert IsDigit(w[i]); }
    if n < 0 { assert s == "-" + w; } else { assert s == w; }
  }

  lemma FormatCentsNoComma(cents: int)
    ensures ',' !in FormatCents(cents)
  {
    var a := Abs(cents);
    var w := NatToString(a / 100);
    forall i | 0 <= i < |w| ensures w[i] != ',' { assert IsDigit(w[i]); }
    assert FormatCents(cents) == (if cents < 0 then "-" else "") + (w + "." + CentsDigits(a));
  }

  /** `Integer.toString` is never empty and starts and ends with a sign or a digit. */
  lemma IntToStringUnpadded(n: int)
    ensures IntToString(n) != [] && Unpadded(IntToString(n))
  {
    var w := NatToString(if n < 0 then -n else n);
    assert IsDigit(w[0]) && IsDigit(w[|w| - 1]);
    if n < 0 { assert IntToString(n) == "-" + w; }
  }

  /** `"%.2f"` is never empty and starts with a sign or a digit and ends with a digit. */
  lemma FormatCentsUnpadded(cents: int)
    ensures FormatCents(cents) != [] && Unpadded(FormatCents(cents))
  {
    var a := Abs(cents);
    var w := NatToString(a / 100);
    assert IsDigit(w[0]);
    var s := FormatCents(cents);
    assert s == (if cents < 0 then "-" else "") + (w + "." + CentsDigits(a));
    assert s[|s| - 1] == CentsDigits(a)[1];
  }

  lemma PadRightNoComma(s: string, width: nat)
    requires ',' !in s
    ensures ',' !in PadRight(s, width)
  {
    var r := PadRight(s, width);
    forall i | 0 <= i < |r| ensures r[i] != ',' {
      if i < |s| { assert r[i] == r[..|s|][i]; }
    }
  }
}
