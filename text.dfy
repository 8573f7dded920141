/** Character and string operations the ledger borrows from the Java runtime:
    ASCII case folding (String.toUpperCase, String.equalsIgnoreCase),
    String.split on one separator character, simplified Integer.parseInt and
    Double.parseDouble, and the padding and fixed-point rendering that
    String.format performs for the report. */
module Text {

  datatype Option<T> = None | Some(value: T)

  // ---------------------------------------------------------------------------
  // Case folding

  function UpperChar(c: char): char
  {
    if 'a' <= c <= 'z' then (c as int - 32) as char else c
  }

  /** String.toUpperCase restricted to ASCII letters. */
  function Upper(s: string): (r: string)
    ensures |r| == |s|
  {
    if s == [] then [] else [UpperChar(s[0])] + Upper(s[1..])
  }

  /** Upper works character by character. */
  lemma {:induction false} UpperAt(s: string)
    ensures forall i :: 0 <= i < |s| ==> Upper(s)[i] == UpperChar(s[i])
  {
    if s != [] {
      UpperAt(s[1..]);
      assert forall i :: 1 <= i < |s| ==> Upper(s)[i] == Upper(s[1..])[i - 1];
    }
  }

  /** String.equalsIgnoreCase restricted to ASCII letters. */
  predicate EqualsIgnoreCase(a: string, b: string)
  {
    Upper(a) == Upper(b)
  }

  lemma EqualsIgnoreCaseCharwise(a: string, b: string)
    ensures EqualsIgnoreCase(a, b) <==>
              |a| == |b| && forall i :: 0 <= i < |a| ==> UpperChar(a[i]) == UpperChar(b[i])
  {
    UpperAt(a);
    UpperAt(b);
    if |a| == |b| && forall i :: 0 <= i < |a| ==> UpperChar(a[i]) == UpperChar(b[i]) {
      assert forall i :: 0 <= i < |a| ==> Upper(a)[i] == Upper(b)[i];
    }
  }

  // ---------------------------------------------------------------------------
  // String.split(",")

  /** The pieces between occurrences of `sep`, including empty ones: one more
      piece than there are separators. */
  function Pieces(s: string, sep: char): (r: seq<string>)
    ensures |r| >= 1
  {
    if s == [] then [""]
    else
      var rest := Pieces(s[1..], sep);
      if s[0] == sep then [""] + rest else [[s[0]] + rest[0]] + rest[1..]
  }

  /** The inverse of Pieces: the pieces joined back with `sep`. */
  function Join(parts: seq<string>, sep: char): string
  {
    if parts == [] then ""
    else if |parts| == 1 then parts[0]
    else parts[0] + [sep] + Join(parts[1..], sep)
  }

  function DropTrailingEmpty(parts: seq<string>): (r: seq<string>)
    ensures |r| <= |parts| && r == parts[..|r|]
    ensures r == [] || r[|r| - 1] != ""
    ensures forall i :: |r| <= i < |parts| ==> parts[i] == ""
  {
    if parts == [] then []
    else if parts[|parts| - 1] == "" then DropTrailingEmpty(parts[..|parts| - 1])
    else parts
  }

  /** Java's String.split with a one-character literal pattern: a string
      without the separator splits into itself; otherwise the pieces with
      every trailing empty piece dropped. */
  function Split(s: string, sep: char): seq<string>
  {
    if sep !in s then [s] else DropTrailingEmpty(Pieces(s, sep))
  }

  lemma {:induction false} PiecesHaveNoSeparator(s: string, sep: char)
    ensures forall i :: 0 <= i < |Pieces(s, sep)| ==> sep !in Pieces(s, sep)[i]
  {
    if s != [] {
      PiecesHaveNoSeparator(s[1..], sep);
    }
  }

  /** Splitting into raw pieces loses nothing: joining them gives back the
      original string. */
  lemma {:induction false} JoinPieces(s: string, sep: char)
    ensures Join(Pieces(s, sep), sep) == s
  {
    if s != [] {
      var rest := Pieces(s[1..], sep);
      JoinPieces(s[1..], sep);
      if s[0] == sep {
        assert Pieces(s, sep) == [""] + rest;
        assert ([""] + rest)[1..] == rest;
      } else {
        var p := Pieces(s, sep);
        assert p == [[s[0]] + rest[0]] + rest[1..];
        if |rest| == 1 {
          assert p == [[s[0]] + rest[0]];
        } else {
          assert p[1..] == rest[1..];
          assert Join(rest, sep) == rest[0] + [sep] + Join(rest[1..], sep);
        }
      }
    }
  }

  lemma {:induction false} PiecesAppendSeparator(s: string, sep: char)
    ensures Pieces(s + [sep], sep) == Pieces(s, sep) + [""]
  {
    if s == [] {
      assert Pieces([sep], sep) == [""] + Pieces([], sep);
    } else {
      assert (s + [sep])[1..] == s[1..] + [sep];
      PiecesAppendSeparator(s[1..], sep);
    }
  }

  /** A trailing separator on a non-empty string adds no field: the empty
      piece after it is dropped. */
  lemma TrailingSeparatorAddsNoField(s: string, sep: char)
    requires s != ""
    ensures Split(s + [sep], sep) == Split(s, sep)
  {
    PiecesAppendSeparator(s, sep);
    assert sep in s + [sep];
    var p := Pieces(s, sep);
    assert (p + [""])[..|p|] == p;
    if sep !in s {
      assert Pieces(s, sep) == [s] by { PiecesWithoutSeparator(s, sep); }
    }
  }

  lemma {:induction false} PiecesWithoutSeparator(s: string, sep: char)
    requires sep !in s
    ensures Pieces(s, sep) == [s]
  {
    if s != [] {
      assert sep !in s[1..];
      PiecesWithoutSeparator(s[1..], sep);
      assert [s[0]] + s[1..] == s;
    }
  }

  lemma {:induction false} PiecesOfFieldThenRest(a: string, sep: char, s: string)
    requires sep !in a
    ensures Pieces(a + [sep] + s, sep) == [a] + Pieces(s, sep)
  {
    if a == [] {
      assert a + [sep] + s == [sep] + s;
    } else {
      assert (a + [sep] + s)[1..] == a[1..] + [sep] + s;
      PiecesOfFieldThenRest(a[1..], sep, s);
      assert [a[0]] + a[1..] == a;
    }
  }

  /** The other half of the round trip: separator-free fields joined with
      `sep` split back into the same fields. */
  lemma {:induction false} PiecesOfJoin(parts: seq<string>, sep: char)
    requires |parts| >= 1
    requires forall i :: 0 <= i < |parts| ==> sep !in parts[i]
    ensures Pieces(Join(parts, sep), sep) == parts
  {
    if |parts| == 1 {
      PiecesWithoutSeparator(parts[0], sep);
    } else {
      PiecesOfJoin(parts[1..], sep);
      PiecesOfFieldThenRest(parts[0], sep, Join(parts[1..], sep));
      assert [parts[0]] + parts[1..] == parts;
    }
  }

  /** Split undoes Join for two or more separator-free fields whose last one is
      not empty. */
  lemma SplitJoin(parts: seq<string>, sep: char)
    requires |parts| >= 2 && parts[|parts| - 1] != ""
    requires forall i :: 0 <= i < |parts| ==> sep !in parts[i]
    ensures Split(Join(parts, sep), sep) == parts
  {
    PiecesOfJoin(parts, sep);
    var line := Join(parts, sep);
    assert line == parts[0] + [sep] + Join(parts[1..], sep);
    assert line[|parts[0]|] == sep;
  }

  // ---------------------------------------------------------------------------
  // Decimal digits

  predicate IsDigit(c: char) { '0' <= c <= '9' }

  predicate AllDigits(s: string) { forall i :: 0 <= i < |s| ==> IsDigit(s[i]) }

  function DigitValue(c: char): nat
    requires IsDigit(c)
  {
    c as int - '0' as int
  }

  function DigitChar(d: nat): (c: char)
    requires d < 10
    ensures IsDigit(c) && DigitValue(c) == d
  {
    ('0' as int + d) as char
  }

  /** The value of a string of decimal digits, most significant first. */
  function DigitsValue(s: string): nat
    requires AllDigits(s)
  {
    if s == [] then 0 else 10 * DigitsValue(s[..|s| - 1]) + DigitValue(s[|s| - 1])
  }

  /** The shortest decimal numeral of n. */
  function NatToString(n: nat): (s: string)
    ensures |s| >= 1 && AllDigits(s)
  {
    (if n < 10 then "" else NatToString(n / 10)) + [DigitChar(n % 10)]
  }

  function IntToString(n: int): string
  {
    if n < 0 then "-" + NatToString(-n) else NatToString(n)
  }

  lemma DigitsValueSnoc(s: string, c: char)
    requires AllDigits(s) && IsDigit(c)
    ensures AllDigits(s + [c]) && DigitsValue(s + [c]) == 10 * DigitsValue(s) + DigitValue(c)
  {
    assert (s + [c])[..|s|] == s;
  }

  /** Reading the numeral of n back gives n. */
  lemma {:induction false} DigitsValueOfNatToString(n: nat)
    ensures DigitsValue(NatToString(n)) == n
  {
    var q, d := n / 10, n % 10;
    var front := if n < 10 then "" else NatToString(q);
    DigitsValueSnoc(front, DigitChar(d));
    if n >= 10 {
      DigitsValueOfNatToString(q);
    }
    assert n == 10 * q + d;
  }

  // ---------------------------------------------------------------------------
  // Integer.parseInt and Double.parseDouble, simplified

  const MinInt32: int := -0x8000_0000
  const MaxInt32: int := 0x7fff_ffff

  /** Integer.parseInt over ASCII digits: an optional '+' or '-', then one or
      more digits, and a value that fits in 32 bits. */
  function ParseInt(s: string): (r: Option<int>)
    ensures r.Some? ==> MinInt32 <= r.value <= MaxInt32
  {
    if s == [] then None
    else
      var digits := if s[0] == '-' || s[0] == '+' then s[1..] else s;
      if digits == [] || !AllDigits(digits) then None
      else
        var v := if s[0] == '-' then -(DigitsValue(digits) as int) else DigitsValue(digits) as int;
        if MinInt32 <= v <= MaxInt32 then Some(v) else None
  }

  /** parseInt reads back every 32-bit numeral IntToString writes. */
  lemma ParseIntOfIntToString(n: int)
    requires MinInt32 <= n <= MaxInt32
    ensures ParseInt(IntToString(n)) == Some(n)
  {
    var m: nat := if n < 0 then -n else n;
    var digits := NatToString(m);
    DigitsValueOfNatToString(m);
    assert IsDigit(digits[0]);
    if n < 0 {
      var s := "-" + digits;
      assert s[0] == '-' && s[1..] == digits;
      ParseIntOfDigits(s, digits);
    } else {
      ParseIntOfDigits(digits, digits);
    }
  }

  /** parseInt of an optionally signed digit string whose value fits. */
  lemma ParseIntOfDigits(s: string, digits: string)
    requires digits != [] && AllDigits(digits) && s != []
    requires s == digits || (s == [s[0]] + digits && (s[0] == '-' || s[0] == '+'))
    requires var v := DigitsValue(digits) as int;
             MinInt32 <= (if s[0] == '-' then -v else v) <= MaxInt32
    ensures var v := DigitsValue(digits) as int;
            ParseInt(s) == Some(if s[0] == '-' then -v else v)
  {
    if s != digits {
      assert s[1..] == digits;
    }
  }

  /** Index of the first occurrence of c in s, or |s| when there is none. */
  function IndexOf(s: string, c: char): (k: nat)
    ensures k <= |s|
    ensures k < |s| ==> s[k] == c
    ensures forall j :: 0 <= j < k ==> s[j] != c
  {
    if s == [] then 0 else if s[0] == c then 0 else 1 + IndexOf(s[1..], c)
  }

  /** A plain decimal numeral without sign: digits, optionally a '.' and more
      digits, with at least one digit in all ("30", "30.", ".5", "45000.00"). */
  function ParseUnsignedDecimal(s: string): (r: Option<real>)
    ensures r.Some? ==> r.value >= 0.0
  {
    var k := IndexOf(s, '.');
    if k == |s| then
      if s == [] || !AllDigits(s) then None else Some(DigitsValue(s) as real)
    else
      var whole, fraction := s[..k], s[k + 1..];
      if |whole| + |fraction| == 0 || !AllDigits(whole) || !AllDigits(fraction) then None
      else Some(DigitsValue(whole) as real + FractionValue(fraction))
  }

  /** The value of the digits after a decimal point: ".d1d2..." is
      (d1 + (d2 + ...) / 10) / 10. */
  function FractionValue(f: string): (r: real)
    requires AllDigits(f)
    ensures 0.0 <= r < 1.0
  {
    if f == [] then 0.0 else (DigitValue(f[0]) as real + FractionValue(f[1..])) / 10.0
  }

  /** Double.parseDouble restricted to an optional sign and a plain decimal
      numeral. */
  function ParseDecimal(s: string): Option<real>
  {
    if s != [] && (s[0] == '-' || s[0] == '+') then
      match ParseUnsignedDecimal(s[1..])
      case None => None
      case Some(v) => Some(if s[0] == '-' then -v else v)
    else ParseUnsignedDecimal(s)
  }

  lemma ParseDecimalOfNatToString(n: nat)
    ensures ParseDecimal(NatToString(n)) == Some(n as real)
  {
    var s := NatToString(n);
    DigitsValueOfNatToString(n);
    ParseUnsignedDecimalOfDigits(s);
    UnsignedNumeral(s);
  }

  /** A numeral starting with a digit carries no sign. */
  lemma UnsignedNumeral(s: string)
    requires s != [] && IsDigit(s[0])
    ensures ParseDecimal(s) == ParseUnsignedDecimal(s)
  {
  }

  /** A numeral without a point parses to its value. */
  lemma ParseUnsignedDecimalOfDigits(s: string)
    requires s != [] && AllDigits(s)
    ensures ParseUnsignedDecimal(s) == Some(DigitsValue(s) as real)
  {
    assert forall i :: 0 <= i < |s| ==> s[i] != '.';
    assert IndexOf(s, '.') == |s|;
  }

  /** A plain decimal numeral as a record writer produces it: the whole part
      in shortest form, then, when there are fraction digits, a point and
      those digits ("30", "45000.00"). */
  datatype Numeral = Numeral(whole: nat, fraction: string)

  function NumeralText(n: Numeral): string
  {
    NatToString(n.whole) + (if n.fraction == [] then "" else "." + n.fraction)
  }

  function NumeralValue(n: Numeral): real
    requires AllDigits(n.fraction)
  {
    n.whole as real + FractionValue(n.fraction)
  }

  /** parseDouble reads back every numeral with digits after the point as
      their value: "45000.00" is 45000 and "30.5" is 30.5. */
  lemma ParseDecimalOfNumeral(n: Numeral)
    requires AllDigits(n.fraction)
    ensures ParseDecimal(NumeralText(n)) == Some(NumeralValue(n))
  {
    if n.fraction == [] {
      assert NumeralText(n) == NatToString(n.whole);
      ParseDecimalOfNatToString(n.whole);
    } else {
      ParseNumeralWithPoint(n);
    }
  }

  /** A numeral's text is never empty and holds nothing but digits and the point. */
  lemma NumeralTextLacks(n: Numeral, c: char)
    requires AllDigits(n.fraction) && !IsDigit(c) && c != '.'
    ensures NumeralText(n) != [] && c !in NumeralText(n)
  {
    var digits := NatToString(n.whole);
    var s := NumeralText(n);
    if n.fraction == [] {
      assert s == digits;
    } else {
      assert s == digits + ("." + n.fraction);
    }
    forall i | 0 <= i < |s|
      ensures s[i] != c
    {
      if i < |digits| {
        assert s[i] == digits[i];
      } else if i > |digits| {
        assert s[i] == n.fraction[i - |digits| - 1];
      }
    }
  }

  lemma ParseNumeralWithPoint(n: Numeral)
    requires AllDigits(n.fraction) && n.fraction != []
    ensures ParseDecimal(NumeralText(n)) == Some(NumeralValue(n))
  {
    var digits := NatToString(n.whole);
    NumeralTextWithPoint(n);
    DigitsValueOfNatToString(n.whole);
    ParseDecimalWithPoint(NumeralText(n), digits, n.whole, n.fraction);
  }

  /** The text of a numeral with a fraction: its whole digits, a point, its fraction digits. */
  lemma NumeralTextWithPoint(n: Numeral)
    requires n.fraction != []
    ensures NumeralText(n) == NatToString(n.whole) + ("." + n.fraction)
  {
  }

  /** A numeral that starts with digits carries no sign, and its value is
      the value of the whole part plus the fraction. */
  lemma ParseDecimalWithPoint(s: string, digits: string, whole: nat, fraction: string)
    requires s == digits + ("." + fraction)
    requires digits != [] && AllDigits(digits) && AllDigits(fraction)
    requires DigitsValue(digits) == whole
    ensures ParseDecimal(s) == Some(whole as real + FractionValue(fraction))
  {
    assert s[0] == digits[0];
    UnsignedNumeral(s);
    ParseAtPoint(digits, fraction);
  }

  lemma ParseAtPoint(whole: string, fraction: string)
    requires whole != [] && AllDigits(whole) && AllDigits(fraction)
    ensures ParseUnsignedDecimal(whole + ("." + fraction))
            == Some(DigitsValue(whole) as real + FractionValue(fraction))
  {
    SplitAtPoint(whole, fraction);
  }

  /** Where parseDouble cuts digits, a point and more digits. */
  lemma SplitAtPoint(whole: string, fraction: string)
    requires AllDigits(whole)
    ensures var s := whole + ("." + fraction);
            IndexOf(s, '.') == |whole| && s[..|whole|] == whole && s[|whole| + 1..] == fraction
  {
    var s := whole + ("." + fraction);
    assert '.' !in whole by {
      assert forall i :: 0 <= i < |whole| ==> whole[i] != '.';
    }
    IndexOfAfter(whole, '.', fraction);
    assert s[..|whole|] == whole;
    assert s[|whole| + 1..] == fraction;
  }

  /** The first c of a + ([c] + b) is the one after a, when a holds none. */
  lemma IndexOfAfter(a: string, c: char, b: string)
    requires c !in a
    ensures IndexOf(a + ([c] + b), c) == |a|
  {
    var s := a + ([c] + b);
    assert s[|a|] == c;
  }

  // ---------------------------------------------------------------------------
  // String.format padding and fixed-point rendering

  function Spaces(n: nat): string
  {
    seq(n, _ => ' ')
  }

  /** "%-ws": s followed by spaces up to width w. */
  function PadRight(s: string, w: nat): (r: string)
    ensures |r| == if |s| < w then w else |s|
  {
    if |s| < w then s + Spaces(w - |s|) else s
  }

  /** "%ws": spaces up to width w followed by s. */
  function PadLeft(s: string, w: nat): (r: string)
    ensures |r| == if |s| < w then w else |s|
  {
    if |s| < w then Spaces(w - |s|) + s else s
  }

  /** Left-justification never truncates: s comes first, then only spaces. */
  lemma PadRightKeeps(s: string, w: nat)
    ensures PadRight(s, w)[..|s|] == s
    ensures forall i :: |s| <= i < |PadRight(s, w)| ==> PadRight(s, w)[i] == ' '
  {
  }

  /** Right-justification never truncates: only spaces, then s. */
  lemma PadLeftKeeps(s: string, w: nat)
    ensures var r := PadLeft(s, w); r[|r| - |s|..] == s
    ensures var r := PadLeft(s, w); forall i :: 0 <= i < |r| - |s| ==> r[i] == ' '
  {
  }

  /** n without its last d decimal digits: n / 10^d. */
  function DropDigits(n: nat, d: nat): nat
  {
    if d == 0 then n else DropDigits(n / 10, d - 1)
  }

  /** The last d decimal digits of n, leading zeros included: n % 10^d
      written in exactly d digits. */
  function LastDigits(n: nat, d: nat): (r: string)
    ensures |r| == d
  {
    if d == 0 then "" else LastDigits(n / 10, d - 1) + [DigitChar(n % 10)]
  }

  /** x rounded half-up to `decimals` places, as a count of 10^-decimals units
      of its magnitude. */
  function ScaledMagnitude(x: real, decimals: nat): (n: nat)
  {
    var m := if x < 0.0 then -x else x;
    var n := (Shifted(m, decimals) + 0.5).Floor;
    if n < 0 then 0 else n
  }

  /** m * 10^d */
  function Shifted(m: real, d: nat): real
  {
    if d == 0 then m else Shifted(m, d - 1) * 10.0
  }

  /** "%.<decimals>f" of an exact real, rounding half up. */
  function FormatFixed(x: real, decimals: nat): string
  {
    var n := ScaledMagnitude(x, decimals);
    (if x < 0.0 then "-" else "")
      + NatToString(DropDigits(n, decimals))
      + (if decimals == 0 then "" else "." + LastDigits(n, decimals))
  }

  /** d zeros. */
  function Zeros(d: nat): (r: string)
    ensures |r| == d
  {
    if d == 0 then "" else Zeros(d - 1) + "0"
  }

  /** n * 10^d */
  function Scaled(n: nat, d: nat): nat
  {
    if d == 0 then n else Scaled(n, d - 1) * 10
  }

  /** n shifted left by d places has n in front and d zeros behind. */
  lemma {:induction false} ScaledDigits(n: nat, d: nat)
    ensures Shifted(n as real, d) == Scaled(n, d) as real
    ensures DropDigits(Scaled(n, d), d) == n
    ensures LastDigits(Scaled(n, d), d) == Zeros(d)
  {
    if d > 0 {
      ScaledDigits(n, d - 1);
      var m := Scaled(n, d - 1);
      assert Scaled(n, d) / 10 == m && Scaled(n, d) % 10 == 0;
    }
  }

  /** A whole number prints as its numeral, with only zeros after the point:
      "%.2f" of 45000 is "45000.00" and "%3.0f" of 30 is "30". */
  lemma FormatFixedOfWhole(n: nat, decimals: nat)
    ensures FormatFixed(n as real, decimals)
            == NatToString(n) + (if decimals == 0 then "" else "." + Zeros(decimals))
  {
    var k := ScaledMagnitude(n as real, decimals);
    ScaledMagnitudeOfWhole(n, decimals);
    ScaledDigits(n, decimals);
    var tail := if decimals == 0 then "" else "." + LastDigits(k, decimals);
    var digits := NatToString(n);
    assert "" + digits == digits;
    assert FormatFixed(n as real, decimals) == ("" + digits) + tail;
  }

  lemma ScaledMagnitudeOfWhole(n: nat, decimals: nat)
    ensures ScaledMagnitude(n as real, decimals) == Scaled(n, decimals)
  {
    var k := Scaled(n, decimals);
    ScaledDigits(n, decimals);
    assert (k as real + 0.5).Floor == k;
  }
}
