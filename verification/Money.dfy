/** The money printer (apps/web/src/sceneVariants.ts) and the number parser that
    reads such texts back (apps/web/src/productImport.ts), over exact reals. */
module Money {
  import opened Wrappers
  import opened Reals

  // ---------------------------------------------------------------------
  // Digits
  // ---------------------------------------------------------------------

  predicate IsDigit(c: char) { '0' <= c <= '9' }

  predicate AllDigits(s: string) { forall i | 0 <= i < |s| :: IsDigit(s[i]) }

  function DigitValue(c: char): nat
    requires IsDigit(c)
  { c as int - '0' as int }

  function DigitChar(d: nat): char
    requires d < 10
  { ('0' as int + d) as char }

  function Decimal(n: nat): (s: string)
    ensures s != "" && AllDigits(s) && Value(s) == n
  {
    if n < 10 then [DigitChar(n)] else Decimal(n / 10) + [DigitChar(n % 10)]
  }

  function Value(s: string): nat
    requires AllDigits(s)
  {
    if s == "" then 0 else Value(s[..|s| - 1]) * 10 + DigitValue(s[|s| - 1])
  }

  function Pow10(k: nat): (p: nat)
    ensures p >= 1
  { if k == 0 then 1 else 10 * Pow10(k - 1) }

  /** The digits read behind a decimal separator. */
  function Fraction(s: string): real
    requires AllDigits(s)
  { Value(s) as real / Pow10(|s|) as real }

  // ---------------------------------------------------------------------
  // formatMoney
  // ---------------------------------------------------------------------

  function Magnitude(amount: real): real { if amount < 0.0 then -amount else amount }

  /** Math.round(Math.abs(amount) * 100). */
  function Cents(amount: real): (c: nat)
    ensures -0.5 <= Magnitude(amount) * 100.0 - c as real < 0.5
  { (Magnitude(amount) * 100.0 + 0.5).Floor }

  /** The amount the text stands for: rounded to cents, ties away from zero. */
  function Rounded(amount: real): real {
    if amount < 0.0 then -(Cents(amount) as real / 100.0) else Cents(amount) as real / 100.0
  }

  /** (\d{3})+(?!\d) matches at the start of s. */
  predicate ThreesFollow(s: string) {
    |s| >= 3 && AllDigits(s[..3]) && (|s| == 3 || !IsDigit(s[3]) || ThreesFollow(s[3..]))
  }

  predicate IsWordChar(c: char) {
    IsDigit(c) || 'a' <= c <= 'z' || 'A' <= c <= 'Z' || c == '_'
  }

  /** \B at position i: both sides are word characters, or neither is. */
  predicate InsideWord(s: string, i: nat)
    requires i <= |s|
  {
    (i > 0 && IsWordChar(s[i - 1])) == (i < |s| && IsWordChar(s[i]))
  }

  /** s[from..] with a space at every position where the grouping expression matches. */
  function Grouped(s: string, from: nat): string
    requires from <= |s|
    decreases |s| - from
  {
    (if InsideWord(s, from) && ThreesFollow(s[from..]) then " " else "")
    + if from == |s| then "" else [s[from]] + Grouped(s, from + 1)
  }

  function Decimals(cents: nat): string {
    if cents % 100 == 0 then "" else [',', DigitChar(cents % 100 / 10), DigitChar(cents % 100 % 10)]
  }

  function Symbol(currency: string): string {
    if currency == "RUB" then " \U{20BD}" else " " + currency
  }

  function FormatMoney(amount: real, currency: string): string {
    var cents := Cents(amount);
    (if amount < 0.0 then "-" else "") + Grouped(Decimal(cents / 100), 0) + Decimals(cents) + Symbol(currency)
  }

  // ---------------------------------------------------------------------
  // parseNumeric
  // ---------------------------------------------------------------------

  datatype DimensionValue = Number(value: real) | Text(text: string) | Absent

  /** The characters \s stands for. */
  predicate IsSpace(c: char) {
    || '\t' <= c <= '\r' || c == ' ' || c == '\U{00A0}' || c == '\U{1680}' || '\U{2000}' <= c <= '\U{200A}'
    || c == '\U{2028}' || c == '\U{2029}' || c == '\U{202F}' || c == '\U{205F}' || c == '\U{3000}' || c == '\U{FEFF}'
  }

  function Strip(s: string): string {
    if s == "" then "" else if IsSpace(s[0]) then Strip(s[1..]) else [s[0]] + Strip(s[1..])
  }

  /** Length of the longest run of digits at the start of s. */
  function Run(s: string): (n: nat)
    ensures n <= |s| && AllDigits(s[..n]) && (n < |s| ==> !IsDigit(s[n]))
  {
    if s == "" || !IsDigit(s[0]) then 0
    else
      var n := Run(s[1..]);
      AllDigitsCons(s[0], s[1..][..n]);
      assert s[..n + 1] == [s[0]] + s[1..][..n];
      assert n + 1 < |s| ==> s[n + 1] == s[1..][n];
      n + 1
  }

  lemma AllDigitsCons(c: char, s: string)
    requires IsDigit(c) && AllDigits(s)
    ensures AllDigits([c] + s)
  {
  }

  predicate IsSeparator(c: char) { c == '.' || c == ',' }

  /** s starts with a separator followed by a digit. */
  predicate HasFraction(s: string) {
    |s| >= 2 && IsSeparator(s[0]) && IsDigit(s[1])
  }

  /** What (?:[.,]\d+)? adds. */
  function FractionAt(s: string): real {
    if HasFraction(s) then Fraction(s[1..][..Run(s[1..])]) else 0.0
  }

  /** The value of \d+(?:[.,]\d+)? at the start of s. */
  function Unsigned(s: string): Option<real> {
    var n := Run(s);
    if n == 0 then None else Some(Value(s[..n]) as real + FractionAt(s[n..]))
  }

  function NumberAt(s: string): Option<real> {
    if s != "" && s[0] == '-' && Unsigned(s[1..]).Some? then Some(-Unsigned(s[1..]).value) else Unsigned(s)
  }

  /** The leftmost match. */
  function FirstNumber(s: string): Option<real> {
    if NumberAt(s).Some? then NumberAt(s) else if s == "" then None else FirstNumber(s[1..])
  }

  function ParseNumeric(input: DimensionValue): Option<real> {
    match input
    case Number(value) => Some(value)
    case Text(text) => FirstNumber(Strip(text))
    case Absent => None
  }

  // ---------------------------------------------------------------------
  // Missing, never zero
  // ---------------------------------------------------------------------

  predicate HasDigit(s: string) { exists i :: 0 <= i < |s| && IsDigit(s[i]) }

  /** A text is unparseable exactly when no digit is in it. */
  lemma ParseFailsIff(text: string)
    ensures ParseNumeric(Text(text)).None? <==> !HasDigit(text)
  {
    hide HasDigit;
    StripKeepsDigits(text);
    FirstNumberFailsIff(Strip(text));
  }

  lemma HasDigitCons(c: char, s: string)
    ensures HasDigit([c] + s) <==> IsDigit(c) || HasDigit(s)
  {
    var longer := [c] + s;
    assert longer[0] == c;
    if HasDigit(s) {
      var i :| 0 <= i < |s| && IsDigit(s[i]);
      assert longer[i + 1] == s[i];
    }
  }

  lemma {:induction false} StripKeepsDigits(s: string)
    ensures HasDigit(s) <==> HasDigit(Strip(s))
  {
    hide HasDigit;
    if s != "" {
      StripKeepsDigits(s[1..]);
      assert s == [s[0]] + s[1..];
      HasDigitCons(s[0], s[1..]);
      HasDigitCons(s[0], Strip(s[1..]));
    } else {
      assert Strip(s) == s;
    }
  }

  lemma {:induction false} FirstNumberFailsIff(s: string)
    ensures FirstNumber(s).None? <==> !HasDigit(s)
  {
    if s != "" {
      FirstNumberFailsIff(s[1..]);
      assert s == [s[0]] + s[1..];
      HasDigitCons(s[0], s[1..]);
      if s[0] == '-' && |s| > 1 && IsDigit(s[1]) {
        assert Run(s[1..]) > 0;
      }
    }
  }

  // ---------------------------------------------------------------------
  // What is read
  // ---------------------------------------------------------------------

  /** The text, its white space removed, is noise without a digit, a number, and something that does
      not continue the number. */
  ghost predicate IsNumberAmidNoise(text: string, noise: string, sign: string, whole: string, decimals: string, rest: string) {
    && text == noise + (sign + (whole + (decimals + rest)))
    && !HasDigit(noise) && (sign == "-" || (sign == "" && (noise == "" || noise[|noise| - 1] != '-')))
    && whole != "" && AllDigits(whole)
    && (decimals == "" || (|decimals| > 1 && decimals[0] in {'.', ','} && AllDigits(decimals[1..])))
    && (rest != "" ==> !IsDigit(rest[0]))
    && (decimals == "" && |rest| >= 2 && rest[0] in {'.', ','} ==> !IsDigit(rest[1]))
  }

  /** parseNumeric reads the first number of the text, its sign and decimals included. */
  lemma ReadsFirstNumber(text: string, noise: string, sign: string, whole: string, decimals: string, rest: string)
    requires IsNumberAmidNoise(Strip(text), noise, sign, whole, decimals, rest)
    ensures var size := Value(whole) as real + if decimals == "" then 0.0 else Fraction(decimals[1..]);
            ParseNumeric(Text(text)) == Some(if sign == "-" then -size else size)
  {
    hide Strip, Unsigned, FractionAt, Run, Value, Fraction, FirstNumber;
    var tail := whole + (decimals + rest);
    DecimalsRead(decimals, rest);
    UnsignedAppend(whole, decimals + rest);
    assert IsDigit(tail[0]);
    SignedRead(tail, if sign == "-" then -1.0 else 1.0);
    SkipNoise(noise, sign, tail);
  }

  lemma DecimalsRead(decimals: string, rest: string)
    requires decimals == "" || (|decimals| > 1 && decimals[0] in {'.', ','} && AllDigits(decimals[1..]))
    requires rest != "" ==> !IsDigit(rest[0])
    requires decimals == "" && |rest| >= 2 && rest[0] in {'.', ','} ==> !IsDigit(rest[1])
    ensures Run(decimals + rest) == 0
    ensures FractionAt(decimals + rest) == if decimals == "" then 0.0 else Fraction(decimals[1..])
  {
    hide Fraction;
    if decimals == "" {
      assert decimals + rest == rest;
    } else {
      FractionRead(decimals[0], decimals[1..], rest);
      assert decimals == [decimals[0]] + decimals[1..];
    }
  }

  lemma FractionRead(separator: char, digits: string, rest: string)
    requires separator in {'.', ','} && digits != "" && AllDigits(digits) && (rest != "" ==> !IsDigit(rest[0]))
    ensures Run([separator] + digits + rest) == 0
    ensures FractionAt([separator] + digits + rest) == Fraction(digits)
  {
    hide Fraction;
    var text := [separator] + digits + rest;
    assert text[1..] == digits + rest;
    RunAppend(digits, rest);
    assert (digits + rest)[..|digits|] == digits;
  }

  lemma {:induction false} SkipNoise(noise: string, sign: string, tail: string)
    requires !HasDigit(noise) && (sign == "-" || (sign == "" && (noise == "" || noise[|noise| - 1] != '-')))
    requires tail != "" && IsDigit(tail[0])
    ensures FirstNumber(noise + (sign + tail)) == FirstNumber(sign + tail)
    decreases |noise|
  {
    var t := noise + (sign + tail);
    if noise == "" {
      assert t == sign + tail;
    } else {
      assert IsDigit(noise[0]) ==> HasDigit(noise);
      assert t[1..] == noise[1..] + (sign + tail) && t[0] == noise[0];
      assert noise == [noise[0]] + noise[1..];
      HasDigitCons(noise[0], noise[1..]);
      SkipNoise(noise[1..], sign, tail);
      if t[0] == '-' {
        if |noise| > 1 {
          assert t[1] == noise[1] && !IsDigit(noise[1]);
        } else {
          assert sign == "-" && t[1] == '-';
        }
        assert Run(t[1..]) == 0;
      }
    }
  }

  // ---------------------------------------------------------------------
  // Grouping
  // ---------------------------------------------------------------------

  /** Groups of three split off from the right: only the first may be shorter. */
  function Triples(s: string): string {
    if |s| <= 3 then s else Triples(s[..|s| - 3]) + " " + s[|s| - 3..]
  }

  lemma {:induction false} ThreesFollowIff(s: string)
    requires AllDigits(s)
    ensures ThreesFollow(s) <==> |s| > 0 && |s| % 3 == 0
  {
    if |s| > 3 {
      ThreesFollowIff(s[3..]);
    }
  }

  /** One step of the grouping on a digit string, with the expression resolved. */
  lemma GroupedStep(s: string, from: nat)
    requires AllDigits(s) && from < |s|
    ensures Grouped(s, from)
            == (if from > 0 && (|s| - from) % 3 == 0 then " " else "") + [s[from]] + Grouped(s, from + 1)
    ensures Grouped(s, |s|) == ""
  {
    ThreesFollowIff(s[from..]);
    ThreesFollowIff(s[|s|..]);
  }

  lemma {:induction false} GroupedSplits(s: string, from: nat)
    requires AllDigits(s) && |s| > 3 && from <= |s| - 3
    ensures Grouped(s, from) == Grouped(s[..|s| - 3], from) + " " + s[|s| - 3..]
    decreases |s| - from
  {
    hide Grouped;
    var cut := |s| - 3;
    GroupedStep(s, from);
    if from < cut {
      GroupedSplits(s, from + 1);
      GroupedStep(s[..cut], from);
    } else {
      GroupedStep(s, cut + 1);
      GroupedStep(s, cut + 2);
      GroupedStep(s[..cut], 0);
      assert s[cut..] == [s[cut]] + [s[cut + 1]] + [s[cut + 2]];
    }
  }

  /** The printed integer part consists of groups of exactly three digits after the first. */
  lemma {:induction false} GroupedIsTriples(s: string)
    requires AllDigits(s) && s != ""
    ensures Grouped(s, 0) == Triples(s)
  {
    hide Grouped;
    if |s| > 3 {
      GroupedSplits(s, 0);
      GroupedIsTriples(s[..|s| - 3]);
    } else {
      GroupedStep(s, 0);
      if |s| > 1 { GroupedStep(s, 1); }
      if |s| > 2 { GroupedStep(s, 2); }
      assert s == [s[0]] + s[1..];
    }
  }

  lemma {:induction false} StripAppend(a: string, b: string)
    ensures Strip(a + b) == Strip(a) + Strip(b)
  {
    if a == "" {
      assert a + b == b;
    } else {
      StripAppend(a[1..], b);
      assert (a + b)[1..] == a[1..] + b && (a + b)[0] == a[0];
      assert [a[0]] + (Strip(a[1..]) + Strip(b)) == [a[0]] + Strip(a[1..]) + Strip(b);
    }
  }

  lemma {:induction false} StripDigits(s: string)
    requires AllDigits(s)
    ensures Strip(s) == s
  {
    if s != "" {
      StripDigits(s[1..]);
    }
  }

  lemma StripAround(front: string, tail: string)
    ensures Strip(front + " " + tail) == Strip(front) + Strip(tail)
  {
    assert " "[1..] == "";
    assert Strip(" ") == "";
    hide Strip;
    StripAppend(front + " ", tail);
    StripAppend(front, " ");
    assert Strip(front) + "" == Strip(front);
  }

  lemma {:induction false} StripTriples(s: string)
    requires AllDigits(s)
    ensures Strip(Triples(s)) == s
  {
    if |s| <= 3 {
      StripDigits(s);
    } else {
      hide Strip;
      var cut := |s| - 3;
      var front := Triples(s[..cut]);
      assert Triples(s) == front + " " + s[cut..];
      hide Triples;
      StripTriples(s[..cut]);
      StripDigits(s[cut..]);
      StripAround(front, s[cut..]);
      assert s[..cut] + s[cut..] == s;
    }
  }

  // ---------------------------------------------------------------------
  // The round trip
  // ---------------------------------------------------------------------

  /** What is left of the currency part once the white space is gone. */
  function Unit(currency: string): string {
    if currency == "RUB" then "\U{20BD}" else Strip(currency)
  }

  /** The currency text would be read as more digits of the amount. */
  predicate Clashes(currency: string) {
    var unit := Unit(currency);
    (unit != "" && IsDigit(unit[0])) || AddsDecimals(unit)
  }

  /** A separator, and behind it digits of which one is not zero. */
  predicate AddsDecimals(unit: string) {
    && unit != "" && unit[0] in {'.', ','}
    && exists k :: 1 <= k < |unit| && AllDigits(unit[1..k + 1]) && unit[k] != '0'
  }

  lemma {:induction false} ValueZeroIff(s: string)
    requires AllDigits(s)
    ensures Value(s) == 0 <==> forall i | 0 <= i < |s| :: s[i] == '0'
  {
    if s != "" {
      ValueZeroIff(s[..|s| - 1]);
    }
  }

  lemma {:induction false} RunIsLongest(s: string, k: nat)
    requires k <= |s| && AllDigits(s[..k])
    ensures k <= Run(s)
  {
    if k > 0 {
      assert s[0] == s[..k][0];
      assert s[1..][..k - 1] == s[..k][1..];
      RunIsLongest(s[1..], k - 1);
    }
  }

  lemma AddsDecimalsIff(unit: string)
    ensures AddsDecimals(unit) <==> FractionAt(unit) != 0.0
  {
    if AddsDecimals(unit) {
      var k :| 1 <= k < |unit| && AllDigits(unit[1..k + 1]) && unit[k] != '0';
      var tail := unit[1..];
      assert tail[..k] == unit[1..k + 1] && tail[k - 1] == unit[k];
      assert tail[0] == tail[..k][0];
      RunIsLongest(tail, k);
      ValueZeroIff(tail[..Run(tail)]);
      assert tail[..Run(tail)][k - 1] != '0';
      NonzeroFraction(tail[..Run(tail)]);
    } else if HasFraction(unit) {
      var tail := unit[1..];
      ValueZeroIff(tail[..Run(tail)]);
      forall i | 0 <= i < Run(tail) ensures tail[i] == '0' {
        assert tail[..Run(tail)][..i + 1] == unit[1..i + 2];
        assert AllDigits(unit[1..i + 2]) && unit[i + 1] == tail[i];
      }
    }
  }

  lemma NonzeroFraction(s: string)
    requires AllDigits(s) && Value(s) > 0
    ensures Fraction(s) != 0.0
  {
  }

  lemma StripSymbol(currency: string)
    ensures Strip(Symbol(currency)) == Unit(currency)
  {
    if currency == "RUB" {
      assert Strip("\U{20BD}") == "\U{20BD}";
      StripAppend(" ", "\U{20BD}");
    } else {
      StripAppend(" ", currency);
    }
  }

  /** The printed text without its white space. */
  lemma FormattedStripped(amount: real, currency: string)
    ensures Strip(FormatMoney(amount, currency))
            == (if amount < 0.0 then "-" else "")
               + (Decimal(Cents(amount) / 100) + (Decimals(Cents(amount)) + Unit(currency)))
  {
    hide Strip, Grouped, Decimal, Decimals, Cents, Triples, Symbol, Unit, AllDigits;
    var cents := Cents(amount);
    var whole := Decimal(cents / 100);
    GroupedIsTriples(whole);
    StripTriples(whole);
    StripSymbol(currency);
    StripDecimals(cents);
    var sign := if amount < 0.0 then "-" else "";
    assert Strip(sign) == sign by {
      StripSign(amount);
    }
    StripFour(sign, Triples(whole), Decimals(cents), Symbol(currency));
  }

  lemma StripSign(amount: real)
    ensures Strip(if amount < 0.0 then "-" else "") == if amount < 0.0 then "-" else ""
  {
  }

  lemma StripFour(a: string, b: string, c: string, d: string)
    ensures Strip(a + b + c + d) == Strip(a) + (Strip(b) + (Strip(c) + Strip(d)))
  {
    hide Strip;
    StripAppend(a + b + c, d);
    StripAppend(a + b, c);
    StripAppend(a, b);
  }

  lemma StripDecimals(cents: nat)
    ensures Strip(Decimals(cents)) == Decimals(cents)
  {
    var d := Decimals(cents);
    if d != "" {
      StripDigits(d[1..]);
    }
  }

  /** A digit run followed by something else is read up to there. */
  lemma {:induction false} RunAppend(digits: string, rest: string)
    requires AllDigits(digits)
    ensures Run(digits + rest) == |digits| + Run(rest)
  {
    if digits == "" {
      assert digits + rest == rest;
    } else {
      RunAppend(digits[1..], rest);
      assert (digits + rest)[1..] == digits[1..] + rest;
    }
  }

  lemma UnsignedAppend(digits: string, rest: string)
    requires AllDigits(digits) && digits != "" && Run(rest) == 0
    ensures Unsigned(digits + rest) == Some(Value(digits) as real + FractionAt(rest))
  {
    RunAppend(digits, rest);
    assert (digits + rest)[..|digits|] == digits;
    assert (digits + rest)[|digits|..] == rest;
  }

  /** The decimals printed are worth the cents they stand for. */
  lemma DecimalsValue(cents: nat, unit: string)
    requires unit != "" ==> !IsDigit(unit[0])
    requires FractionAt(unit) == 0.0
    ensures Run(Decimals(cents) + unit) == 0
    ensures FractionAt(Decimals(cents) + unit) == (cents % 100) as real / 100.0
  {
    hide Run, FractionAt, Fraction;
    if cents % 100 == 0 {
      assert Decimals(cents) + unit == unit;
      assert Run(unit) == 0 by {
        NoRun(unit);
      }
    } else {
      PairRead(DigitChar(cents % 100 / 10), DigitChar(cents % 100 % 10), ',', unit);
      PairValue(cents % 100);
    }
  }

  lemma NoRun(s: string)
    requires s != "" ==> !IsDigit(s[0])
    ensures Run(s) == 0
  {
  }

  lemma PairRead(tens: char, ones: char, separator: char, unit: string)
    requires IsDigit(tens) && IsDigit(ones) && IsSeparator(separator)
    requires unit != "" ==> !IsDigit(unit[0])
    ensures Run([separator, tens, ones] + unit) == 0
    ensures FractionAt([separator, tens, ones] + unit) == Fraction([tens, ones])
  {
    hide Fraction;
    var text := [separator, tens, ones] + unit;
    var pair := [tens, ones];
    assert text[1..] == pair + unit;
    RunAppend(pair, unit);
    assert (pair + unit)[..2] == pair;
  }

  lemma PairValue(n: nat)
    requires n < 100
    ensures Fraction([DigitChar(n / 10), DigitChar(n % 10)]) == n as real / 100.0
  {
    var pair := [DigitChar(n / 10), DigitChar(n % 10)];
    assert pair[..1] == [DigitChar(n / 10)];
    assert Value(pair[..1]) == n / 10;
    assert Value(pair) == n;
    assert Pow10(2) == 100;
  }

  /** Reading back a printed amount gives the amount rounded to cents, unless the currency clashes. */
  lemma RoundTrip(amount: real, currency: string)
    requires !Clashes(currency)
    ensures ParseNumeric(Text(FormatMoney(amount, currency))) == Some(Rounded(amount))
  {
    hide Strip, FormatMoney, Decimal, Decimals, Cents, Unsigned, FractionAt;
    var cents := Cents(amount);
    var whole := Decimal(cents / 100);
    var rest := Decimals(cents) + Unit(currency);
    AddsDecimalsIff(Unit(currency));
    FormattedStripped(amount, currency);
    DecimalsValue(cents, Unit(currency));
    UnsignedAppend(whole, rest);
    CentsSplit(cents);
    assert IsDigit((whole + rest)[0]);
    SignedRead(whole + rest, amount);
  }

  lemma SignedRead(text: string, amount: real)
    requires Unsigned(text).Some? && text != "" && IsDigit(text[0])
    ensures FirstNumber((if amount < 0.0 then "-" else "") + text)
            == Some(if amount < 0.0 then -Unsigned(text).value else Unsigned(text).value)
  {
    hide Unsigned;
    if amount < 0.0 {
      assert ("-" + text)[1..] == text;
    } else {
      assert "" + text == text;
    }
  }

  lemma CentsSplit(cents: nat)
    ensures (cents / 100) as real + (cents % 100) as real / 100.0 == cents as real / 100.0
  {
    assert cents == 100 * (cents / 100) + cents % 100;
    assert cents as real == 100.0 * (cents / 100) as real + (cents % 100) as real;
  }

  /** A currency text that clashes spoils the round trip of the amount 1. */
  lemma ClashSpoilsOne(currency: string)
    requires Clashes(currency)
    ensures ParseNumeric(Text(FormatMoney(1.0, currency))) != Some(Rounded(1.0))
  {
    hide Strip, FormatMoney, Unsigned, FractionAt;
    var unit := Unit(currency);
    assert Cents(1.0) == 100;
    FormattedStripped(1.0, currency);
    assert Decimal(1) == "1";
    assert Decimals(100) + unit == unit;
    AddsDecimalsIff(unit);
    OneMisread(unit);
    SignedRead("1" + unit, 1.0);
  }

  lemma OneMisread(unit: string)
    requires (unit != "" && IsDigit(unit[0])) || FractionAt(unit) != 0.0
    ensures Unsigned("1" + unit).Some? && Unsigned("1" + unit).value != 1.0
  {
    hide FractionAt;
    var text := "1" + unit;
    RunAppend("1", unit);
    var n := 1 + Run(unit);
    FractionNonNegative(text[n..]);
    if unit != "" && IsDigit(unit[0]) {
      assert text[..n] == "1" + unit[..n - 1];
      LeadingOne(text[..n]);
    } else {
      assert text[..1] == "1" && text[1..] == unit;
      assert Value("1") == 1;
    }
  }

  lemma FractionNonNegative(s: string)
    ensures FractionAt(s) >= 0.0
  {
  }

  lemma {:induction false} LeadingOne(s: string)
    requires AllDigits(s) && s != "" && s[0] == '1'
    ensures Value(s) >= |s|
    ensures |s| > 1 ==> Value(s) >= 10
  {
    if |s| > 1 {
      LeadingOne(s[..|s| - 1]);
    }
  }

  /** The round trip holds for every amount exactly when the currency text, white space removed,
      starts neither with a digit nor with a separator and a non-zero fraction. */
  lemma RoundTripIff(currency: string)
    ensures (forall amount: real :: ParseNumeric(Text(FormatMoney(amount, currency))) == Some(Rounded(amount)))
            <==> !Clashes(currency)
  {
    if Clashes(currency) {
      ClashSpoilsOne(currency);
    } else {
      forall amount: real ensures ParseNumeric(Text(FormatMoney(amount, currency))) == Some(Rounded(amount)) {
        RoundTrip(amount, currency);
      }
    }
  }

  /** The printed amount is a nearest whole number of cents; whole cents are printed exactly. */
  lemma RoundedIsNearest(amount: real, other: int)
    ensures Magnitude(amount - Rounded(amount)) <= Magnitude(amount - other as real / 100.0)
    ensures amount == other as real / 100.0 ==> Rounded(amount) == amount
  {
    var cents := Cents(amount);
    var mine: int := if amount < 0.0 then 0 - (cents as int) else cents as int;
    assert Rounded(amount) == mine as real / 100.0;
    if other != mine {
      assert Magnitude((other - mine) as real) >= 1.0;
    }
  }

  /** Two amounts printed alike in a currency without clash are equal to the cent. */
  lemma FormatIsInjective(a: real, b: real, currency: string)
    requires !Clashes(currency)
    requires FormatMoney(a, currency) == FormatMoney(b, currency)
    ensures Rounded(a) == Rounded(b)
  {
    RoundTrip(a, currency);
    RoundTrip(b, currency);
  }
}
