/** The text the `read` attribute shows for the last decoded frame: the
    keypad digit as `PAD:` and one upper-case hex digit, a card as `TAG:`,
    the facility code in at least three decimal digits, `:` and the card
    number in at least five, each line ending in a newline; nothing for any
    other frame length. The formatting follows printf's `%1X` and `%.Nd`. */
module WiegandView {

  /** PAD_TOKEN */
  const PadToken: string := "PAD:"

  /** TAG_TOKEN */
  const TagToken: string := "TAG:"

  /** The printf digit alphabet for `%X` and `%d`. */
  const DigitChars: string := "0123456789ABCDEF"

  // ---------------------------------------------------------------------------
  // Digits

  /** The digit character for d. */
  function DigitChar(d: nat): char
    requires d < 16
  {
    DigitChars[d]
  }

  /** The value of a digit character: its place in DigitChars (16 for any other character). */
  function DigitValue(c: char): (v: nat)
    ensures v <= 16
    ensures v < 16 ==> DigitChar(v) == c
  {
    if '0' <= c <= '9' then (c - '0') as nat
    else if 'A' <= c <= 'F' then (c - 'A') as nat + 10
    else 16
  }

  /** Reading a digit character back gives the digit. */
  lemma DigitRoundTrip(d: nat)
    requires d < 16
    ensures DigitValue(DigitChar(d)) == d
  {
  }

  /** Every character of s is a digit of the given base. */
  predicate IsDigits(s: string, base: nat)
  {
    forall i :: 0 <= i < |s| ==> DigitValue(s[i]) < base
  }

  /** The digits of n in the given base, most significant first, without
      leading zeros ("0" for zero). */
  function Digits(n: nat, base: nat): (s: string)
    requires 2 <= base <= 16
    ensures |s| >= 1
    decreases n
  {
    if n < base then [DigitChar(n)] else Digits(n / base, base) + [DigitChar(n % base)]
  }

  /** The number a digit string spells in the given base. */
  function ValueOf(s: string, base: nat): nat
  {
    if |s| == 0 then 0 else ValueOf(s[..|s| - 1], base) * base + DigitValue(s[|s| - 1])
  }

  /** base raised to the power k. */
  function Power(base: nat, k: nat): nat
  {
    if k == 0 then 1 else base * Power(base, k - 1)
  }

  /** Digits uses only digits of its base. */
  lemma {:induction false} DigitsAreDigits(n: nat, base: nat)
    requires 2 <= base <= 16
    ensures IsDigits(Digits(n, base), base)
    decreases n
  {
    if n < base {
      DigitRoundTrip(n);
    } else {
      DigitsAreDigits(n / base, base);
      DigitRoundTrip(n % base);
      var s := Digits(n, base);
      assert s == Digits(n / base, base) + [DigitChar(n % base)];
      assert forall i :: 0 <= i < |s| - 1 ==> s[i] == Digits(n / base, base)[i];
    }
  }

  /** Digits is read back by ValueOf. */
  lemma {:induction false} DigitsRoundTrip(n: nat, base: nat)
    requires 2 <= base <= 16
    ensures ValueOf(Digits(n, base), base) == n
    decreases n
  {
    var s := Digits(n, base);
    if n < base {
      DigitRoundTrip(n);
      assert s[..0] == [];
    } else {
      var q, r := n / base, n % base;
      DivMod(n, base);
      var prefix := Digits(q, base);
      assert s[..|s| - 1] == prefix && s[|s| - 1] == DigitChar(r);
      DigitsRoundTrip(q, base);
      DigitRoundTrip(r);
      assert ValueOf(s, base) == ValueOf(prefix, base) * base + r;
    }
  }

  /** Splitting n into its last digit and the rest. */
  lemma DivMod(n: nat, base: nat)
    requires base >= 2
    ensures n == (n / base) * base + n % base
    ensures n % base < base
    ensures n >= base ==> n / base < n
  {
  }

  /** A number below base^k needs at most k digits. */
  lemma {:induction false} DigitsLength(n: nat, base: nat, k: nat)
    requires 2 <= base <= 16 && k >= 1
    requires n < Power(base, k)
    ensures |Digits(n, base)| <= k
    decreases k
  {
    if k == 1 {
      assert Power(base, 1) == base;
    } else if n >= base {
      assert Power(base, k) == base * Power(base, k - 1);
      QuotientBound(n, base, Power(base, k - 1));
      DigitsLength(n / base, base, k - 1);
    }
  }

  /** Dividing a bound of the form base * p by base. */
  lemma QuotientBound(n: nat, base: nat, p: nat)
    requires base >= 1 && n < base * p
    ensures n / base < p
  {
  }

  // ---------------------------------------------------------------------------
  // printf conversions

  /** s padded on the left with c to at least `width` characters: printf's
      field width pads with spaces, its precision for `%d` with zeros. */
  function PadLeft(s: string, width: nat, c: char): (r: string)
    ensures |r| == if |s| >= width then |s| else width
  {
    if |s| >= width then s else [c] + PadLeft(s, width - 1, c)
  }

  /** Leading zeros do not change the value a digit string spells. */
  lemma {:induction false} LeadingZeroValue(s: string, base: nat)
    ensures ValueOf("0" + s, base) == ValueOf(s, base)
    decreases |s|
  {
    if |s| == 0 {
      assert ("0" + s)[..0] == [];
    } else {
      var n := |s| - 1;
      LeadingZeroValue(s[..n], base);
      assert ("0" + s)[..|s|] == "0" + s[..n];
    }
  }

  /** Zero-padding keeps a digit string's digits and value. */
  lemma {:induction false} PadZerosValue(s: string, width: nat, base: nat)
    requires 2 <= base <= 16
    ensures IsDigits(PadLeft(s, width, '0'), base) == IsDigits(s, base)
    ensures ValueOf(PadLeft(s, width, '0'), base) == ValueOf(s, base)
    decreases width
  {
    if |s| < width {
      PadZerosValue(s, width - 1, base);
      var shorter := PadLeft(s, width - 1, '0');
      LeadingZeroValue(shorter, base);
      var padded := "0" + shorter;
      assert IsDigits(padded, base) == IsDigits(shorter, base) by {
        assert DigitValue(padded[0]) == 0;
        assert forall i :: 0 <= i < |shorter| ==> padded[i + 1] == shorter[i];
      }
    }
  }

  /** printf "%1X" of an unsigned value: upper-case hex, at least one character. */
  function Hex1(n: nat): string
  {
    PadLeft(Digits(n, 16), 1, ' ')
  }

  /** printf "%.<precision>d" of a non-negative value: decimal, at least
      `precision` digits, zero-padded. */
  function DecimalPrecision(n: nat, precision: nat): string
  {
    PadLeft(Digits(n, 10), precision, '0')
  }

  /** A value below 10^precision prints as exactly `precision` decimal digits
      that read back as the value. */
  lemma DecimalPrecisionExact(n: nat, precision: nat)
    requires precision >= 1 && n < Power(10, precision)
    ensures |DecimalPrecision(n, precision)| == precision
    ensures IsDigits(DecimalPrecision(n, precision), 10)
    ensures ValueOf(DecimalPrecision(n, precision), 10) == n
  {
    DigitsLength(n, 10, precision);
    DigitsAreDigits(n, 10);
    DigitsRoundTrip(n, 10);
    PadZerosValue(Digits(n, 10), precision, 10);
  }

  // ---------------------------------------------------------------------------
  // The read view

  /** The text of a read, selected by the last frame's bit count. */
  function Show(lastReadSize: int, keypad: nat, facility: nat, number: nat): (out: string)
    ensures out == "" <==> !(lastReadSize == 4 || lastReadSize == 26 || lastReadSize == 34)
  {
    match lastReadSize
    case 4 => PadToken + Hex1(keypad) + "\n"
    case 26 | 34 => TagToken + DecimalPrecision(facility, 3) + ":" + DecimalPrecision(number, 5) + "\n"
    case _ => ""
  }

  /** A 4-bit frame shows `PAD:`, one hex digit that reads back as the keypad
      digit, and a newline. */
  lemma ShowKeypad(keypad: nat, facility: nat, number: nat)
    requires keypad < 16
    ensures var out := Show(4, keypad, facility, number);
      |out| == 6 && out[..4] == PadToken && DigitValue(out[4]) == keypad && out[5] == '\n'
  {
    DigitRoundTrip(keypad);
    assert Hex1(keypad) == [DigitChar(keypad)];
  }

  /** Where the pieces of a `TAG:` line sit. */
  lemma TagLayout(facility: string, number: string)
    requires |facility| == 3 && |number| == 5
    ensures var out := TagToken + facility + ":" + number + "\n";
      && |out| == 14
      && out[..4] == TagToken
      && out[4..7] == facility
      && out[7] == ':'
      && out[8..13] == number
      && out[13] == '\n'
  {
  }

  /** A 26- or 34-bit frame shows `TAG:`, three digits that read back as the
      facility code, `:`, five digits that read back as the card number, and a
      newline, whenever the values fit those widths. */
  lemma ShowCard(lastReadSize: int, keypad: nat, facility: nat, number: nat)
    requires lastReadSize == 26 || lastReadSize == 34
    requires facility < 1000 && number < 100000
    ensures var out := Show(lastReadSize, keypad, facility, number);
      && |out| == 14
      && out[..4] == TagToken
      && IsDigits(out[4..7], 10) && ValueOf(out[4..7], 10) == facility
      && out[7] == ':'
      && IsDigits(out[8..13], 10) && ValueOf(out[8..13], 10) == number
      && out[13] == '\n'
  {
    assert Power(10, 3) == 1000 && Power(10, 5) == 100000;
    DecimalPrecisionExact(facility, 3);
    DecimalPrecisionExact(number, 5);
    TagLayout(DecimalPrecision(facility, 3), DecimalPrecision(number, 5));
  }
}
