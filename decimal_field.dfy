/**
 * The WPM field of the status screen: `snprintf(wbuf, sizeof wbuf, "%3u", wpm_now)`
 * with a five-byte buffer, i.e. the decimal digits of the value right-justified in a
 * field of width three, cut to the four characters that fit before the terminator.
 */
module DecimalField {
  import opened Bytes

  /** Size of `wbuf` in the status screen, terminator included. */
  const WpmBufferSize: nat := 5

  /** Field width of the `%3u` conversion. */
  const WpmFieldWidth: nat := 3

  predicate IsDigit(c: char) {
    '0' <= c <= '9'
  }

  predicate AllDigits(s: string) {
    forall k :: 0 <= k < |s| ==> IsDigit(s[k])
  }

  function DigitChar(d: nat): (c: char)
    requires d < 10
    ensures IsDigit(c) && DigitValue(c) == d
  {
    ('0' as int + d) as char
  }

  function DigitValue(c: char): (d: nat)
    requires IsDigit(c)
    ensures d < 10
  {
    c as int - '0' as int
  }

  /** The digits `%u` prints for `n`: most significant first, no leading zero. */
  function Decimal(n: nat): (s: string)
    ensures 1 <= |s|
    ensures AllDigits(s)
    ensures s[0] == '0' ==> n == 0
    decreases n
  {
    if n < 10 then [DigitChar(n)] else Decimal(n / 10) + [DigitChar(n % 10)]
  }

  /** Reading a string of decimal digits back as a number (the partner of Decimal). */
  function ValueOf(s: string): nat
    requires AllDigits(s)
  {
    if s == [] then 0 else ValueOf(s[..|s| - 1]) * 10 + DigitValue(s[|s| - 1])
  }

  /** Decimal is undone by ValueOf. */
  lemma {:induction false} DecimalRoundTrip(n: nat)
    ensures ValueOf(Decimal(n)) == n
    decreases n
  {
    if n >= 10 {
      DecimalRoundTrip(n / 10);
      var s := Decimal(n);
      assert s[..|s| - 1] == Decimal(n / 10);
    }
  }

  /** A number needs at most three digits exactly when it is below 1000. */
  lemma {:induction false} DecimalAtMostThreeDigits(n: nat)
    ensures |Decimal(n)| <= 3 <==> n < 1000
  {
    if n >= 10 {
      DecimalDigitCount(n / 10);
    }
  }

  /** Helper: closed bounds on the digit count of small numbers. */
  lemma {:induction false} DecimalDigitCount(n: nat)
    ensures |Decimal(n)| == 1 <==> n < 10
    ensures |Decimal(n)| == 2 <==> 10 <= n < 100
  {
    if n >= 10 {
      if n / 10 >= 10 {
        var m := n / 10;
        assert |Decimal(m)| >= 2 by {
          assert Decimal(m) == Decimal(m / 10) + [DigitChar(m % 10)];
        }
      }
    }
  }

  /** Right-justify `s` in a field of `width` characters; longer strings are not cut. */
  function PadLeft(s: string, width: nat): (r: string)
    ensures |r| == if |s| < width then width else |s|
    ensures r[|r| - |s|..] == s
    ensures forall k :: 0 <= k < |r| - |s| ==> r[k] == ' '
  {
    if |s| < width then seq(width - |s|, _ => ' ') + s else s
  }

  /** What `snprintf(buf, size, "%<width>u", n)` leaves in `buf` before the terminator. */
  function SnprintfUnsigned(size: nat, width: nat, n: nat): (r: string)
    ensures size == 0 ==> r == []
    ensures size > 0 ==> |r| == Min(size - 1, |PadLeft(Decimal(n), width)|)
    ensures r == PadLeft(Decimal(n), width)[..|r|]
  {
    var full := PadLeft(Decimal(n), width);
    if size == 0 then [] else full[..Min(size - 1, |full|)]
  }

  function Min(a: nat, b: nat): nat {
    if a < b then a else b
  }

  /** Drop the padding in front of a right-justified field. */
  function TrimLeadingSpaces(s: string): (r: string)
    ensures |r| <= |s| && r == s[|s| - |r|..]
    ensures r == [] || r[0] != ' '
  {
    if |s| > 0 && s[0] == ' ' then TrimLeadingSpaces(s[1..]) else s
  }

  /**
   * The text written after "WPM:". For every `uint8_t` value it is exactly three
   * characters: spaces, then the decimal digits of `wpm` with no leading zero,
   * which read back as `wpm`; the five-byte buffer never truncates it.
   */
  function WpmText(wpm: u8): (s: string)
    ensures |s| == 3
    ensures s == PadLeft(Decimal(wpm), WpmFieldWidth)
    ensures s[3 - |Decimal(wpm)|..] == Decimal(wpm)
    ensures forall k :: 0 <= k < 3 - |Decimal(wpm)| ==> s[k] == ' '
    ensures IsDigit(s[2])
    ensures AllDigits(TrimLeadingSpaces(s)) && ValueOf(TrimLeadingSpaces(s)) == wpm
  {
    DecimalAtMostThreeDigits(wpm);
    var s := SnprintfUnsigned(WpmBufferSize, WpmFieldWidth, wpm);
    assert s == PadLeft(Decimal(wpm), WpmFieldWidth);
    TrimPadding(Decimal(wpm), WpmFieldWidth);
    DecimalRoundTrip(wpm);
    s
  }

  /** Trimming the padding of a field whose content starts with a digit gives the content back. */
  lemma {:induction false} TrimPadding(s: string, width: nat)
    requires s != [] && IsDigit(s[0])
    ensures TrimLeadingSpaces(PadLeft(s, width)) == s
  {
    var r := PadLeft(s, width);
    var pad := |r| - |s|;
    forall j | 0 <= j <= pad
      ensures TrimLeadingSpaces(r[j..]) == s
    {
      TrimFrom(r, s, pad, pad - j);
    }
    assert r[0..] == r;
  }

  lemma {:induction false} TrimFrom(r: string, s: string, pad: nat, m: nat)
    requires m <= pad && |r| == pad + |s| && s != [] && IsDigit(s[0])
    requires r[pad..] == s
    requires forall k :: 0 <= k < pad ==> r[k] == ' '
    ensures TrimLeadingSpaces(r[pad - m..]) == s
    decreases m
  {
    if m > 0 {
      TrimFrom(r, s, pad, m - 1);
      assert r[pad - m..][1..] == r[pad - (m - 1)..];
    } else {
      assert r[pad..][0] == s[0];
    }
  }

  /** The status screen shows a speed of 5 as two spaces and the digit. */
  lemma WpmTextOneDigit()
    ensures WpmText(5) == "  5"
  {
    assert Decimal(5) == "5";
    assert PadLeft("5", 3) == "  5";
  }

  /** A three-digit speed fills the field. */
  lemma WpmTextThreeDigits()
    ensures WpmText(120) == "120"
  {
    assert Decimal(1) == "1";
    assert DigitChar(12 % 10) == '2' && DigitChar(120 % 10) == '0';
    assert Decimal(12) == "12";
    assert Decimal(120) == "120";
  }

  /** `%3u` on a value too wide for the buffer: the fifth byte is the terminator, so it is cut. */
  lemma WideValueIsCut()
    ensures SnprintfUnsigned(WpmBufferSize, WpmFieldWidth, 12345) == "1234"
  {
    assert Decimal(1) == "1";
    assert Decimal(12) == "12" by { assert DigitChar(2) == '2'; }
    assert Decimal(123) == "123" by { assert DigitChar(3) == '3'; }
    assert Decimal(1234) == "1234" by { assert DigitChar(4) == '4'; }
    assert Decimal(12345) == "12345" by { assert DigitChar(5) == '5'; }
    assert PadLeft("12345", 3) == "12345";
  }
}
