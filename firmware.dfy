/**
  Formatting of the firmware revision reported in a device-inquiry reply:
  the four revision numbers rendered in decimal one after the other (Java's
  "%d%d%d%d"), with one leading '0' dropped.
 */
module Firmware {

  predicate IsDigit(c: char) { '0' <= c <= '9' }

  function DigitChar(d: int): (c: char)
    requires 0 <= d < 10
    ensures IsDigit(c)
  {
    (d + '0' as int) as char
  }

  function DigitValue(c: char): int { c as int - '0' as int }

  /** Decimal rendering of a natural number, without leading zeros. */
  function Digits(n: nat): (s: string)
    ensures |s| >= 1
    ensures forall i :: 0 <= i < |s| ==> IsDigit(s[i])
    decreases n
  {
    if n < 10 then [DigitChar(n)] else Digits(n / 10) + [DigitChar(n % 10)]
  }

  /** What "%d" prints for an int: a minus sign for negative numbers, then the digits. */
  function Decimal(n: int): (s: string)
    ensures |s| >= 1
  {
    if n < 0 then "-" + Digits(-n) else Digits(n)
  }

  /** Reads a run of decimal digits back; the reference inverse of `Digits`. */
  function ParseDigits(s: string): int
  {
    if s == [] then 0 else ParseDigits(s[..|s| - 1]) * 10 + DigitValue(s[|s| - 1])
  }

  function ParseDecimal(s: string): int
  {
    if |s| > 0 && s[0] == '-' then -ParseDigits(s[1..]) else ParseDigits(s)
  }

  lemma {:induction false} ParseDigitsRoundTrip(n: nat)
    ensures ParseDigits(Digits(n)) == n
    decreases n
  {
    if n >= 10 {
      var s := Digits(n);
      assert s[..|s| - 1] == Digits(n / 10);
      ParseDigitsRoundTrip(n / 10);
    }
  }

  /** The decimal rendering is faithful: it can be read back to the number. */
  lemma DecimalRoundTrip(n: int)
    ensures ParseDecimal(Decimal(n)) == n
  {
    if n < 0 {
      assert Decimal(n)[1..] == Digits(-n);
      ParseDigitsRoundTrip(-n);
    } else {
      assert IsDigit(Decimal(n)[0]);
      ParseDigitsRoundTrip(n);
    }
  }

  lemma {:induction false} DigitsLeadingZero(n: nat)
    ensures Digits(n)[0] == '0' <==> n == 0
    decreases n
  {
    if n >= 10 {
      DigitsLeadingZero(n / 10);
      assert Digits(n)[0] == Digits(n / 10)[0];
    }
  }

  /** A rendering starts with '0' exactly when the number is zero. */
  lemma DecimalLeadingZero(n: int)
    ensures Decimal(n)[0] == '0' <==> n == 0
  {
    if n >= 0 {
      DigitsLeadingZero(n);
    }
  }

  /** The four revision numbers printed back to back. */
  function FormatRevision(rev: seq<int>): (s: string)
    requires |rev| == 4
    ensures |s| >= 4
  {
    Decimal(rev[0]) + Decimal(rev[1]) + Decimal(rev[2]) + Decimal(rev[3])
  }

  /** The firmware version: the formatted revision with one leading '0' dropped. */
  function FirmwareVersion(rev: seq<int>): string
    requires |rev| == 4
  {
    var s := FormatRevision(rev);
    if s[0] == '0' then s[1..] else s
  }

  const FirmwarePrefix: string := "Firmware version: "

  /** The console line reported for a revision. */
  function FirmwareLogLine(rev: seq<int>): string
    requires |rev| == 4
  {
    FirmwarePrefix + FirmwareVersion(rev)
  }

  /**
    The strip removes the first revision number exactly when it is zero, and
    nothing else: the rest of the rendering is left as it is.
   */
  lemma FirmwareVersionDropsZeroMajor(rev: seq<int>)
    requires |rev| == 4
    ensures FirmwareVersion(rev) ==
      (if rev[0] == 0 then "" else Decimal(rev[0])) + Decimal(rev[1]) + Decimal(rev[2]) + Decimal(rev[3])
  {
    var a, b, c, d := Decimal(rev[0]), Decimal(rev[1]), Decimal(rev[2]), Decimal(rev[3]);
    var tail := b + c + d;
    assert FormatRevision(rev) == a + tail by {
      assert a + b + c + d == a + (b + c + d);
    }
    DecimalLeadingZero(rev[0]);
    HeadOfConcat(a, tail);
    if rev[0] == 0 {
      assert a == [DigitChar(0)];
      assert FirmwareVersion(rev) == tail;
    } else {
      assert FirmwareVersion(rev) == a + tail;
      assert a + tail == a + b + c + d;
    }
  }

  lemma HeadOfConcat(head: string, tail: string)
    requires |head| >= 1
    ensures (head + tail)[0] == head[0]
    ensures |head| == 1 ==> (head + tail)[1..] == tail
  {
  }

  /** A reply revision of 0, 1, 0, 2 is reported as "102". */
  lemma FirmwareVersionExample()
    ensures FirmwareLogLine([0, 1, 0, 2]) == "Firmware version: 102"
  {
  }
}
