// The pieces of C that every printer and parser of the repository leans on:
// the byte search behind the `while (data[count] != ':')` loops, printing with
// "%d", and atoi. A char stands for one byte.
module CText {

  const TWO_31 := 0x8000_0000
  const TWO_32 := 0x1_0000_0000

  /** An `unsigned int` of the C program. */
  type uint32 = x: int | 0 <= x < TWO_32

  // ----- searching -----

  /** The first position at or after `from` that holds `c`, or |s|. */
  function Find(s: string, c: char, from: nat): (k: nat)
    requires from <= |s|
    ensures from <= k <= |s|
    ensures forall j :: from <= j < k ==> s[j] != c
    ensures k < |s| ==> s[k] == c
    decreases |s| - from
  {
    if from == |s| || s[from] == c then from else Find(s, c, from + 1)
  }

  // ----- fields that end with ':' -----

  /** A field, its ':' and what follows. */
  function Join(field: string, rest: string): string { field + ":" + rest }

  /** A ':' ends the field at the start of `s`, and a buffer of `room` bytes holds the
      field with its terminator. */
  predicate HasField(s: string, room: nat) {
    Find(s, ':', 0) < |s| && Find(s, ':', 0) < room
  }

  function Field(s: string): (f: string)
    ensures ':' !in f
    ensures |f| < |s| ==> s[|f|] == ':'
  {
    s[..Find(s, ':', 0)]
  }

  function AfterField(s: string): string
    requires Find(s, ':', 0) < |s|
  {
    s[|Field(s)| + 1..]
  }

  lemma FindFirst(field: string, c: char, rest: string)
    requires c !in field
    ensures Find(field + [c] + rest, c, 0) == |field|
  {
    var s := field + [c] + rest;
    assert s[|field|] == c;
    forall j | 0 <= j < |field| ensures s[j] != c {
      assert s[j] == field[j];
    }
  }

  lemma FieldOfJoin(field: string, rest: string)
    requires ':' !in field
    ensures Find(Join(field, rest), ':', 0) == |field|
    ensures Field(Join(field, rest)) == field
    ensures AfterField(Join(field, rest)) == rest
  {
    FindFirst(field, ':', rest);
  }

  /** What a C string function sees of a buffer: the bytes before the first NUL. */
  function CStr(s: string): (r: string)
    ensures '\0' !in r
    ensures '\0' !in s ==> r == s
  {
    s[..Find(s, '\0', 0)]
  }

  lemma CStrTerminated(s: string, rest: string)
    requires '\0' !in s
    ensures CStr(s + ['\0'] + rest) == s
  {
    FindFirst(s, '\0', rest);
  }

  // ----- printing with "%d" -----

  predicate IsDigit(c: char) { '0' <= c <= '9' }

  predicate IsSpace(c: char) {
    c == ' ' || c == '\t' || c == '\n' || c == '\U{00000B}' || c == '\U{00000C}' || c == '\r'
  }

  function DigitValue(c: char): (d: nat)
    requires IsDigit(c)
    ensures d < 10
  {
    c as int - '0' as int
  }

  function DigitChar(d: nat): (c: char)
    requires d < 10
    ensures IsDigit(c) && DigitValue(c) == d
  {
    (d + '0' as int) as char
  }

  function Digits(n: nat): (s: string)
    ensures |s| >= 1
    ensures forall c :: c in s ==> IsDigit(c)
  {
    if n < 10 then [DigitChar(n)] else Digits(n / 10) + [DigitChar(n % 10)]
  }

  /** What a string of digits stands for. */
  function Value(s: string): nat
    requires forall c :: c in s ==> IsDigit(c)
  {
    if s == "" then 0 else 10 * Value(s[..|s| - 1]) + DigitValue(s[|s| - 1])
  }

  /** The digits of a number are its decimal notation, without leading zeros. */
  lemma {:induction false} DigitsAreDecimal(n: nat)
    ensures Value(Digits(n)) == n
    ensures Digits(n)[0] == '0' ==> n == 0
  {
    if n < 10 {
      assert Digits(n)[..0] == "";
    } else {
      DigitsAreDecimal(n / 10);
      assert Digits(n)[..|Digits(n)| - 1] == Digits(n / 10);
    }
  }

  /** The `int` that "%d" takes an unsigned argument for. */
  function AsSigned(u: uint32): (n: int)
    ensures -TWO_31 <= n < TWO_31
  {
    if u < TWO_31 then u else u - TWO_32
  }

  /** The cast `(unsigned int)`. */
  function AsUnsigned(n: int): uint32 { n % TWO_32 }

  /** printf("%d") of an int. */
  function PrintInt(n: int): (s: string)
    ensures |s| >= 1
    ensures forall c :: c in s ==> c == '-' || IsDigit(c)
  {
    if n < 0 then "-" + Digits(-n) else Digits(n)
  }

  /** printf("%d") of an unsigned int. */
  function PrintField(u: uint32): (s: string)
    ensures |s| >= 1
    ensures forall c :: c in s ==> c == '-' || IsDigit(c)
  {
    PrintInt(AsSigned(u))
  }

  function Pow10(k: nat): (p: nat)
    ensures p >= 1
  {
    if k == 0 then 1 else 10 * Pow10(k - 1)
  }

  lemma {:induction false} DigitsLength(n: nat, k: nat)
    requires k >= 1 && n < Pow10(k)
    ensures |Digits(n)| <= k
  {
    if n >= 10 {
      assert Pow10(1) == 10;
      assert Pow10(k) == 10 * Pow10(k - 1);
      DigitsLength(n / 10, k - 1);
    }
  }

  /** A printed field and its terminator fit the parsers' content[12]. */
  lemma IntLength(n: int)
    requires -TWO_32 <= n < TWO_32
    ensures |PrintInt(n)| <= 11
  {
    assert Pow10(10) == 10000000000 by {
      assert Pow10(5) == 100000;
      assert Pow10(10) == 10 * 10 * 10 * 10 * 10 * Pow10(5);
    }
    DigitsLength(if n < 0 then -n else n, 10);
  }

  // ----- atoi -----

  function SkipSpaces(s: string): (r: string)
    ensures |r| <= |s|
  {
    if s != "" && IsSpace(s[0]) then SkipSpaces(s[1..]) else s
  }

  function ScanDigits(s: string, acc: nat): nat {
    if s != "" && IsDigit(s[0]) then ScanDigits(s[1..], 10 * acc + DigitValue(s[0])) else acc
  }

  /** The value after the leading spaces: an optional sign, then digits. */
  function ScanSigned(s: string): int {
    if s != "" && s[0] == '-' then 0 - ScanDigits(s[1..], 0)
    else if s != "" && s[0] == '+' then ScanDigits(s[1..], 0)
    else ScanDigits(s, 0)
  }

  /** C's atoi; it never looks past the first byte that cannot continue the number. */
  function Atoi(s: string): int { ScanSigned(SkipSpaces(s)) }

  /** How the parsers read an unsigned field. */
  function ReadField(s: string): uint32 { AsUnsigned(Atoi(s)) }

  lemma {:induction false} ScanPrintedDigits(n: nat, rest: string)
    ensures ScanDigits(Digits(n) + rest, 0) == ScanDigits(rest, n)
  {
    if n >= 10 {
      var tail := [DigitChar(n % 10)] + rest;
      assert Digits(n) + rest == Digits(n / 10) + tail;
      ScanPrintedDigits(n / 10, tail);
      assert tail[1..] == rest;
    } else {
      assert (Digits(n) + rest)[1..] == rest;
    }
  }

  lemma AtoiOfDigits(n: nat, rest: string)
    requires rest == "" || !IsDigit(rest[0])
    ensures Atoi(Digits(n) + rest) == n
  {
    assert Digits(n)[0] in Digits(n);
    ScanPrintedDigits(n, rest);
  }

  lemma AtoiOfNegative(n: nat, rest: string)
    requires rest == "" || !IsDigit(rest[0])
    ensures Atoi("-" + Digits(n) + rest) == 0 - n
  {
    var s := "-" + Digits(n) + rest;
    assert s[0] == '-' && s[1..] == Digits(n) + rest;
    ScanPrintedDigits(n, rest);
  }

  /** atoi undoes "%d" when something that is not a digit, or nothing, follows. */
  lemma AtoiOfPrinted(n: int, rest: string)
    requires rest == "" || !IsDigit(rest[0])
    ensures Atoi(PrintInt(n) + rest) == n
  {
    if n < 0 {
      AtoiOfNegative(-n, rest);
    } else {
      AtoiOfDigits(n, rest);
    }
  }

  /** Printing an unsigned field as a signed number and reading it back with a cast
      loses nothing, although fields of 2^31 and above are printed with a minus sign. */
  lemma FieldRoundTrip(u: uint32, rest: string)
    requires rest == "" || !IsDigit(rest[0])
    ensures ReadField(PrintField(u) + rest) == u
  {
    AtoiOfPrinted(AsSigned(u), rest);
  }

  lemma FieldLength(u: uint32)
    ensures |PrintField(u)| <= 11
  {
    IntLength(AsSigned(u));
  }

  /** Whether a field holds something that ends atoi's skipping of spaces. */
  predicate HasInk(s: string) { exists i :: 0 <= i < |s| && !IsSpace(s[i]) }

  lemma {:induction false} ScanDigitsStops(s: string, c: char, rest: string, acc: nat)
    requires !IsDigit(c)
    ensures ScanDigits(s + [c] + rest, acc) == ScanDigits(s, acc)
  {
    var t := s + [c] + rest;
    if s != "" {
      assert t[1..] == s[1..] + [c] + rest;
      if IsDigit(s[0]) {
        ScanDigitsStops(s[1..], c, rest, 10 * acc + DigitValue(s[0]));
      }
    } else {
      assert t[0] == c;
    }
  }

  lemma {:induction false} SkipSpacesStops(s: string, c: char, rest: string)
    requires !IsSpace(c) || HasInk(s)
    ensures SkipSpaces(s + [c] + rest) == SkipSpaces(s) + [c] + rest
    ensures HasInk(s) ==> SkipSpaces(s) != ""
  {
    var t := s + [c] + rest;
    if s != "" && IsSpace(s[0]) {
      assert t[1..] == s[1..] + [c] + rest;
      if HasInk(s) {
        var i :| 0 <= i < |s| && !IsSpace(s[i]);
        assert s[1..][i - 1] == s[i];
      }
      if exists i :: 0 <= i < |s[1..]| && !IsSpace(s[1..][i]) {
        assert HasInk(s[1..]);
      }
      SkipSpacesStops(s[1..], c, rest);
    } else if s == "" {
      assert t[0] == c;
    }
  }

  /** atoi of a field does not depend on what stands in the buffer behind its
      terminator `c`: stale bytes of an earlier, longer field are never read.
      A terminator that is itself a space needs a field that is not blank. */
  lemma AtoiStopsAt(s: string, c: char, rest: string)
    requires !IsDigit(c) && c != '-' && c != '+'
    requires !IsSpace(c) || HasInk(s)
    ensures Atoi(s + [c] + rest) == Atoi(s)
  {
    SkipSpacesStops(s, c, rest);
    var r := SkipSpaces(s);
    var t := r + [c] + rest;
    if r != "" {
      assert t[1..] == r[1..] + [c] + rest;
      ScanDigitsStops(r[1..], c, rest, 0);
    } else {
      assert t[0] == c;
    }
    ScanDigitsStops(r, c, rest, 0);
  }

  lemma PrintedHasInk(n: int)
    ensures HasInk(PrintInt(n))
  {
    assert PrintInt(n)[0] in PrintInt(n);
    assert !IsSpace(PrintInt(n)[0]);
  }
}
