/** The string operations of Rust's standard library that the components use. */
module Text {
  import opened Prelude

  /** Unicode White_Space. */
  predicate IsWhitespace(c: char) {
    var n := c as int;
    || 9 <= n <= 13 || n == 32 || n == 133 || n == 160 || n == 5760 || 8192 <= n <= 8202
    || n == 8232 || n == 8233 || n == 8239 || n == 8287 || n == 12288
  }

  predicate IsDigit(c: char) {
    '0' <= c <= '9'
  }

  predicate AllDigits(s: string) {
    forall i :: 0 <= i < |s| ==> IsDigit(s[i])
  }

  // ---------------------------------------------------------------- parts of a text

  /** The length of a text in UTF-8 bytes. */
  function ByteLength(s: string): nat {
    if s == "" then 0
    else
      var n := s[0] as int;
      (if n < 0x80 then 1 else if n < 0x800 then 2 else if n < 0x10000 then 3 else 4) + ByteLength(s[1..])
  }

  predicate OccursAt(text: string, part: string, i: nat) {
    i + |part| <= |text| && text[i..i + |part|] == part
  }

  predicate Contains(text: string, part: string) {
    exists i :: 0 <= i <= |text| && OccursAt(text, part, i)
  }

  predicate StartsWith(text: string, part: string) {
    |part| <= |text| && text[..|part|] == part
  }

  // ---------------------------------------------------------------- trimming and splitting

  function TrimStart(s: string): string {
    if s != "" && IsWhitespace(s[0]) then TrimStart(s[1..]) else s
  }

  function TrimEnd(s: string): string {
    if s != "" && IsWhitespace(s[|s| - 1]) then TrimEnd(s[..|s| - 1]) else s
  }

  function Trim(s: string): string {
    TrimEnd(TrimStart(s))
  }

  /** The first occurrence. */
  function Find(s: string, c: char): (r: Option<nat>)
    ensures r.Some? ==> r.value < |s| && s[r.value] == c && c !in s[..r.value]
    ensures r.None? ==> c !in s
  {
    if s == "" then None
    else if s[0] == c then Some(0)
    else
      var rest := Find(s[1..], c);
      if rest.None? then None
      else
        assert s[..rest.value + 1] == [s[0]] + s[1..][..rest.value];
        Some(rest.value + 1)
  }

  function SplitOnce(s: string, c: char): Option<(string, string)> {
    var at := Find(s, c);
    if at.None? then None else Some((s[..at.value], s[at.value + 1..]))
  }

  function Split(s: string, c: char): (r: seq<string>)
    ensures |r| > 0
    decreases |s|
  {
    var at := Find(s, c);
    if at.None? then [s] else [s[..at.value]] + Split(s[at.value + 1..], c)
  }

  /** The last sign in the text. */
  function FindLastSign(s: string): (r: Option<nat>)
    ensures r.Some? ==> r.value < |s| && (s[r.value] == '+' || s[r.value] == '-')
    ensures r.Some? ==> forall i :: r.value < i < |s| ==> s[i] != '+' && s[i] != '-'
    ensures r.None? ==> forall i :: 0 <= i < |s| ==> s[i] != '+' && s[i] != '-'
  {
    if s == "" then None
    else if s[|s| - 1] == '+' || s[|s| - 1] == '-' then Some(|s| - 1)
    else FindLastSign(s[..|s| - 1])
  }

  lemma {:induction false} FindAt(a: string, c: char, b: string)
    requires c !in a
    ensures Find(a + [c] + b, c) == Some(|a|)
    decreases |a|
  {
    if a != "" {
      assert (a + [c] + b)[1..] == a[1..] + [c] + b;
      FindAt(a[1..], c, b);
    }
  }

  lemma SplitOnceAt(a: string, c: char, b: string)
    requires c !in a
    ensures SplitOnce(a + [c] + b, c) == Some((a, b))
  {
    FindAt(a, c, b);
    var s := a + [c] + b;
    assert s[..|a|] == a && s[|a| + 1..] == b;
  }

  lemma SplitAt(a: string, c: char, b: string)
    requires c !in a
    ensures Split(a + [c] + b, c) == [a] + Split(b, c)
  {
    FindAt(a, c, b);
    var s := a + [c] + b;
    assert s[..|a|] == a && s[|a| + 1..] == b;
  }

  lemma Unsplit(a: string, c: char)
    requires c !in a
    ensures Split(a, c) == [a] && SplitOnce(a, c) == None
  {
  }

  lemma SplitInThree(x: string, y: string, z: string, c: char)
    requires c !in x && c !in y && c !in z
    ensures Split(x + [c] + (y + [c] + z), c) == [x, y, z]
  {
    hide Split;
    SplitAt(x, c, y + [c] + z);
    SplitAt(y, c, z);
    Unsplit(z, c);
  }

  // ---------------------------------------------------------------- numbers

  function DigitValue(c: char): nat
    requires IsDigit(c)
  {
    c as nat - '0' as nat
  }

  function Digits(s: string): nat
    requires AllDigits(s)
  {
    if s == "" then 0 else Digits(s[..|s| - 1]) * 10 + DigitValue(s[|s| - 1])
  }

  /** Rust's parse for an integer type with the given bounds: a sign if the type takes it, at least
      one digit, and no overflow. */
  function ParseInt(s: string, low: int, high: int): Option<int> {
    var negative := s != "" && s[0] == '-' && low < 0;
    var body := if s != "" && (s[0] == '+' || negative) then s[1..] else s;
    if body == "" || !AllDigits(body) then None
    else
      var value: int := if negative then 0 - Digits(body) else Digits(body);
      if low <= value <= high then Some(value) else None
  }

  const I32_MIN: int := -0x8000_0000
  const I32_MAX: int := 0x7fff_ffff
  const U32_MAX: int := 0xffff_ffff
  const I128_MAX: int := 0x7fff_ffff_ffff_ffff_ffff_ffff_ffff_ffff

  // ---------------------------------------------------------------- printing

  function DigitChar(n: nat): (c: char)
    requires n < 10
    ensures IsDigit(c) && DigitValue(c) == n
  {
    ('0' as nat + n) as char
  }

  function Decimal(n: nat): (s: string)
    ensures s != "" && AllDigits(s) && Digits(s) == n
  {
    if n < 10 then
      assert Digits([DigitChar(n)]) == Digits([]) * 10 + DigitValue(DigitChar(n));
      [DigitChar(n)]
    else Decimal(n / 10) + [DigitChar(n % 10)]
  }

  /** At least `width` digits, zero-padded on the left. */
  function Padded(n: nat, width: nat): (s: string)
    ensures s != "" && AllDigits(s) && Digits(s) == n && |s| >= width
  {
    LeadingZeros(Decimal(n), width);
    PadLeft(Decimal(n), width)
  }

  function PadLeft(s: string, width: nat): (r: string)
    ensures |r| >= width && |r| >= |s|
    ensures |s| <= width ==> |r| == width
    decreases if |s| < width then width - |s| else 0
  {
    if |s| >= width then s else PadLeft(['0'] + s, width)
  }

  lemma {:induction false} LeadingZero(s: string)
    requires AllDigits(s)
    ensures AllDigits(['0'] + s) && Digits(['0'] + s) == Digits(s)
    decreases |s|
  {
    var t := ['0'] + s;
    if s == "" {
      assert t[..0] == "";
    } else {
      LeadingZero(s[..|s| - 1]);
      assert t[..|t| - 1] == ['0'] + s[..|s| - 1];
    }
  }

  lemma {:induction false} LeadingZeros(s: string, width: nat)
    requires AllDigits(s)
    ensures AllDigits(PadLeft(s, width)) && Digits(PadLeft(s, width)) == Digits(s)
    decreases if |s| < width then width - |s| else 0
  {
    if |s| < width {
      LeadingZero(s);
      LeadingZeros(['0'] + s, width);
    }
  }

  lemma {:induction false} DecimalLength(n: nat, width: nat)
    requires n < Power10(width) && width >= 1
    ensures |Decimal(n)| <= width
    decreases width
  {
    if n >= 10 {
      DecimalLength(n / 10, width - 1);
    }
  }

  function Power10(n: nat): (r: nat)
    ensures r > 0
  {
    if n == 0 then 1 else 10 * Power10(n - 1)
  }

  lemma ParsePrinted(n: nat, width: nat, low: int, high: int)
    requires low <= 0 && n <= high
    ensures ParseInt(Padded(n, width), low, high) == Some(n)
    ensures ParseInt(Decimal(n), low, high) == Some(n)
  {
    assert IsDigit(Padded(n, width)[0]) && IsDigit(Decimal(n)[0]);
  }

  /** The bytes of one character in UTF-8. */
  lemma CharacterBytes(c: char)
    ensures ByteLength([c]) == if c as int <= 127 then 1 else if c as int <= 2047 then 2 else if c as int <= 65535 then 3 else 4
  {
    assert [c][1..] == "";
  }

  /** The text is the digits, with a sign before them if there is one; a minus only where negative numbers
      exist. */
  predicate Writes(s: string, digits: string, low: int, value: int) {
    && digits != "" && AllDigits(digits)
    && (|| ((s == digits || s == ['+'] + digits) && value == Digits(digits))
        || (low < 0 && s == ['-'] + digits && value == -(Digits(digits) as int)))
  }

  /** A number is read exactly when the text writes it and it is in range. */
  lemma ReadsExactlyWhatIsWritten(s: string, low: int, high: int, value: int)
    ensures ParseInt(s, low, high) == Some(value) <==> low <= value <= high && exists digits :: Writes(s, digits, low, value)
  {
    if ParseInt(s, low, high) == Some(value) {
      var body := if s[0] == '+' || (s[0] == '-' && low < 0) then s[1..] else s;
      assert s == [s[0]] + s[1..];
      assert Writes(s, body, low, value);
    }
    if low <= value <= high && exists digits :: Writes(s, digits, low, value) {
      var digits :| Writes(s, digits, low, value);
      assert IsDigit(digits[0]);
      assert s != digits ==> s[1..] == digits;
    }
  }
}
