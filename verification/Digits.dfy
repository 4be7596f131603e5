/** Numbers as text: `toString`, `padStart`, `parseInt`, and file modes. */
module Digits {
  import opened Outcomes

  function Digit(d: nat): char
    requires d < 10
  {
    '0' + d as char
  }

  predicate IsDigit(c: char, base: nat) {
    '0' <= c && c as int - '0' as int < base
  }

  predicate AllDigits(s: string, base: nat) {
    forall c | c in s :: IsDigit(c, base)
  }

  /** `n.toString(base)` */
  function ToText(n: nat, base: nat): (s: string)
    requires 2 <= base <= 10
    ensures s != "" && AllDigits(s, base)
  {
    if n < base then [Digit(n)]
    else
      var high, low := ToText(n / base, base), Digit(n % base);
      assert IsDigit(low, base);
      high + [low]
  }

  function IntToText(n: int): string {
    if n < 0 then "-" + ToText(-n, 10) else ToText(n, 10)
  }

  /** The number a text of digits denotes. */
  function Denotes(s: string, base: nat): nat
    requires AllDigits(s, base)
  {
    if s == "" then 0
    else
      var n := |s| - 1;
      assert s[n] in s;
      Denotes(s[..n], base) * base + (s[n] as int - '0' as int)
  }

  /** Length of the longest prefix of digits. */
  function DigitRun(s: string, base: nat): (k: nat)
    ensures k <= |s| && AllDigits(s[..k], base) && (k < |s| ==> !IsDigit(s[k], base))
  {
    if s == "" || !IsDigit(s[0], base) then 0
    else
      var k := DigitRun(s[1..], base);
      assert s[..k + 1] == [s[0]] + s[1..][..k];
      k + 1
  }

  /** `parseInt(s, base)` on unsigned text; None stands for NaN. */
  function ParseInt(s: string, base: nat): Option<nat> {
    var k := DigitRun(s, base);
    if k == 0 then None else Some(Denotes(s[..k], base))
  }

  lemma DenotesSnoc(s: string, d: nat, base: nat)
    requires AllDigits(s, base) && d < base <= 10
    ensures AllDigits(s + [Digit(d)], base) && Denotes(s + [Digit(d)], base) == Denotes(s, base) * base + d
  {
    assert (s + [Digit(d)])[..|s|] == s;
  }

  lemma DivMod(n: nat, base: nat)
    requires 2 <= base
    ensures n / base * base + n % base == n && n % base < base
  {
  }

  lemma Doubles(q: nat, base: nat)
    requires 2 <= base
    ensures 2 * q <= q * base
  {
    assert q * base == q * 2 + q * (base - 2);
  }

  lemma DivLess(n: nat, base: nat)
    requires 2 <= base <= n
    ensures n / base < n
  {
    DivMod(n, base);
    Doubles(n / base, base);
  }

  lemma DenotesLast(s: string, high: nat, d: nat, base: nat)
    requires AllDigits(s, base) && d < base <= 10 && Denotes(s, base) == high
    ensures AllDigits(s + [Digit(d)], base) && Denotes(s + [Digit(d)], base) == high * base + d
  {
    DenotesSnoc(s, d, base);
  }

  lemma TextSnoc(n: nat, base: nat)
    requires 2 <= base <= 10 && n >= base
    ensures ToText(n, base) == ToText(n / base, base) + [Digit(n % base)]
  {
  }

  lemma {:induction false} TextDenotes(n: nat, base: nat)
    requires 2 <= base <= 10
    ensures Denotes(ToText(n, base), base) == n
  {
    if n >= base {
      DivLess(n, base);
      TextDenotes(n / base, base);
      TextSnoc(n, base);
      DivMod(n, base);
      DenotesLast(ToText(n / base, base), n / base, n % base, base);
    } else {
      DenotesSnoc("", n, base);
      assert "" + [Digit(n)] == [Digit(n)];
    }
  }

  lemma {:induction false} LeadingZero(s: string, base: nat)
    requires AllDigits(s, base) && base > 0
    ensures AllDigits("0" + s, base) && Denotes("0" + s, base) == Denotes(s, base)
  {
    if s == "" {
      assert ("0" + s)[..0] == "";
    } else {
      var n := |s| - 1;
      LeadingZero(s[..n], base);
      assert ("0" + s)[..n + 1] == "0" + s[..n];
    }
  }

  lemma {:induction false} DigitRunIs(s: string, k: nat, base: nat)
    requires k <= |s| && AllDigits(s[..k], base) && (k < |s| ==> !IsDigit(s[k], base))
    ensures DigitRun(s, base) == k
  {
    if k > 0 {
      assert s[..k][0] in s[..k] && s[1..][..k - 1] == s[..k][1..];
      DigitRunIs(s[1..], k - 1, base);
    }
  }

  /** Reading digits off the front of a text that goes on with something else. */
  lemma ParsePrefix(digits: string, rest: string, base: nat)
    requires digits != "" && AllDigits(digits, base) && (rest != "" ==> !IsDigit(rest[0], base))
    ensures ParseInt(digits + rest, base) == Some(Denotes(digits, base))
  {
    assert (digits + rest)[..|digits|] == digits;
    DigitRunIs(digits + rest, |digits|, base);
  }

  /** `parseInt(s, 10)` */
  function ParseSigned(s: string): Option<int> {
    var negative := s != "" && s[0] == '-';
    var n := ParseInt(if negative then s[1..] else s, 10);
    if n.None? then None else if negative then Some(0 - n.value) else Some(n.value)
  }

  lemma NatRoundTrip(n: nat, rest: string)
    requires rest != "" ==> !IsDigit(rest[0], 10)
    ensures ParseInt(ToText(n, 10) + rest, 10) == Some(n)
  {
    TextDenotes(n, 10);
    ParsePrefix(ToText(n, 10), rest, 10);
  }

  lemma NoSign(digits: string, rest: string)
    requires digits != "" && AllDigits(digits, 10)
    ensures (digits + rest)[0] != '-'
  {
    assert digits[0] in digits;
  }

  lemma BehindSign(digits: string, rest: string)
    ensures ("-" + digits + rest)[0] == '-' && ("-" + digits + rest)[1..] == digits + rest
  {
  }

  /** A decimal number is read back, also in front of other text. */
  lemma IntRoundTrip(n: int, rest: string)
    requires rest != "" ==> !IsDigit(rest[0], 10)
    ensures ParseSigned(IntToText(n) + rest) == Some(n)
  {
    if n < 0 {
      NatRoundTrip(-n, rest);
      BehindSign(ToText(-n, 10), rest);
    } else {
      NatRoundTrip(n, rest);
      NoSign(ToText(n, 10), rest);
    }
  }

  // ---------------------------------------------------------------- modes

  /** `s.padStart(4, '0')` */
  function PadStart4(s: string): string
    decreases 4 - |s|
  {
    if |s| >= 4 then s else PadStart4("0" + s)
  }

  datatype Mode = Absent | Text(text: string) | Number(mode: nat)

  function ModeToString(m: Mode): Option<string> {
    match m
    case Absent => None
    case Text(s) => Some(s)
    case Number(n) => Some(PadStart4(ToText(n, 8)))
  }

  lemma {:induction false} PadDenotes(s: string)
    requires AllDigits(s, 8)
    ensures AllDigits(PadStart4(s), 8) && Denotes(PadStart4(s), 8) == Denotes(s, 8) && |PadStart4(s)| >= 4
    decreases 4 - |s|
  {
    if |s| < 4 {
      LeadingZero(s, 8);
      PadDenotes("0" + s);
    }
  }

  /** For every mode, `parseInt(modeToString(mode), 8)` is the mode again, also in front of other text. */
  lemma ModeRoundTrip(n: nat, rest: string)
    requires rest != "" ==> !IsDigit(rest[0], 8)
    ensures var s := ModeToString(Number(n)).value;
            |s| >= 4 && AllDigits(s, 8) && ParseInt(s + rest, 8) == Some(n)
  {
    TextDenotes(n, 8);
    PadDenotes(ToText(n, 8));
    ParsePrefix(PadStart4(ToText(n, 8)), rest, 8);
  }

  /** Padding adds zeros in front, up to four characters, and nothing else. */
  lemma {:induction false} PadIs(s: string)
    ensures |s| >= 4 ==> PadStart4(s) == s
    ensures |s| == 3 ==> PadStart4(s) == "0" + s
    ensures |s| == 2 ==> PadStart4(s) == "00" + s
    ensures |s| == 1 ==> PadStart4(s) == "000" + s
    decreases 4 - |s|
  {
    if 0 < |s| < 4 {
      PadIs("0" + s);
      assert "0" + ("0" + s) == "00" + s && "00" + ("0" + s) == "000" + s;
    }
  }

  /** A number of one digit. */
  lemma OneDigit(d: nat)
    ensures d < 8 ==> ToText(d, 8) == ["01234567"[d]]
    ensures d < 10 ==> ToText(d, 10) == ["0123456789"[d]]
  {
  }

  /** The last of several octal digits stands last. */
  lemma OctalIs(n: nat, d: nat)
    requires n > 0 && d < 8
    ensures ToText(n * 8 + d, 8) == ToText(n, 8) + ["01234567"[d]]
  {
    TextSnoc(n * 8 + d, 8);
  }

  lemma DecimalIs(n: nat, d: nat)
    requires n > 0 && d < 10
    ensures ToText(n * 10 + d, 10) == ToText(n, 10) + ["0123456789"[d]]
  {
    TextSnoc(n * 10 + d, 10);
  }
}
