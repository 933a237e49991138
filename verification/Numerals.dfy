/**
 Positional numerals: `str(n)` and `f"{n:x}"` on one side, `int(s)` and
 `int(s, 16)` on the other. Only ASCII digits are modelled.
 */
module Numerals {
  import opened Text

  predicate IsBase(base: nat) {
    base == 10 || base == 16
  }

  function DigitValue(c: char): (d: int)
    ensures -1 <= d < 16
  {
    if '0' <= c <= '9' then c as int - '0' as int
    else if 'a' <= c <= 'f' then c as int - 'a' as int + 10
    else if 'A' <= c <= 'F' then c as int - 'A' as int + 10
    else -1
  }

  predicate IsDigit(c: char, base: nat) {
    0 <= DigitValue(c) < base
  }

  function DigitChar(d: nat): (c: char)
    requires d < 16
    ensures DigitValue(c) == d && IsLowerDigit(c)
  {
    if d < 10 then ('0' as int + d) as char else ('a' as int + d - 10) as char
  }

  predicate IsLowerDigit(c: char) {
    '0' <= c <= '9' || 'a' <= c <= 'f'
  }

  /** `str.isdigit()` on ASCII text. */
  predicate AllDecimal(s: string) {
    s != "" && forall c | c in s :: '0' <= c <= '9'
  }

  function PrintNat(n: nat, base: nat): (s: string)
    requires IsBase(base)
    ensures s != ""
    ensures forall c | c in s :: IsDigit(c, base) && IsLowerDigit(c)
    decreases n
  {
    if n < base then [DigitChar(n)] else PrintNat(n / base, base) + [DigitChar(n % base)]
  }

  function PrintInt(n: int, base: nat): (s: string)
    requires IsBase(base)
    ensures s != ""
    ensures forall c | c in s :: IsLowerDigit(c) || c == '-'
  {
    if n < 0 then "-" + PrintNat(-n, base) else PrintNat(n, base)
  }

  /** One digit, then digits each optionally preceded by one underscore. */
  function ParseDigits(s: string, base: nat): Option<nat>
    requires IsBase(base)
    decreases |s|
  {
    if s == "" || !IsDigit(s[|s| - 1], base) then None
    else if |s| == 1 then Some(DigitValue(s[0]))
    else
      var front := s[..|s| - 1];
      var digits := if front[|front| - 1] == '_' then front[..|front| - 1] else front;
      match ParseDigits(digits, base)
      case None => None
      case Some(v) => Some(v * base + DigitValue(s[|s| - 1]))
  }

  /** Digits after the sign; in base 16 a `0x` prefix is accepted. */
  function ParseMagnitude(u: string, base: nat): Option<nat>
    requires IsBase(base)
  {
    if base == 16 && |u| >= 2 && u[0] == '0' && (u[1] == 'x' || u[1] == 'X') then
      ParseDigits(if |u| > 2 && u[2] == '_' then u[3..] else u[2..], base)
    else
      ParseDigits(u, base)
  }

  /** `int(s, base)`: surrounding white space and a sign are accepted. */
  function ParseInt(s: string, base: nat): Option<int>
    requires IsBase(base)
  {
    var t := Strip(s);
    if t == "" then None
    else
      match ParseMagnitude(if t[0] == '-' || t[0] == '+' then t[1..] else t, base)
      case None => None
      case Some(v) => Some(if t[0] == '-' then -(v as int) else v as int)
  }

  lemma {:induction false} ParseDigitsPrint(n: nat, base: nat)
    requires IsBase(base)
    ensures ParseDigits(PrintNat(n, base), base) == Some(n)
    decreases n
  {
    var s := PrintNat(n, base);
    if n >= base {
      var front := PrintNat(n / base, base);
      assert s[..|s| - 1] == front && s[|s| - 1] == DigitChar(n % base);
      assert front[|front| - 1] in front;
      ParseDigitsPrint(n / base, base);
      assert n / base * base + n % base == n;
    }
  }

  lemma {:induction false} VisibleIsStripped(s: string)
    requires forall c | c in s :: !IsSpace(c)
    ensures Strip(s) == s
  {
  }

  lemma {:induction false} ParseMagnitudePrint(n: nat, base: nat)
    requires IsBase(base)
    ensures ParseMagnitude(PrintNat(n, base), base) == Some(n)
  {
    var s := PrintNat(n, base);
    ParseDigitsPrint(n, base);
    if |s| >= 2 {
      assert s[1] in s;
    }
  }

  /** Reading back a printed integer, in either base, gives the integer. */
  lemma {:induction false} ParseIntPrint(n: int, base: nat)
    requires IsBase(base)
    ensures ParseInt(PrintInt(n, base), base) == Some(n)
  {
    var s := PrintInt(n, base);
    VisibleIsStripped(s);
    var digits := PrintNat(if n < 0 then -n else n, base);
    ParseMagnitudePrint(if n < 0 then -n else n, base);
    if n < 0 {
      assert s[1..] == digits;
    } else {
      assert digits[0] in digits;
    }
  }

  lemma {:induction false} PrintNatDecimal(n: nat)
    ensures AllDecimal(PrintNat(n, 10))
    decreases n
  {
    if n >= 10 {
      PrintNatDecimal(n / 10);
    }
  }
}
