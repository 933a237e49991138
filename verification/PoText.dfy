/**
 The text layer of a `.po` file: JSON string literals (section 7 of RFC 8259)
 and splitting a text into lines.
 */
module PoText {
  import opened Text
  import opened Numerals

  // ---- JSON string literals ----

  function Hex4(n: nat): string
    requires n < 0x10000
  {
    [DigitChar(n / 4096), DigitChar(n / 256 % 16), DigitChar(n / 16 % 16), DigitChar(n % 16)]
  }

  /** Value of four hexadecimal digits, or -1. */
  function Hex4Value(s: string): (n: int)
    requires |s| == 4
    ensures -1 <= n < 0x10000
  {
    if forall c | c in s :: IsDigit(c, 16) then
      assert forall i | 0 <= i < 4 :: s[i] in s;
      ((DigitValue(s[0]) * 16 + DigitValue(s[1])) * 16 + DigitValue(s[2])) * 16 + DigitValue(s[3])
    else -1
  }

  function EscapeChar(c: char): (e: string)
    ensures e != ""
  {
    if c == '\"' then "\\\""
    else if c == '\\' then "\\\\"
    else if c == '\n' then "\\n"
    else if c == '\r' then "\\r"
    else if c == '\t' then "\\t"
    else if c as int == 8 then "\\b"
    else if c as int == 12 then "\\f"
    else if c as int < 0x20 then "\\u" + Hex4(c as int)
    else [c]
  }

  function Escape(s: string): string {
    if s == "" then "" else EscapeChar(s[0]) + Escape(s[1..])
  }

  /** `json.dumps(s, ensure_ascii=False)`. */
  function Dumps(s: string): string {
    "\"" + Escape(s) + "\""
  }

  /** The character of a one-letter escape. */
  function ShortEscape(c: char): Option<char> {
    if c == '\"' || c == '\\' || c == '/' then Some(c)
    else if c == 'b' then Some(8 as char)
    else if c == 'f' then Some(12 as char)
    else if c == 'n' then Some('\n')
    else if c == 'r' then Some('\r')
    else if c == 't' then Some('\t')
    else None
  }

  function Prepend(c: char, rest: Option<string>): Option<string> {
    match rest
    case None => None
    case Some(s) => Some([c] + s)
  }

  /** Decode the text after an opening quote; the closing quote must end it. */
  function Scan(s: string): Option<string>
    decreases |s|
  {
    if s == "" then None
    else if s[0] == '\"' then (if |s| == 1 then Some("") else None)
    else if s[0] as int < 0x20 then None
    else if s[0] != '\\' then Prepend(s[0], Scan(s[1..]))
    else if |s| < 2 then None
    else if s[1] == 'u' then ScanUnicode(s)
    else match ShortEscape(s[1])
      case None => None
      case Some(c) => Prepend(c, Scan(s[2..]))
  }

  /** A `\uXXXX` escape, or two of them forming a surrogate pair. */
  function ScanUnicode(s: string): Option<string>
    requires |s| >= 2
    decreases |s|, 0
  {
    if |s| < 6 then None
    else
      var n := Hex4Value(s[2..6]);
      if n == -1 then None
      else if n < 0xD800 || 0xE000 <= n then Prepend(n as char, Scan(s[6..]))
      else if n >= 0xDC00 || |s| < 12 || s[6] != '\\' || s[7] != 'u' then None
      else
        var m := Hex4Value(s[8..12]);
        if m < 0xDC00 || 0xE000 <= m then None
        else Prepend((0x10000 + (n - 0xD800) * 0x400 + (m - 0xDC00)) as char, Scan(s[12..]))
  }

  /** `json.loads(v)` when it yields a string; every other outcome is an exception. */
  function Loads(v: string): Option<string> {
    if v == "" || v[0] != '\"' then None else Scan(v[1..])
  }

  lemma {:induction false} ScanEscapedControl(c: char, rest: string)
    requires c as int < 0x20
    ensures Scan("\\u" + Hex4(c as int) + rest) == Prepend(c, Scan(rest))
  {
    var s := "\\u" + Hex4(c as int) + rest;
    assert s[..6] == "\\u" + Hex4(c as int) && s[6..] == rest;
    assert s[2..6] == Hex4(c as int);
    assert s[0] == '\\' && s[1] == 'u';
    assert Hex4Value(Hex4(c as int)) == c as int;
  }

  lemma {:induction false} ScanShortEscape(c: char, e: char, rest: string)
    requires ShortEscape(e) == Some(c)
    ensures Scan(['\\', e] + rest) == Prepend(c, Scan(rest))
  {
    assert (['\\', e] + rest)[2..] == rest;
  }

  lemma {:induction false} ScanPlain(c: char, rest: string)
    requires c as int >= 0x20 && c != '\"' && c != '\\'
    ensures Scan([c] + rest) == Prepend(c, Scan(rest))
  {
    assert ([c] + rest)[1..] == rest;
  }

  lemma {:induction false} ScanEscapedChar(c: char, rest: string)
    ensures Scan(EscapeChar(c) + rest) == Prepend(c, Scan(rest))
  {
    var e := EscapeChar(c);
    if |e| == 1 {
      ScanPlain(c, rest);
    } else if |e| == 2 {
      ScanShortEscape(c, e[1], rest);
      assert e == ['\\', e[1]];
    } else {
      ScanEscapedControl(c, rest);
    }
  }

  lemma {:induction false} ScanEscape(s: string)
    ensures Scan(Escape(s) + "\"") == Some(s)
  {
    if s != "" {
      ScanEscape(s[1..]);
      ScanEscapedChar(s[0], Escape(s[1..]) + "\"");
      assert Escape(s) + "\"" == EscapeChar(s[0]) + (Escape(s[1..]) + "\"");
      assert [s[0]] + s[1..] == s;
    }
  }

  /** Decoding a JSON literal written by `Dumps` gives the text back. */
  lemma {:induction false} LoadsDumps(s: string)
    ensures Loads(Dumps(s)) == Some(s)
  {
    ScanEscape(s);
    assert Dumps(s)[1..] == Escape(s) + "\"";
  }

  /** An escaped text without its closing quote never decodes. */
  lemma {:induction false} ScanUnterminated(s: string)
    ensures Scan(Escape(s)) == None
  {
    if s != "" {
      ScanUnterminated(s[1..]);
      ScanEscapedChar(s[0], Escape(s[1..]));
    }
  }

  lemma {:induction false} LoadsUnterminated(s: string)
    ensures Loads("\"" + Escape(s)) == None
  {
    ScanUnterminated(s);
    assert ("\"" + Escape(s))[1..] == Escape(s);
  }

  // ---- lines ----

  /** The characters at which `str.splitlines()` ends a line. */
  predicate IsBreak(c: char) {
    var n := c as int;
    10 <= n <= 13 || 28 <= n <= 30 || n == 0x85 || n == 0x2028 || n == 0x2029
  }

  /** The line breaks that a JSON literal leaves unescaped. */
  predicate IsRawBreak(c: char) {
    var n := c as int;
    n == 0x85 || n == 0x2028 || n == 0x2029
  }

  predicate BreakFree(s: string) {
    forall c | c in s :: !IsBreak(c)
  }

  predicate RawBreakFree(s: string) {
    forall c | c in s :: !IsRawBreak(c)
  }

  /** Length of the longest break-free prefix. */
  function LineLength(s: string): (n: nat)
    ensures n <= |s| && BreakFree(s[..n])
    ensures n < |s| ==> IsBreak(s[n])
  {
    if s == "" || IsBreak(s[0]) then 0
    else
      var n := 1 + LineLength(s[1..]);
      assert s[..n] == [s[0]] + s[1..][..n - 1];
      n
  }

  /** Where the line after the break at position `n` starts; `\r\n` is one break. */
  function AfterBreak(s: string, n: nat): (m: nat)
    requires n < |s|
    ensures n < m <= |s|
  {
    if s[n] == '\r' && n + 1 < |s| && s[n + 1] == '\n' then n + 2 else n + 1
  }

  /** `s.splitlines()`. */
  function SplitLines(s: string): seq<string>
    decreases |s|
  {
    var n := LineLength(s);
    if s == "" then []
    else if n == |s| then [s]
    else [s[..n]] + SplitLines(s[AfterBreak(s, n)..])
  }

  /** `s.splitlines(keepends=True)`. */
  function SplitLinesKeep(s: string): (parts: seq<string>)
    ensures Concat(parts) == s
    ensures s != "" ==> parts != []
    decreases |s|
  {
    var n := LineLength(s);
    if s == "" then []
    else if n == |s| then [s]
    else
      var m := AfterBreak(s, n);
      var parts := SplitLinesKeep(s[m..]);
      assert ([s[..m]] + parts)[1..] == parts;
      [s[..m]] + parts
  }

  /** `"".join(parts)`. */
  function Concat(parts: seq<string>): string {
    if parts == [] then "" else parts[0] + Concat(parts[1..])
  }

  /** `"\n".join(lines) + "\n"`, for at least one line. */
  function WriteLines(lines: seq<string>): string {
    if lines == [] then "" else lines[0] + "\n" + WriteLines(lines[1..])
  }

  lemma {:induction false} LineLengthUnique(s: string, n: nat)
    requires n <= |s| && BreakFree(s[..n])
    requires n < |s| ==> IsBreak(s[n])
    ensures LineLength(s) == n
  {
    if n > 0 {
      assert s[..n][0] == s[0] && s[0] in s[..n];
      assert s[..n][1..] == s[1..][..n - 1];
      assert BreakFree(s[1..][..n - 1]);
      LineLengthUnique(s[1..], n - 1);
    }
  }

  /** The first line of a text that starts with a break-free line. */
  lemma {:induction false} SplitLinesFirst(line: string, rest: string)
    requires BreakFree(line)
    ensures SplitLines(line + "\n" + rest) == [line] + SplitLines(rest)
  {
    var s := line + "\n" + rest;
    var n := |line|;
    assert s[..n] == line && s[n] == '\n';
    LineLengthUnique(s, n);
    assert s[n + 1..] == rest;
  }

  /** Reading back written lines gives the lines, if none contains a break. */
  lemma {:induction false} SplitWriteLines(lines: seq<string>, rest: string)
    requires forall l | l in lines :: BreakFree(l)
    ensures SplitLines(WriteLines(lines) + rest) == lines + SplitLines(rest)
  {
    if lines == [] {
      assert WriteLines(lines) + rest == rest;
    } else {
      var first, tail := lines[0], WriteLines(lines[1..]);
      calc {
        SplitLines(WriteLines(lines) + rest);
        { assert (first + "\n" + tail) + rest == first + "\n" + (tail + rest); }
        SplitLines(first + "\n" + (tail + rest));
        { SplitLinesFirst(first, tail + rest); }
        [first] + SplitLines(tail + rest);
        { SplitWriteLines(lines[1..], rest); }
        [first] + (lines[1..] + SplitLines(rest));
        lines + SplitLines(rest);
      }
    }
  }

  lemma {:induction false} SplitLinesAreBreakFree(s: string)
    ensures forall l | l in SplitLines(s) :: BreakFree(l)
    decreases |s|
  {
    var n := LineLength(s);
    if s != "" {
      if n == |s| {
        assert s[..n] == s;
      } else {
        SplitLinesAreBreakFree(s[AfterBreak(s, n)..]);
      }
    }
  }

  lemma {:induction false} WriteLinesAppend(a: seq<string>, b: seq<string>)
    ensures WriteLines(a + b) == WriteLines(a) + WriteLines(b)
  {
    if a == [] {
      assert a + b == b;
    } else {
      WriteLinesAppend(a[1..], b);
      assert (a + b)[1..] == a[1..] + b;
    }
  }

  /** Escaping removes every line break except the three raw ones. */
  lemma {:induction false} EscapeBreakFree(s: string)
    ensures BreakFree(Escape(s)) <==> RawBreakFree(s)
  {
    if s != "" {
      EscapeBreakFree(s[1..]);
      EscapeCharBreakFree(s[0]);
      assert s == [s[0]] + s[1..];
    }
  }

  lemma {:induction false} EscapeCharBreakFree(c: char)
    ensures BreakFree(EscapeChar(c)) <==> !IsRawBreak(c)
  {
    var e := EscapeChar(c);
    assert e[0] in e;
  }

  lemma {:induction false} DumpsBreakFree(s: string)
    ensures BreakFree(Dumps(s)) <==> RawBreakFree(s)
  {
    EscapeBreakFree(s);
  }

  lemma {:induction false} EscapeAppend(a: string, b: string)
    ensures Escape(a + b) == Escape(a) + Escape(b)
  {
    if a == "" {
      assert a + b == b;
    } else {
      var e := EscapeChar(a[0]);
      calc {
        Escape(a + b);
        { assert (a + b)[0] == a[0] && (a + b)[1..] == a[1..] + b; }
        e + Escape(a[1..] + b);
        { EscapeAppend(a[1..], b); }
        e + (Escape(a[1..]) + Escape(b));
        Escape(a) + Escape(b);
      }
    }
  }

  /** Position of the first raw break. */
  function FirstRawBreak(s: string): (j: nat)
    requires !RawBreakFree(s)
    ensures j < |s| && IsRawBreak(s[j]) && RawBreakFree(s[..j])
  {
    if IsRawBreak(s[0]) then 0
    else
      assert s == [s[0]] + s[1..];
      var j := 1 + FirstRawBreak(s[1..]);
      assert s[..j] == [s[0]] + s[1..][..j - 1];
      j
  }

  lemma {:induction false} Regroup(q: string, a: string, e: string, r: string)
    ensures q + (a + (e + r)) + q == (q + a) + (e + (r + q))
  {
  }

  lemma {:induction false} DumpsAt(s: string, j: nat)
    requires j < |s|
    ensures Dumps(s) == ("\"" + Escape(s[..j])) + (EscapeChar(s[j]) + (Escape(s[j + 1..]) + "\""))
  {
    var a, b := s[..j], s[j..];
    EscapeAppend(a, b);
    assert s == a + b;
    assert Escape(b) == EscapeChar(s[j]) + Escape(s[j + 1..]) by {
      assert b[0] == s[j] && b[1..] == s[j + 1..];
    }
    Regroup("\"", Escape(a), EscapeChar(s[j]), Escape(s[j + 1..]));
  }

  /** The first `n` characters of `d` are a quote and escaped text, and then comes a break. */
  predicate Unterminated(d: string, n: nat, t: string) {
    n < |d| && IsBreak(d[n]) && BreakFree(d[..n]) && d[..n] == "\"" + Escape(t)
  }

  lemma {:induction false} CutAt(a: string, b: string, c: string)
    requires b != ""
    ensures var s := a + (b + c); |a| < |s| && s[..|a|] == a && s[|a|] == b[0]
  {
  }

  lemma {:induction false} QuoteBreakFree(e: string)
    requires BreakFree(e)
    ensures BreakFree("\"" + e)
  {
  }

  lemma {:induction false} CutLiteral(d: string, t: string, b: string, c: string)
    requires d == ("\"" + Escape(t)) + (b + c) && b != "" && IsBreak(b[0]) && RawBreakFree(t)
    ensures Unterminated(d, 1 + |Escape(t)|, t)
  {
    CutAt("\"" + Escape(t), b, c);
    EscapeBreakFree(t);
    QuoteBreakFree(Escape(t));
  }

  /**
   A literal with a raw break, when read back as lines, starts with a piece that
   is an unterminated literal: an opening quote and some escaped text.
   */
  lemma {:induction false} BrokenLiteral(s: string) returns (t: string, n: nat)
    requires !RawBreakFree(s)
    ensures Unterminated(Dumps(s), n, t)
  {
    var j := FirstRawBreak(s);
    t := s[..j];
    n := 1 + |Escape(t)|;
    DumpsAt(s, j);
    RawBreakEscape(s[j]);
    CutLiteral(Dumps(s), t, EscapeChar(s[j]), Escape(s[j + 1..]) + "\"");
  }

  lemma {:induction false} RawBreakEscape(c: char)
    requires IsRawBreak(c)
    ensures EscapeChar(c) == [c] && IsBreak(c)
  {
  }
}
