/**
 The format of real `.po` files: line prefixes, JSON literals, flag lines, and the laws
 that the generic parser and editor rely on.
 */
module PoFormat {
  import opened Text
  import opened Lists
  import opened PoText
  import opened PoLayout
  import opened PoParser
  import opened PoEditor

  predicate IsMsgid(line: string) {
    StartsWith(line, "msgid ")
  }

  predicate IsMsgstr(line: string) {
    StartsWith(line, "msgstr ")
  }

  predicate IsUnquoted(line: string) {
    !StartsWith(line, "\"")
  }

  predicate IsFlagLine(line: string) {
    StartsWith(line, "#,")
  }

  // ---- reading ----

  /** The part of a keyword line after its first space, decoded. */
  function KeywordText(line: string): Option<string> {
    var i := IndexOf(line, ' ');
    if i == |line| then None else Loads(Strip(line[i + 1..]))
  }

  function QuotedText(line: string): Option<string> {
    Loads(Strip(line))
  }

  function StripAll(parts: seq<string>): (r: seq<string>)
    ensures |r| == |parts|
    ensures forall i | 0 <= i < |r| :: r[i] == Strip(parts[i])
  {
    if parts == [] then [] else [Strip(parts[0])] + StripAll(parts[1..])
  }

  function FlagList(line: string): seq<string> {
    if IsFlagLine(line) then StripAll(SplitOn(line[2..], ',')) else []
  }

  function FlagSet(line: string): set<string> {
    set x | x in FlagList(line)
  }

  // ---- writing ----

  function EncodeFirst(t: string): string {
    if '\n' in t then "\"\"" else Dumps(t)
  }

  function DumpAll(parts: seq<string>): List<string> {
    if parts == [] then Nil else Cons(Dumps(parts[0]), DumpAll(parts[1..]))
  }

  function EncodeMore(t: string): List<string> {
    if '\n' in t then DumpAll(SplitLinesKeep(t)) else Nil
  }

  function StrLine(t: string): string {
    "msgstr " + EncodeFirst(t)
  }

  /** The quoted lines of a text, one per line of the text if it has several. */
  method EncodePoString(value: string) returns (lines: seq<string>)
    ensures lines == [EncodeFirst(value)] + ToSeq(EncodeMore(value))
    ensures Combine(KeywordText("msgstr " + lines[0]), DecodeQuoted(From(lines, 1), PO)) == Some(value)
  {
    EncodeDecodes(value);
    EncodedMore(value);
    lines := EncodeLines(value);
  }

  method EncodeLines(value: string) returns (lines: seq<string>)
    ensures lines == [EncodeFirst(value)] + ToSeq(EncodeMore(value))
  {
    if '\n' !in value {
      return [Dumps(value)];
    }
    lines := ["\"\""];
    var parts := SplitLinesKeep(value);
    ghost var all := ["\"\""] + ToSeq(DumpAll(parts));
    for i := 0 to |parts|
      invariant lines + ToSeq(DumpAll(parts[i..])) == all
    {
      assert parts[i..][1..] == parts[i + 1..];
      lines := lines + [Dumps(parts[i])];
    }
    assert parts[|parts|..] == [] && lines + [] == lines;
  }

  /** The flags of a line without the fuzzy marker. */
  function WithoutFuzzy(flags: seq<string>): (r: seq<string>)
    ensures forall x :: x in r <==> x in flags && x != FUZZY
  {
    if flags == [] then []
    else
      assert flags == [flags[0]] + flags[1..];
      if flags[0] == FUZZY then WithoutFuzzy(flags[1..]) else [flags[0]] + WithoutFuzzy(flags[1..])
  }

  function CleanFlagLine(line: string): Option<string> {
    var flags := WithoutFuzzy(FlagList(line));
    if flags == [] then None else Some("#, " + Join(flags, ", "))
  }

  const PO: Format<string> := Format(
    Marks(IsMsgid, IsMsgstr, IsUnquoted, Blank), KeywordText, QuotedText, IsFlagLine, FlagSet,
    StrLine, EncodeMore, CleanFlagLine)

  // ---- written text reads back ----

  lemma {:induction false} QuotedIsStripped(s: string)
    ensures Strip(Dumps(s)) == Dumps(s)
  {
    var d := Dumps(s);
    assert d[0] == '\"' && d[|d| - 1] == '\"';
    assert StripLeft(d) == d;
  }

  lemma {:induction false} QuotedTextDumps(s: string)
    ensures QuotedText(Dumps(s)) == Some(s)
  {
    QuotedIsStripped(s);
    LoadsDumps(s);
  }

  /** The text after the keyword of a `msgstr` line. */
  lemma {:induction false} KeywordTextIs(lit: string)
    ensures KeywordText("msgstr " + lit) == Loads(Strip(lit))
  {
    var line := "msgstr " + lit;
    assert line[..6] == "msgstr" && line[6] == ' ' && line[7..] == lit;
    IndexOfUnique(line, ' ', 6);
  }

  lemma {:induction false} DecodeDumpAll(parts: seq<string>)
    ensures DecodeQuoted(DumpAll(parts), PO) == Some(Concat(parts))
  {
    if parts != [] {
      QuotedTextDumps(parts[0]);
      DecodeDumpAll(parts[1..]);
      assert PO.quotedText(Dumps(parts[0])) == QuotedText(Dumps(parts[0]));
    }
  }

  lemma {:induction false} EncodedMore(t: string)
    ensures From([EncodeFirst(t)] + ToSeq(EncodeMore(t)), 1) == EncodeMore(t)
  {
    FromConcat([EncodeFirst(t)], ToSeq(EncodeMore(t)), 1);
    FromToSeq(EncodeMore(t));
  }

  /** Encoding a translation and collecting the written field gives the translation back. */
  lemma {:induction false} EncodeDecodes(t: string)
    ensures Combine(PO.keywordText(PO.strLine(t)), DecodeQuoted(PO.strMore(t), PO)) == Some(t)
  {
    KeywordTextIs(EncodeFirst(t));
    if '\n' in t {
      assert EncodeFirst(t) == Dumps("");
      QuotedIsStripped("");
      LoadsDumps("");
      DecodeDumpAll(SplitLinesKeep(t));
      assert "" + t == t;
    } else {
      QuotedIsStripped(t);
      LoadsDumps(t);
      assert t + "" == t;
    }
  }

  // ---- flag lines ----

  predicate AreFlags(flags: seq<string>) {
    forall x | x in flags :: IsStripped(x) && ',' !in x
  }

  /** Every flag with a space in front of it. */
  function Spaced(flags: seq<string>): (r: seq<string>)
    ensures |r| == |flags|
    ensures forall i | 0 <= i < |r| :: r[i] == " " + flags[i]
  {
    if flags == [] then [] else [" " + flags[0]] + Spaced(flags[1..])
  }

  lemma {:induction false} JoinSpaced(flags: seq<string>)
    requires flags != []
    ensures " " + Join(flags, ", ") == Join(Spaced(flags), ",")
  {
    var sp := Spaced(flags);
    if |flags| == 1 {
      assert sp == [" " + flags[0]];
    } else {
      assert sp[1..] == Spaced(flags[1..]);
      JoinSpaced(flags[1..]);
      var rest := Join(flags[1..], ", ");
      assert " " + (flags[0] + ", " + rest) == (" " + flags[0]) + "," + (" " + rest);
    }
  }

  lemma {:induction false} StripSpaced(flags: seq<string>)
    requires AreFlags(flags)
    ensures StripAll(Spaced(flags)) == flags
  {
    forall i | 0 <= i < |flags|
      ensures Strip(" " + flags[i]) == flags[i]
    {
      assert flags[i] in flags;
      StripLeadingSpace(flags[i]);
    }
  }

  lemma {:induction false} FlagListOfClean(flags: seq<string>)
    requires flags != [] && AreFlags(flags)
    ensures FlagList("#, " + Join(flags, ", ")) == flags
  {
    var line := "#, " + Join(flags, ", ");
    assert line[..2] == "#," && line[2..] == " " + Join(flags, ", ");
    JoinSpaced(flags);
    assert AllFree(Spaced(flags), ',') by {
      forall p | p in Spaced(flags)
        ensures ',' !in p
      {
        var i :| 0 <= i < |flags| && p == " " + flags[i];
        assert flags[i] in flags;
      }
    }
    SplitJoin(Spaced(flags), ',');
    StripSpaced(flags);
  }

  lemma {:induction false} StripSubset(s: string, c: char)
    requires c in Strip(s)
    ensures c in s
  {
    StripRightSubset(StripLeft(s), c);
    StripLeftSubset(s, c);
  }

  lemma {:induction s} StripLeftSubset(s: string, c: char)
    requires c in StripLeft(s)
    ensures c in s
  {
  }

  lemma {:induction s} StripRightSubset(s: string, c: char)
    requires c in StripRight(s)
    ensures c in s
  {
  }

  lemma {:induction false} FlagListIsFlags(line: string)
    ensures AreFlags(FlagList(line))
  {
    if IsFlagLine(line) {
      var parts := SplitOn(line[2..], ',');
      JoinSplit(line[2..], ',');
      forall i | 0 <= i < |parts|
        ensures IsStripped(Strip(parts[i])) && ',' !in Strip(parts[i])
      {
        StripIsStripped(parts[i]);
        assert parts[i] in parts;
        if ',' in Strip(parts[i]) {
          StripSubset(parts[i], ',');
        }
      }
    }
  }

  /** Cleaning a flag line removes the fuzzy marker and keeps every other flag. */
  lemma {:induction false} CleanFlagLineFlags(line: string)
    requires IsFlagLine(line)
    ensures match CleanFlagLine(line)
            case None => FlagSet(line) <= {FUZZY}
            case Some(x) => IsFlagLine(x) && FlagSet(x) == FlagSet(line) - {FUZZY}
  {
    var flags := WithoutFuzzy(FlagList(line));
    FlagListIsFlags(line);
    if flags != [] {
      FlagListOfClean(flags);
      assert ("#, " + Join(flags, ", "))[..2] == "#,";
    } else {
      assert forall x | x in FlagList(line) :: x == FUZZY || x in flags;
    }
  }

  // ---- the laws ----

  lemma {:induction false} BlankIsPlain(line: string)
    requires Blank(line)
    ensures !IsMsgid(line) && !IsMsgstr(line) && IsUnquoted(line) && !IsFlagLine(line)
  {
    if line != "" && !IsSpace(line[0]) {
      VisibleIsNotBlank(line);
    }
  }

  lemma {:induction false} PrefixesDiffer(line: string)
    ensures IsMsgid(line) ==> !IsMsgstr(line) && IsUnquoted(line) && !IsFlagLine(line)
    ensures IsMsgstr(line) ==> IsUnquoted(line) && !IsFlagLine(line)
    ensures IsFlagLine(line) ==> IsUnquoted(line)
  {
    if IsMsgid(line) {
      assert line[3] == line[..6][3] == 'i' && line[0] == line[..6][0] == 'm';
    }
    if IsMsgstr(line) {
      assert line[3] == line[..7][3] == 's' && line[0] == line[..7][0] == 'm';
    }
    if IsFlagLine(line) {
      assert line[0] == line[..2][0] == '#';
    }
  }

  lemma {:induction false} DumpIsQuoted(s: string)
    ensures !IsUnquoted(Dumps(s))
  {
    assert Dumps(s)[..1] == "\"";
  }

  lemma {:induction parts} DumpAllQuoted(parts: seq<string>)
    ensures NoneOf(DumpAll(parts), PO.marks.unquoted)
  {
    if parts != [] {
      DumpIsQuoted(parts[0]);
    }
  }

  lemma {:induction false} StrLineIsMsgstr(t: string)
    ensures IsMsgstr(StrLine(t))
  {
    assert StrLine(t)[..7] == "msgstr ";
  }

  /** The real format satisfies what the edits rely on. */
  lemma {:induction false} PoMarksLawful()
    ensures MarksLawful(PO)
  {
    forall x: string
      ensures PO.marks.blank(x) ==> !PO.marks.id(x) && !PO.marks.str(x) && PO.marks.unquoted(x) && !PO.isFlag(x)
      ensures PO.marks.id(x) ==> !PO.marks.str(x) && PO.marks.unquoted(x) && !PO.isFlag(x)
      ensures PO.marks.str(x) ==> PO.marks.unquoted(x) && !PO.isFlag(x)
      ensures PO.isFlag(x) ==> PO.marks.unquoted(x)
      ensures PO.isFlag(x) && PO.cleanFlag(x).Some? ==> PO.isFlag(PO.cleanFlag(x).value)
    {
      if Blank(x) {
        BlankIsPlain(x);
      }
      PrefixesDiffer(x);
      if IsFlagLine(x) {
        CleanFlagLineFlags(x);
      }
    }
    forall t: string
      ensures PO.marks.str(PO.strLine(t)) && NoneOf(PO.strMore(t), PO.marks.unquoted)
    {
      StrLineIsMsgstr(t);
      DumpAllQuoted(SplitLinesKeep(t));
    }
  }

  /** The real format satisfies what the meaning of an edit relies on. */
  lemma {:induction false} PoTextLawful()
    ensures TextLawful(PO)
  {
    forall t
      ensures Combine(PO.keywordText(PO.strLine(t)), DecodeQuoted(PO.strMore(t), PO)) == Some(t)
    {
      EncodeDecodes(t);
    }
    forall x | PO.isFlag(x)
      ensures CleanedFlags(PO.cleanFlag(x), PO) == PO.flags(x) - {FUZZY}
    {
      CleanFlagLineFlags(x);
    }
  }
}
