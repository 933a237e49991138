/**
 The update of a `.po` file as text: read, split into lines, update, join and write back.
 The last theorem says exactly when reading the written file gives what was meant.
 */
module PoFile {
  import opened Text
  import opened Arithmetic
  import opened Lists
  import opened PoText
  import opened PoLayout
  import opened PoParser
  import opened PoEditor
  import opened PoUpdate
  import opened PoFormat

  /** The entries of a file given as text. */
  function ParseText(text: string): Option<seq<PoEntry>> {
    Parse(SplitLines(text), PO)
  }

  function DocOf(text: string): Doc<string> {
    Split(From(SplitLines(text), 0), PO.marks)
  }

  lemma {:induction false} SameLength(text: string)
    requires ParseText(text).Some?
    ensures |ParseText(text).value| == |DocOf(text).segs|
  {
    PoMarksLawful();
    SplitValid(From(SplitLines(text), 0), PO.marks);
    ParseDoc(DocOf(text), 0, PO);
  }

  /** The entries of a file that parses, one for each of its segments. */
  function Entries(text: string): (r: seq<PoEntry>)
    requires ParseText(text).Some?
    ensures |r| == |DocOf(text).segs|
  {
    SameLength(text);
    ParseText(text).value
  }

  /** The lines after the update. */
  function NewLines(text: string, budget: int, tr: nat -> string): List<string>
    requires ParseText(text).Some?
  {
    SegLines(Updated(DocOf(text).segs, Entries(text), budget, tr, PO), DocOf(text).tail)
  }

  /** Update a file; None is an exception of the parser, which leaves the file alone. */
  method UpdateFile(text: string, budget: int, tr: nat -> string) returns (text': string, translated: Option<nat>)
    ensures translated.Some? <==> ParseText(text).Some?
    ensures translated.None? ==> text' == text
    ensures translated.Some? ==>
              && translated.value == Min(Clamp(budget), NeedCount(Entries(text), 0))
              && text' == if translated.value == 0 then text else WriteLines(ToSeq(NewLines(text, budget, tr)))
  {
    PoMarksLawful();
    text' := text;
    var file := new PoLines(SplitLines(text));
    translated := file.Update(budget, tr, PO);
    if translated.Some? && translated.value > 0 {
      ToSeqFrom(file.lines, 0);
      assert file.lines[0..] == file.lines;
      text' := WriteLines(file.lines);
    }
  }

  // ---- lines without line breaks ----

  predicate HasBreak(line: string) {
    !BreakFree(line)
  }

  lemma {:induction false} JoinBreakFree(flags: seq<string>)
    requires forall x | x in flags :: BreakFree(x)
    ensures BreakFree(Join(flags, ", "))
  {
    if flags != [] {
      assert flags[0] in flags;
      JoinBreakFree(flags[1..]);
    }
  }

  lemma {:induction false} PartsBreakFree(s: string, sep: char)
    requires BreakFree(s)
    ensures forall p | p in SplitOn(s, sep) :: BreakFree(p)
    decreases |s|
  {
    var i := IndexOf(s, sep);
    if i < |s| {
      PartsBreakFree(s[i + 1..], sep);
    }
  }

  lemma {:induction false} CleanBreakFree(line: string)
    requires BreakFree(line) && CleanFlagLine(line).Some?
    ensures BreakFree(CleanFlagLine(line).value)
  {
    var flags := WithoutFuzzy(FlagList(line));
    forall x | x in flags
      ensures BreakFree(x)
    {
      var parts := SplitOn(line[2..], ',');
      PartsBreakFree(line[2..], ',');
      assert x in FlagList(line);
      var i :| 0 <= i < |parts| && x == Strip(parts[i]);
      assert parts[i] in parts;
      forall c | c in x
        ensures !IsBreak(c)
      {
        StripSubset(parts[i], c);
      }
    }
    JoinBreakFree(flags);
  }

  lemma {:induction h} CleanFlagsBreakFree(h: List<string>)
    requires NoneOf(h, HasBreak)
    ensures NoneOf(CleanFlags(h, PO), HasBreak)
  {
    if h.Cons? && IsFlagLine(h.head) && CleanFlagLine(h.head).Some? {
      CleanBreakFree(h.head);
    }
  }

  ghost predicate SegBreakFree(seg: Segment<string>) {
    && NoneOf(seg.id.before, HasBreak) && BreakFree(seg.id.line) && NoneOf(seg.id.more, HasBreak)
    && NoneOf(seg.str.before, HasBreak) && BreakFree(seg.str.line) && NoneOf(seg.str.more, HasBreak)
    && NoneOf(seg.trailer, HasBreak)
  }

  lemma {:induction false} SegBreakFreeIff(seg: Segment<string>, rest: List<string>)
    ensures NoneOf(seg.Then(rest), HasBreak) <==> SegBreakFree(seg) && NoneOf(rest, HasBreak)
  {
    var after := Append(seg.trailer, rest);
    NoneOfAppend(seg.trailer, rest, HasBreak);
    NoneOfAppend(seg.str.more, after, HasBreak);
    NoneOfAppend(seg.str.before, Cons(seg.str.line, Append(seg.str.more, after)), HasBreak);
    NoneOfAppend(seg.id.more, seg.str.Then(after), HasBreak);
    NoneOfAppend(seg.id.before, Cons(seg.id.line, Append(seg.id.more, seg.str.Then(after))), HasBreak);
  }

  lemma {:induction false} SegLinesBreakFreeIff(segs: seq<Segment<string>>, tail: List<string>)
    ensures NoneOf(SegLines(segs, tail), HasBreak)
            <==> (forall i | 0 <= i < |segs| :: SegBreakFree(segs[i])) && NoneOf(tail, HasBreak)
  {
    if segs != [] {
      SegBreakFreeIff(segs[0], SegLines(segs[1..], tail));
      SegLinesBreakFreeIff(segs[1..], tail);
      assert forall i | 1 <= i < |segs| :: segs[i] == segs[1..][i - 1];
    }
  }

  lemma {:induction false} FromBreakFree(lines: seq<string>, i: nat)
    requires i <= |lines| && forall l | l in lines :: BreakFree(l)
    ensures NoneOf(From(lines, i), HasBreak)
    decreases |lines| - i
  {
    if i < |lines| {
      FromBreakFree(lines, i + 1);
      assert lines[i] in lines;
    }
  }

  lemma {:induction l} ToSeqBreakFree(l: List<string>)
    requires NoneOf(l, HasBreak)
    ensures forall x | x in ToSeq(l) :: BreakFree(x)
  {
  }

  // ---- what a translation writes ----

  /** All lines written for a translation. */
  function Written(t: string): List<string> {
    Cons(StrLine(t), EncodeMore(t))
  }

  lemma {:induction false} DumpAllBreakFree(parts: seq<string>)
    ensures NoneOf(DumpAll(parts), HasBreak) <==> RawBreakFree(Concat(parts))
  {
    if parts != [] {
      DumpAllBreakFree(parts[1..]);
      DumpsBreakFree(parts[0]);
    }
  }

  /** The lines written for a translation have a break exactly if the translation has a raw one. */
  lemma {:induction false} WrittenBreakFree(t: string)
    ensures NoneOf(Written(t), HasBreak) <==> RawBreakFree(t)
  {
    var first := EncodeFirst(t);
    assert StrLine(t) == "msgstr " + first;
    assert BreakFree(StrLine(t)) <==> BreakFree(first);
    if '\n' in t {
      DumpAllBreakFree(SplitLinesKeep(t));
    } else {
      DumpsBreakFree(t);
    }
  }

  lemma {:induction false} EditBreakFree(seg: Segment<string>, t: string)
    requires SegBreakFree(seg) && WellFormed(seg, PO)
    ensures NoneOf(BeforeStr(Edit(seg, t, PO)), HasBreak)
    ensures RawBreakFree(t) ==> SegBreakFree(Edit(seg, t, PO))
  {
    WrittenBreakFree(t);
    CleanFlagsBreakFree(seg.id.before);
    var e := Edit(seg, t, PO);
    NoneOfAppend(e.id.more, e.str.before, HasBreak);
    NoneOfAppend(e.id.before, Cons(e.id.line, Append(e.id.more, e.str.before)), HasBreak);
  }

  // ---- reading back a written file ----

  /** The text written by an update that changed something. */
  function NewText(text: string, budget: int, tr: nat -> string): string
    requires ParseText(text).Some?
  {
    WriteLines(ToSeq(NewLines(text, budget, tr)))
  }

  lemma {:induction false} DocBreakFree(text: string)
    ensures forall i | 0 <= i < |DocOf(text).segs| :: SegBreakFree(DocOf(text).segs[i])
    ensures NoneOf(DocOf(text).tail, HasBreak)
  {
    var lines := SplitLines(text);
    SplitLinesAreBreakFree(text);
    FromBreakFree(lines, 0);
    PoMarksLawful();
    SplitValid(From(lines, 0), PO.marks);
    SegLinesBreakFreeIff(DocOf(text).segs, DocOf(text).tail);
  }

  lemma {:induction false} RereadBreakFree(l: List<string>)
    requires NoneOf(l, HasBreak)
    ensures From(SplitLines(WriteLines(ToSeq(l))), 0) == l
  {
    var lines := ToSeq(l);
    ToSeqBreakFree(l);
    SplitWriteLines(lines, "");
    assert WriteLines(lines) + "" == WriteLines(lines) && lines + SplitLines("") == lines;
    FromToSeq(l);
  }

  /** The translations actually written keep to the characters that survive being re-read. */
  ghost predicate ChosenRawBreakFree(entries: seq<PoEntry>, budget: int, tr: nat -> string) {
    forall i | 0 <= i < |entries| && Chosen(entries, i, budget) :: RawBreakFree(tr(i))
  }

  lemma {:induction false} RereadGood(text: string, budget: int, tr: nat -> string)
    requires ParseText(text).Some?
    requires ChosenWellFormed(DocOf(text).segs, Entries(text), budget, PO)
    requires ChosenRawBreakFree(Entries(text), budget, tr)
    ensures ParseText(NewText(text, budget, tr)).Some?
    ensures Messages(ParseText(NewText(text, budget, tr)).value) == Intended(Entries(text), budget, tr)
  {
    var doc, entries := DocOf(text), Entries(text);
    var upd := Updated(doc.segs, entries, budget, tr, PO);
    DocBreakFree(text);
    forall i | 0 <= i < |upd|
      ensures SegBreakFree(upd[i])
    {
      if Chosen(entries, i, budget) {
        EditBreakFree(doc.segs[i], tr(i));
      }
    }
    SegLinesBreakFreeIff(upd, doc.tail);
    RereadBreakFree(NewLines(text, budget, tr));
    PoMarksLawful();
    PoTextLawful();
    UpdatedParses(SplitLines(text), SplitLines(NewText(text, budget, tr)), budget, tr, PO);
  }

  // ---- a raw break makes the written file unreadable ----

  lemma {:induction false} EscapeSnoc(u: string)
    requires u != ""
    ensures "\"" + Escape(u) == ("\"" + Escape(u[..|u| - 1])) + EscapeChar(u[|u| - 1])
  {
    var front, c := u[..|u| - 1], u[|u| - 1];
    assert u == front + [c];
    EscapeAppend(front, [c]);
    assert Escape([c]) == EscapeChar(c) + "";
  }

  lemma {:induction false} StripRightSpace(s: string, front: string, e: string)
    requires s == front + e && |e| == 1 && IsSpace(e[0])
    ensures StripRight(s) == StripRight(front)
  {
    assert s[..|s| - 1] == front;
  }

  lemma {:induction false} StripRightVisible(s: string, front: string, e: string)
    requires s == front + e && e != "" && !IsSpace(e[|e| - 1])
    ensures StripRight(s) == s
  {
    assert s[|s| - 1] == e[|e| - 1];
  }

  /** Stripping an unterminated literal leaves an unterminated literal. */
  lemma {:induction false} StripRightEscape(u: string) returns (u': string)
    ensures StripRight("\"" + Escape(u)) == "\"" + Escape(u')
    decreases |u|
  {
    var s := "\"" + Escape(u);
    if u == "" {
      StripRightVisible(s, "", "\"");
      return u;
    }
    var front, c := u[..|u| - 1], u[|u| - 1];
    EscapeSnoc(u);
    if IsSpace(c) && c as int >= 0x20 {
      StripRightSpace(s, "\"" + Escape(front), EscapeChar(c));
      u' := StripRightEscape(front);
    } else {
      EscapeCharEnd(c);
      StripRightVisible(s, "\"" + Escape(front), EscapeChar(c));
      u' := u;
    }
  }

  lemma {:induction false} EscapeCharEnd(c: char)
    requires !(IsSpace(c) && c as int >= 0x20)
    ensures !IsSpace(EscapeChar(c)[|EscapeChar(c)| - 1])
  {
  }

  lemma {:induction false} UnterminatedText(u: string)
    ensures Loads(Strip("\"" + Escape(u))) == None
  {
    var s := "\"" + Escape(u);
    assert s[0] == '\"' && StripLeft(s) == s;
    var u' := StripRightEscape(u);
    LoadsUnterminated(u');
  }

  /** The first piece of a broken literal, with `prefix` in front of it. */
  lemma {:induction false} BrokenPiece(prefix: string, s: string) returns (u: string)
    requires BreakFree(prefix) && !RawBreakFree(s)
    ensures var line := prefix + Dumps(s);
            && LineLength(line) < |line| && line[..LineLength(line)] == prefix + ("\"" + Escape(u))
  {
    var n: nat;
    u, n := BrokenLiteral(s);
    var line := prefix + Dumps(s);
    var m := |prefix| + n;
    assert line[..m] == prefix + Dumps(s)[..n];
    assert line[m] == Dumps(s)[n];
    LineLengthUnique(line, m);
  }

  lemma {:induction false} FirstBrokenPart(parts: seq<string>) returns (k: nat)
    requires !NoneOf(DumpAll(parts), HasBreak)
    ensures k < |parts| && !RawBreakFree(parts[k])
    ensures After(DumpAll(parts), HasBreak).Cons? && After(DumpAll(parts), HasBreak).head == Dumps(parts[k])
  {
    DumpsBreakFree(parts[0]);
    if RawBreakFree(parts[0]) {
      k := FirstBrokenPart(parts[1..]);
      k := k + 1;
    } else {
      k := 0;
    }
  }

  /** The piece of a line that is read back keeps the role of the line but does not decode. */
  ghost predicate LeavesPiece(lines: List<string>, piece: string) {
    && After(lines, HasBreak).Cons?
    && var bad := After(lines, HasBreak).head;
       && LineLength(bad) < |bad| && bad[..LineLength(bad)] == piece
       && if Until(lines, HasBreak).Nil? then IsMsgstr(piece) && KeywordText(piece) == None
          else !IsUnquoted(piece) && QuotedText(piece) == None
  }

  lemma {:induction false} MultiLinePiece(t: string) returns (piece: string)
    requires !RawBreakFree(t) && '\n' in t
    ensures LeavesPiece(Written(t), piece)
  {
    WrittenBreakFree(t);
    assert BreakFree(StrLine(t));
    var parts := SplitLinesKeep(t);
    var k := FirstBrokenPart(parts);
    var u := BrokenPiece("", parts[k]);
    assert "" + Dumps(parts[k]) == Dumps(parts[k]);
    piece := "\"" + Escape(u);
    assert "" + piece == piece && piece[..1] == "\"";
    UnterminatedText(u);
  }

  lemma {:induction false} OneLinePiece(t: string) returns (piece: string)
    requires !RawBreakFree(t) && '\n' !in t
    ensures LeavesPiece(Written(t), piece)
  {
    WrittenBreakFree(t);
    var u := BrokenPiece("msgstr ", t);
    piece := "msgstr " + ("\"" + Escape(u));
    assert StrLine(t) == "msgstr " + Dumps(t) && HasBreak(StrLine(t));
    assert piece[..7] == "msgstr ";
    KeywordTextIs("\"" + Escape(u));
    UnterminatedText(u);
  }

  /**
   What is left of the lines written for a translation with a raw break: some intact lines and
   then a piece that keeps the role of its line but does not decode.
   */
  lemma {:induction false} WrittenPiece(t: string) returns (piece: string)
    requires !RawBreakFree(t)
    ensures LeavesPiece(Written(t), piece)
  {
    if '\n' in t {
      piece := MultiLinePiece(t);
    } else {
      piece := OneLinePiece(t);
    }
  }

  /** Reading text that starts with a broken line. */
  lemma {:induction false} SplitBroken(bad: string, after: string) returns (more: seq<string>)
    requires LineLength(bad) < |bad|
    ensures SplitLines(bad + after) == [bad[..LineLength(bad)]] + more
  {
    var n, tail := LineLength(bad), bad + after;
    assert tail[..n] == bad[..n] && tail[n] == bad[n];
    LineLengthUnique(tail, n);
    more := SplitLines(tail[AfterBreak(tail, n)..]);
  }

  lemma {:induction false} WriteBroken(before: List<string>, bad: string, after: List<string>)
    ensures WriteLines(ToSeq(Append(before, Cons(bad, after))))
            == WriteLines(ToSeq(before)) + (bad + ("\n" + WriteLines(ToSeq(after))))
  {
    ToSeqAppend(before, Cons(bad, after));
    WriteLinesAppend(ToSeq(before), [bad] + ToSeq(after));
    assert ([bad] + ToSeq(after))[1..] == ToSeq(after);
  }

  lemma {:induction false} FromBroken(before: List<string>, piece: string, more: seq<string>)
    ensures From(ToSeq(before) + ([piece] + more), 0) == Append(before, Cons(piece, From([piece] + more, 1)))
  {
    FromConcat(ToSeq(before), [piece] + more, 0);
    FromToSeq(before);
  }

  /** Writing lines of which one has a break and reading them back. */
  lemma {:induction false} RereadBroken(before: List<string>, bad: string, after: List<string>) returns (rest: List<string>)
    requires NoneOf(before, HasBreak) && LineLength(bad) < |bad|
    ensures From(SplitLines(WriteLines(ToSeq(Append(before, Cons(bad, after))))), 0)
            == Append(before, Cons(bad[..LineLength(bad)], rest))
  {
    var tail := "\n" + WriteLines(ToSeq(after));
    WriteBroken(before, bad, after);
    ToSeqBreakFree(before);
    SplitWriteLines(ToSeq(before), bad + tail);
    var more := SplitBroken(bad, tail);
    FromBroken(before, bad[..LineLength(bad)], more);
    rest := From([bad[..LineLength(bad)]] + more, 1);
  }

  /** A `msgstr` field that does not decode raises, whatever precedes and follows it. */
  lemma {:induction false} BadFieldRaises<T(!new)>(
    id: Field<T>, between: List<T>, line: T, more: List<T>, index: nat, f: Format<T>)
    requires MarksLawful(f) && id.Valid(f.marks.id, f.marks.unquoted)
    requires StartsWithMark(between, f.marks.unquoted) && NoneOf(between, f.marks.str) && f.marks.str(line)
    requires Combine(f.keywordText(line), DecodeQuoted(Until(more, f.marks.unquoted), f)) == None
    ensures ParseFrom(id.Then(Append(between, Cons(line, more))), index, f) == None
  {
    var rest := Append(between, Cons(line, more));
    CutFieldOfField(id, rest, f.marks.id, f.marks.unquoted);
    UntilOfAppend(between, Cons(line, more), f.marks.str);
  }

  lemma {:induction false} RaisesAfter<T(!new)>(seg: Segment<T>, rest: List<T>, index: nat, f: Format<T>)
    requires MarksLawful(f) && seg.Valid(f.marks) && StartsWithMark(rest, f.marks.blank)
    requires ParseFrom(rest, index + seg.Size(), f) == None
    ensures ParseFrom(seg.Then(rest), index, f) == None
  {
    CutEntryOfSegment(seg, rest, f.marks);
    ParseFromCut(seg.Then(rest), index, seg, rest, f);
  }

  /** An exception after some readable segments is an exception of the whole parse. */
  lemma {:induction false} RaisesLater<T(!new)>(segs: seq<Segment<T>>, lines: List<T>, index: nat, f: Format<T>)
    requires MarksLawful(f) && ValidSegs(segs, f.marks) && StartsWithMark(lines, f.marks.blank)
    requires forall i: nat :: ParseFrom(lines, i, f) == None
    ensures ParseFrom(SegLines(segs, lines), index, f) == None
  {
    if segs != [] {
      var rest := SegLines(segs[1..], lines);
      RaisesLater(segs[1..], lines, index + segs[0].Size(), f);
      SegLinesStart(segs[1..], lines, f.marks);
      RaisesAfter(segs[0], rest, index, f);
    }
  }

  lemma {:induction l} DecodeStops<T>(l: List<T>, x: T, rest: List<T>, f: Format<T>)
    requires f.quotedText(x) == None
    ensures DecodeQuoted(Append(l, Cons(x, rest)), f) == None
  {
  }

  /** The lines of an entry whose written `msgstr` field is cut short by a break. */
  lemma {:induction false} CutShortRaises(seg: Segment<string>, t: string, piece: string, rest: List<string>, index: nat)
    requires seg.Valid(PO.marks) && !RawBreakFree(t)
    requires if Until(Written(t), HasBreak).Nil? then IsMsgstr(piece) && KeywordText(piece) == None
             else !IsUnquoted(piece) && QuotedText(piece) == None
    ensures ParseFrom(seg.id.Then(Append(seg.str.before, Append(Until(Written(t), HasBreak), Cons(piece, rest)))), index, PO)
            == None
  {
    PoMarksLawful();
    var intact := Until(Written(t), HasBreak);
    if intact.Nil? {
      BadFieldRaises(seg.id, seg.str.before, piece, rest, index, PO);
    } else {
      assert intact == Cons(StrLine(t), Until(EncodeMore(t), HasBreak));
      var good := intact.tail;
      NoneOfSuffix(EncodeMore(t), HasBreak, PO.marks.unquoted);
      UntilSkips(good, Cons(piece, rest), PO.marks.unquoted);
      DecodeStops(good, piece, Until(rest, PO.marks.unquoted), PO);
      assert PO.marks.str(PO.strLine(t));
      BadFieldRaises(seg.id, seg.str.before, StrLine(t), Append(good, Cons(piece, rest)), index, PO);
    }
  }

  lemma {:induction false} BeforeStrThen<T>(seg: Segment<T>, rest: List<T>)
    ensures Append(BeforeStr(seg), rest) == seg.id.Then(Append(seg.str.before, rest))
  {
    AppendAssoc(seg.id.more, seg.str.before, rest);
    AppendAssoc(seg.id.before, Cons(seg.id.line, Append(seg.id.more, seg.str.before)), rest);
  }

  /** Lines up to somewhere inside the `msgstr` field of a segment, followed by `rest`. */
  function Upto<T>(front: seq<Segment<T>>, seg: Segment<T>, intact: List<T>): List<T> {
    Append(SegLines(front, Nil), Append(BeforeStr(seg), intact))
  }

  lemma {:induction false} UptoThen<T>(front: seq<Segment<T>>, seg: Segment<T>, intact: List<T>, rest: List<T>)
    ensures Append(Upto(front, seg, intact), rest)
            == SegLines(front, seg.id.Then(Append(seg.str.before, Append(intact, rest))))
  {
    var here := Append(BeforeStr(seg), intact);
    AppendAssoc(SegLines(front, Nil), here, rest);
    AppendAssoc(BeforeStr(seg), intact, rest);
    BeforeStrThen(seg, Append(intact, rest));
    SegLinesIsPrefix(front, Append(here, rest));
  }

  /** The lines of a document, split inside a field that was written for `t`. */
  lemma {:induction false} SplitAtBreak(front: seq<Segment<string>>, seg: Segment<string>, t: string, later: List<string>)
    requires Cons(seg.str.line, seg.str.more) == Written(t)
    ensures SegLines(front, seg.Then(later))
            == Append(Upto(front, seg, Until(Written(t), HasBreak)),
                      Append(After(Written(t), HasBreak), Append(seg.trailer, later)))
  {
    var rest := Append(seg.trailer, later);
    var intact, broken := Until(Written(t), HasBreak), After(Written(t), HasBreak);
    UntilAfter(Written(t), HasBreak);
    AppendAssoc(intact, broken, rest);
    UptoThen(front, seg, intact, Append(broken, rest));
  }

  lemma {:induction false} UptoBreakFree(front: seq<Segment<string>>, seg: Segment<string>, intact: List<string>)
    requires (forall k | 0 <= k < |front| :: SegBreakFree(front[k])) && NoneOf(BeforeStr(seg), HasBreak)
    requires NoneOf(intact, HasBreak)
    ensures NoneOf(Upto(front, seg, intact), HasBreak)
  {
    SegLinesBreakFreeIff(front, Nil);
    NoneOfAppend(BeforeStr(seg), intact, HasBreak);
    NoneOfAppend(SegLines(front, Nil), Append(BeforeStr(seg), intact), HasBreak);
  }

  /** Re-reading a document with a broken field after intact segments raises. */
  lemma {:induction false} BrokenDocRaises(
    front: seq<Segment<string>>, seg: Segment<string>, t: string, later: List<string>)
    requires ValidSegs(front, PO.marks) && seg.Valid(PO.marks)
    requires front != [] ==> StartsBlank(seg, PO.marks)
    requires (forall k | 0 <= k < |front| :: SegBreakFree(front[k])) && NoneOf(BeforeStr(seg), HasBreak)
    requires Cons(seg.str.line, seg.str.more) == Written(t) && !RawBreakFree(t)
    ensures ParseText(WriteLines(ToSeq(SegLines(front, seg.Then(later))))) == None
  {
    var intact, broken := Until(Written(t), HasBreak), After(Written(t), HasBreak);
    UntilAfter(Written(t), HasBreak);
    var piece := WrittenPiece(t);
    SplitAtBreak(front, seg, t, later);
    UptoBreakFree(front, seg, intact);
    var rest := RereadBroken(Upto(front, seg, intact), broken.head, Append(broken.tail, Append(seg.trailer, later)));
    UptoThen(front, seg, intact, Cons(piece, rest));
    var lines := seg.id.Then(Append(seg.str.before, Append(intact, Cons(piece, rest))));
    forall k: nat
      ensures ParseFrom(lines, k, PO) == None
    {
      CutShortRaises(seg, t, piece, rest, k);
    }
    if front != [] {
      PoMarksLawful();
      RaisesLater(front, lines, 0, PO);
    }
  }

  lemma {:induction false} SegLinesAt<T>(segs: seq<Segment<T>>, tail: List<T>, i: nat)
    requires i < |segs|
    ensures SegLines(segs, tail) == SegLines(segs[..i], segs[i].Then(SegLines(segs[i + 1..], tail)))
  {
    assert segs == segs[..i] + segs[i..];
    SegLinesAppend(segs[..i], segs[i..], tail);
    assert segs[i..][1..] == segs[i + 1..];
  }

  lemma {:induction false} ValidFront<T>(segs: seq<Segment<T>>, m: Marks<T>, i: nat)
    requires ValidSegs(segs, m) && i < |segs|
    ensures ValidSegs(segs[..i], m) && segs[i].Valid(m) && (segs[..i] != [] ==> StartsBlank(segs[i], m))
  {
  }

  lemma {:induction false} UpdatedFront(
    segs: seq<Segment<string>>, entries: seq<PoEntry>, budget: int, tr: nat -> string, i: nat)
    requires |segs| == |entries| && i < |segs| && Chosen(entries, i, budget)
    requires ChosenWellFormed(segs, entries, budget, PO)
    requires forall k | 0 <= k < |segs| :: SegBreakFree(segs[k])
    requires forall k | 0 <= k < i && Chosen(entries, k, budget) :: RawBreakFree(tr(k))
    ensures var upd := Updated(segs, entries, budget, tr, PO);
            && (forall k | 0 <= k < i :: SegBreakFree(upd[..i][k]))
            && NoneOf(BeforeStr(upd[i]), HasBreak)
            && Cons(upd[i].str.line, upd[i].str.more) == Written(tr(i))
  {
    var upd := Updated(segs, entries, budget, tr, PO);
    forall k | 0 <= k < i
      ensures SegBreakFree(upd[k])
    {
      if Chosen(entries, k, budget) {
        EditBreakFree(segs[k], tr(k));
      }
    }
    EditBreakFree(segs[i], tr(i));
  }

  /** A chosen translation with a raw break, all earlier ones without: the written file does not parse. */
  lemma {:induction false} RereadBad(text: string, budget: int, tr: nat -> string, i: nat)
    requires ParseText(text).Some?
    requires ChosenWellFormed(DocOf(text).segs, Entries(text), budget, PO)
    requires i < |DocOf(text).segs| && Chosen(Entries(text), i, budget) && !RawBreakFree(tr(i))
    requires forall k | 0 <= k < i && Chosen(Entries(text), k, budget) :: RawBreakFree(tr(k))
    ensures ParseText(NewText(text, budget, tr)) == None
  {
    var doc, entries := DocOf(text), Entries(text);
    var upd := Updated(doc.segs, entries, budget, tr, PO);
    PoMarksLawful();
    SplitValid(From(SplitLines(text), 0), PO.marks);
    UpdatedValid(doc, entries, budget, tr, PO);
    ValidFront(upd, PO.marks, i);
    DocBreakFree(text);
    UpdatedFront(doc.segs, entries, budget, tr, i);
    SegLinesAt(upd, doc.tail, i);
    BrokenDocRaises(upd[..i], upd[i], tr(i), SegLines(upd[i + 1..], doc.tail));
  }

  /**
   Reading the written file gives the same entries, the chosen ones translated and no longer
   fuzzy, if and only if no translation that was written contains U+0085, U+2028 or U+2029.
   */
  lemma {:induction false} RereadIff(text: string, budget: int, tr: nat -> string)
    requires ParseText(text).Some?
    requires ChosenWellFormed(DocOf(text).segs, Entries(text), budget, PO)
    ensures (ParseText(NewText(text, budget, tr)).Some?
             && Messages(ParseText(NewText(text, budget, tr)).value) == Intended(Entries(text), budget, tr))
            <==> ChosenRawBreakFree(Entries(text), budget, tr)
  {
    var entries := Entries(text);
    if ChosenRawBreakFree(entries, budget, tr) {
      RereadGood(text, budget, tr);
    } else {
      var i: nat :| i < |entries| && Chosen(entries, i, budget) && !RawBreakFree(tr(i));
      while exists k: nat :: k < i && Chosen(entries, k, budget) && !RawBreakFree(tr(k))
        invariant i < |entries| && Chosen(entries, i, budget) && !RawBreakFree(tr(i))
        decreases i
      {
        var k: nat :| k < i && Chosen(entries, k, budget) && !RawBreakFree(tr(k));
        i := k;
      }
      RereadBad(text, budget, tr, i);
    }
  }
}
