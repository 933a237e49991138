/**
 Parsing a `.po` file into entries, in one pass over an advancing index.

 The parser is generic in the line type: a `Format` says how a line is marked, decoded
 and searched for flags. `PoFormat` gives the format of the real files.
 */
module PoParser {
  import opened Text
  import opened Lists
  import opened PoLayout

  datatype Format<!T> = Format(
    marks: Marks<T>,
    keywordText: T -> Option<string>,  // the quoted text of a keyword line
    quotedText: T -> Option<string>,   // the text of a continuation line
    isFlag: T -> bool,
    flags: T -> set<string>,
    strLine: string -> T,              // the `msgstr` line written for a translation
    strMore: string -> List<T>,        // and its continuation lines
    cleanFlag: T -> Option<T>)         // a flag line without its fuzzy marker, if anything is left

  function Combine(first: Option<string>, rest: Option<string>): Option<string> {
    if first.Some? && rest.Some? then Some(first.value + rest.value) else None
  }

  function DecodeQuoted<T>(lines: List<T>, f: Format<T>): Option<string> {
    if lines.Nil? then Some("")
    else Combine(f.quotedText(lines.head), DecodeQuoted(lines.tail, f))
  }

  /** The value of a `msgid` or `msgstr` field; None is a decoding exception. */
  function FieldValue<T>(field: Field<T>, f: Format<T>): Option<string> {
    Combine(f.keywordText(field.line), DecodeQuoted(field.more, f))
  }

  /** All flags on the flag lines of a header. */
  function Flags<T>(header: List<T>, f: Format<T>): set<string> {
    if header.Nil? then {}
    else if f.isFlag(header.head) then f.flags(header.head) + Flags(header.tail, f)
    else Flags(header.tail, f)
  }

  datatype Message = Message(flags: set<string>, msgid: string, msgstr: string)

  datatype PoEntry = PoEntry(start: nat, end: nat, message: Message)

  /** The message of one segment, or None if one of its fields does not decode. */
  function Read<T>(seg: Segment<T>, f: Format<T>): Option<Message> {
    var msgid, msgstr := FieldValue(seg.id, f), FieldValue(seg.str, f);
    if msgid.Some? && msgstr.Some? then Some(Message(Flags(seg.id.before, f), msgid.value, msgstr.value))
    else None
  }

  /** A trailing `msgid` without `msgstr` is still decoded before the parser gives up. */
  predicate TailDecodes<T>(tail: List<T>, f: Format<T>) {
    match CutField(tail, f.marks.id, f.marks.unquoted)
    case NoField => true
    case FieldCut(field, _) => FieldValue(field, f).Some?
  }

  /** What one turn of the parsing loop finds: an exception, no further entry, or an entry. */
  datatype Turn<T> = Raised | Finished | Found(entry: PoEntry, rest: List<T>)

  function TurnAt<T>(lines: List<T>, index: nat, f: Format<T>): Turn<T> {
    match CutEntry(lines, f.marks)
    case NoEntry => if TailDecodes(lines, f) then Finished else Raised
    case Cut(seg, rest) =>
      match Read(seg, f)
      case None => Raised
      case Some(message) => Found(PoEntry(index, index + seg.Size(), message), rest)
  }

  function Prepend(entries: seq<PoEntry>, rest: Option<seq<PoEntry>>): Option<seq<PoEntry>> {
    if rest.Some? then Some(entries + rest.value) else None
  }

  /** The entries of the lines still to be read, the first of them at `index`; None is an exception. */
  function ParseFrom<T>(lines: List<T>, index: nat, f: Format<T>): Option<seq<PoEntry>>
    decreases Len(lines)
  {
    CutEntrySize(lines, f.marks);
    match TurnAt(lines, index, f)
    case Raised => None
    case Finished => Some([])
    case Found(entry, rest) => Prepend([entry], ParseFrom(rest, entry.end, f))
  }

  function Parse<T>(lines: seq<T>, f: Format<T>): Option<seq<PoEntry>> {
    ParseFrom(From(lines, 0), 0, f)
  }

  // ---- parsing the lines of a document ----

  predicate AllRead<T>(segs: seq<Segment<T>>, f: Format<T>) {
    forall i | 0 <= i < |segs| :: Read(segs[i], f).Some?
  }

  /** The entries of some segments: where each starts and ends, and what it says. */
  function Entries<T>(segs: seq<Segment<T>>, start: nat, f: Format<T>): (es: seq<PoEntry>)
    requires AllRead(segs, f)
    ensures |es| == |segs|
  {
    if segs == [] then []
    else
      var end := start + segs[0].Size();
      [PoEntry(start, end, Read(segs[0], f).value)] + Entries(segs[1..], end, f)
  }

  lemma {:induction false} EntriesAt<T>(segs: seq<Segment<T>>, start: nat, f: Format<T>, i: nat)
    requires AllRead(segs, f) && i < |segs|
    ensures var at := start + StartOf(segs, i);
            Entries(segs, start, f)[i] == PoEntry(at, at + segs[i].Size(), Read(segs[i], f).value)
    decreases i
  {
    if i > 0 {
      EntriesAt(segs[1..], start + segs[0].Size(), f, i - 1);
    }
  }

  lemma {:induction false} AllReadCons<T>(segs: seq<Segment<T>>, f: Format<T>)
    requires segs != []
    ensures AllRead(segs, f) <==> Read(segs[0], f).Some? && AllRead(segs[1..], f)
  {
    if AllRead(segs[1..], f) {
      assert forall i | 1 <= i < |segs| :: segs[i] == segs[1..][i - 1];
    }
  }

  lemma {:induction false} ParseFromCut<T>(lines: List<T>, index: nat, seg: Segment<T>, rest: List<T>, f: Format<T>)
    requires CutEntry(lines, f.marks) == Cut(seg, rest)
    ensures ParseFrom(lines, index, f)
            == if Read(seg, f).Some? then
                 Prepend([PoEntry(index, index + seg.Size(), Read(seg, f).value)],
                         ParseFrom(rest, index + seg.Size(), f))
               else None
  {
  }

  lemma {:induction false} ParseNoEntry<T>(lines: List<T>, index: nat, f: Format<T>)
    requires CutEntry(lines, f.marks) == NoEntry
    ensures ParseFrom(lines, index, f) == if TailDecodes(lines, f) then Some([]) else None
  {
  }

  /** Parsing the lines of a valid document gives the entries of its segments. */
  lemma {:induction false} ParseDoc<T(!new)>(doc: Doc<T>, index: nat, f: Format<T>)
    requires Consistent(f.marks) && ValidDoc(doc, f.marks)
    ensures ParseFrom(DocLines(doc), index, f)
            == if AllRead(doc.segs, f) && TailDecodes(doc.tail, f) then Some(Entries(doc.segs, index, f)) else None
    decreases |doc.segs|
  {
    if doc.segs == [] {
      ParseNoEntry(doc.tail, index, f);
    } else {
      var seg, rest := doc.segs[0], Doc(doc.segs[1..], doc.tail);
      SegLinesStart(rest.segs, rest.tail, f.marks);
      CutEntryOfSegment(seg, DocLines(rest), f.marks);
      ParseFromCut(DocLines(doc), index, seg, DocLines(rest), f);
      ParseDoc(rest, index + seg.Size(), f);
      AllReadCons(doc.segs, f);
    }
  }

  // ---- the single pass of the source ----

  lemma {:induction false} CombineStep(text: string, part: string, rest: Option<string>)
    ensures Combine(Some(text), Combine(Some(part), rest)) == Combine(Some(text + part), rest)
  {
    if rest.Some? {
      assert text + (part + rest.value) == (text + part) + rest.value;
    }
  }

  /** Read one field at `index`; None stands for the exception of a bad literal. */
  method CollectField<T>(lines: seq<T>, index: nat, f: Format<T>) returns (value: Option<string>, next: nat)
    requires index < |lines|
    ensures value == Combine(f.keywordText(lines[index]),
                             DecodeQuoted(Until(From(lines, index + 1), f.marks.unquoted), f))
    ensures index < next <= |lines|
    ensures value.Some? ==> From(lines, next) == After(From(lines, index + 1), f.marks.unquoted)
  {
    value, next := f.keywordText(lines[index]), index + 1;
    if value == None {
      return;
    }
    var text := value.value;
    ghost var whole := Combine(value, DecodeQuoted(Until(From(lines, next), f.marks.unquoted), f));
    while next < |lines| && !f.marks.unquoted(lines[next])
      invariant index < next <= |lines|
      invariant After(From(lines, next), f.marks.unquoted) == After(From(lines, index + 1), f.marks.unquoted)
      invariant whole == Combine(Some(text), DecodeQuoted(Until(From(lines, next), f.marks.unquoted), f))
    {
      var part := f.quotedText(lines[next]);
      if part == None {
        return None, next;
      }
      CombineStep(text, part.value, DecodeQuoted(Until(From(lines, next + 1), f.marks.unquoted), f));
      text := text + part.value;
      next := next + 1;
    }
    assert text + "" == text;
    value := Some(text);
  }

  /** Advance over the comment lines before a `msgid`, collecting the flags. */
  method ReadHeader<T>(lines: seq<T>, index: nat, f: Format<T>) returns (flags: set<string>, next: nat)
    requires index <= |lines|
    ensures index <= next <= |lines| && From(lines, next) == After(From(lines, index), f.marks.id)
    ensures flags == Flags(Until(From(lines, index), f.marks.id), f)
  {
    flags, next := {}, index;
    while next < |lines| && !f.marks.id(lines[next])
      invariant index <= next <= |lines|
      invariant After(From(lines, next), f.marks.id) == After(From(lines, index), f.marks.id)
      invariant flags + Flags(Until(From(lines, next), f.marks.id), f) == Flags(Until(From(lines, index), f.marks.id), f)
    {
      if f.isFlag(lines[next]) {
        flags := flags + f.flags(lines[next]);
      }
      next := next + 1;
    }
  }

  /** Advance to the first line with a mark. */
  method SkipTo<T>(lines: seq<T>, index: nat, mark: T -> bool) returns (next: nat)
    requires index <= |lines|
    ensures index <= next <= |lines| && From(lines, next) == After(From(lines, index), mark)
  {
    next := index;
    while next < |lines| && !mark(lines[next])
      invariant index <= next <= |lines|
      invariant After(From(lines, next), mark) == After(From(lines, index), mark)
    {
      next := next + 1;
    }
  }

  /** One turn of the parsing loop. */
  method ReadEntry<T>(lines: seq<T>, index: nat, f: Format<T>) returns (turn: Turn<T>)
    requires index < |lines|
    ensures turn == TurnAt(From(lines, index), index, f)
    ensures turn.Found? ==> index < turn.entry.end <= |lines| && From(lines, turn.entry.end) == turn.rest
  {
    var flags, a := ReadHeader(lines, index, f);
    if a == |lines| {
      return Finished;
    }
    var msgid, b := CollectField(lines, a, f);
    if msgid == None {
      return Raised;
    }
    var c := SkipTo(lines, b, f.marks.str);
    if c == |lines| {
      return Finished;
    }
    var msgstr, d := CollectField(lines, c, f);
    if msgstr == None {
      return Raised;
    }
    var e := SkipTo(lines, d, f.marks.blank);
    CutEntrySize(From(lines, index), f.marks);
    LenFrom(lines, index);
    LenFrom(lines, e);
    return Found(PoEntry(index, e, Message(flags, msgid.value, msgstr.value)), From(lines, e));
  }

  lemma {:induction false} PrependStep(entries: seq<PoEntry>, entry: PoEntry, rest: Option<seq<PoEntry>>)
    ensures Prepend(entries, Prepend([entry], rest)) == Prepend(entries + [entry], rest)
  {
    if rest.Some? {
      assert entries + ([entry] + rest.value) == (entries + [entry]) + rest.value;
    }
  }

  /** One pass over the lines gives exactly the entries of the cut-and-decode definition. */
  method ParseEntries<T(!new)>(lines: seq<T>, f: Format<T>) returns (result: Option<seq<PoEntry>>)
    ensures result == Parse(lines, f)
  {
    var entries: seq<PoEntry> := [];
    var index := 0;
    ghost var whole := Parse(lines, f);
    assert whole.Some? ==> [] + whole.value == whole.value;
    while index < |lines|
      invariant index <= |lines|
      invariant whole == Prepend(entries, ParseFrom(From(lines, index), index, f))
    {
      var turn := ReadEntry(lines, index, f);
      if turn.Raised? {
        return None;
      } else if turn.Finished? {
        assert entries + [] == entries;
        return Some(entries);
      }
      PrependStep(entries, turn.entry, ParseFrom(turn.rest, turn.entry.end, f));
      entries := entries + [turn.entry];
      index := turn.entry.end;
    }
    assert entries + [] == entries;
    result := Some(entries);
  }
}
