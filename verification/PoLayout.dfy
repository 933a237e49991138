/**
 The line structure of a `.po` file, independent of what the lines contain.

 Four marks classify a line: it starts a `msgid` field, starts a `msgstr` field, is
 not a quoted continuation line, or is blank. A file is a sequence of segments, one
 per entry, followed by a tail without a complete entry. `Split` finds the segments
 from the marks alone; it is shown to be the inverse of concatenation.
 */
module PoLayout {
  import opened Lists

  datatype Marks<!T> = Marks(id: T -> bool, str: T -> bool, unquoted: T -> bool, blank: T -> bool)

  /** A blank line carries no keyword and ends a quoted run, and so does a `msgstr` line. */
  ghost predicate Consistent<T(!new)>(m: Marks<T>) {
    && (forall x :: m.blank(x) ==> !m.id(x) && !m.str(x) && m.unquoted(x))
    && (forall x :: m.str(x) ==> m.unquoted(x))
  }

  /** Lines before a keyword line, the keyword line, and its quoted continuation lines. */
  datatype Field<T> = Field(before: List<T>, line: T, more: List<T>)
  {
    function Then(rest: List<T>): List<T> {
      Append(before, Cons(line, Append(more, rest)))
    }

    function Size(): nat {
      Len(before) + 1 + Len(more)
    }

    ghost predicate Valid(keyword: T -> bool, unquoted: T -> bool) {
      NoneOf(before, keyword) && keyword(line) && NoneOf(more, unquoted)
    }
  }

  datatype FieldCut<T> = NoField | FieldCut(field: Field<T>, rest: List<T>)

  function CutField<T>(lines: List<T>, keyword: T -> bool, unquoted: T -> bool): FieldCut<T> {
    match After(lines, keyword)
    case Nil => NoField
    case Cons(line, after) =>
      FieldCut(Field(Until(lines, keyword), line, Until(after, unquoted)), After(after, unquoted))
  }

  /** One entry: comments and `msgid` field, `msgstr` field, and what follows up to a blank line. */
  datatype Segment<T> = Segment(id: Field<T>, str: Field<T>, trailer: List<T>)
  {
    /** The lines of the segment, followed by `rest`. */
    function Then(rest: List<T>): List<T> {
      id.Then(str.Then(Append(trailer, rest)))
    }

    function Size(): nat {
      id.Size() + str.Size() + Len(trailer)
    }

    ghost predicate Valid(m: Marks<T>) {
      && id.Valid(m.id, m.unquoted) && StartsWithMark(str.before, m.unquoted)
      && str.Valid(m.str, m.unquoted) && StartsWithMark(trailer, m.unquoted)
      && NoneOf(trailer, m.blank)
    }
  }

  /** The first segment of some lines and what follows it, or no complete entry. */
  datatype Cut<T> = NoEntry | Cut(seg: Segment<T>, rest: List<T>)

  function CutEntry<T>(lines: List<T>, m: Marks<T>): Cut<T> {
    match CutField(lines, m.id, m.unquoted)
    case NoField => NoEntry
    case FieldCut(id, afterId) =>
      match CutField(afterId, m.str, m.unquoted)
      case NoField => NoEntry
      case FieldCut(str, afterStr) =>
        Cut(Segment(id, str, Until(afterStr, m.blank)), After(afterStr, m.blank))
  }

  lemma {:induction false} CutFieldSize<T>(lines: List<T>, keyword: T -> bool, unquoted: T -> bool)
    ensures var cut := CutField(lines, keyword, unquoted);
            cut.FieldCut? ==> Len(lines) == cut.field.Size() + Len(cut.rest)
  {
    UntilAfter(lines, keyword);
    var after := After(lines, keyword);
    if after.Cons? {
      UntilAfter(after.tail, unquoted);
    }
  }

  lemma {:induction false} CutEntrySize<T>(lines: List<T>, m: Marks<T>)
    ensures var cut := CutEntry(lines, m);
            cut.Cut? ==> Len(lines) == cut.seg.Size() + Len(cut.rest)
  {
    CutFieldSize(lines, m.id, m.unquoted);
    var cut := CutField(lines, m.id, m.unquoted);
    if cut.FieldCut? {
      CutFieldSize(cut.rest, m.str, m.unquoted);
      var cut2 := CutField(cut.rest, m.str, m.unquoted);
      if cut2.FieldCut? {
        UntilAfter(cut2.rest, m.blank);
      }
    }
  }

  datatype Doc<T> = Doc(segs: seq<Segment<T>>, tail: List<T>)

  function Split<T>(lines: List<T>, m: Marks<T>): Doc<T>
    decreases Len(lines)
  {
    CutEntrySize(lines, m);
    match CutEntry(lines, m)
    case NoEntry => Doc([], lines)
    case Cut(seg, rest) =>
      var doc := Split(rest, m);
      Doc([seg] + doc.segs, doc.tail)
  }

  /** The lines of some segments, followed by `tail`. */
  function SegLines<T>(segs: seq<Segment<T>>, tail: List<T>): List<T> {
    if segs == [] then tail else segs[0].Then(SegLines(segs[1..], tail))
  }

  function DocLines<T>(doc: Doc<T>): List<T> {
    SegLines(doc.segs, doc.tail)
  }

  ghost predicate StartsBlank<T>(seg: Segment<T>, m: Marks<T>) {
    seg.id.before.Cons? && m.blank(seg.id.before.head)
  }

  ghost predicate ValidSegs<T>(segs: seq<Segment<T>>, m: Marks<T>) {
    && (forall i | 0 <= i < |segs| :: segs[i].Valid(m))
    && (forall i | 1 <= i < |segs| :: StartsBlank(segs[i], m))
  }

  ghost predicate ValidDoc<T>(doc: Doc<T>, m: Marks<T>) {
    && ValidSegs(doc.segs, m)
    && CutEntry(doc.tail, m) == NoEntry
    && (doc.segs != [] ==> StartsWithMark(doc.tail, m.blank))
  }

  // ---- splitting and concatenating are inverse ----

  lemma {:induction false} CutFieldJoins<T>(lines: List<T>, keyword: T -> bool, unquoted: T -> bool)
    requires CutField(lines, keyword, unquoted).FieldCut?
    ensures var cut := CutField(lines, keyword, unquoted);
            && cut.field.Then(cut.rest) == lines
            && cut.field.Valid(keyword, unquoted) && StartsWithMark(cut.rest, unquoted)
  {
    UntilAfter(lines, keyword);
    UntilAfter(After(lines, keyword).tail, unquoted);
  }

  lemma {:induction false} CutFieldOfField<T>(f: Field<T>, rest: List<T>, keyword: T -> bool, unquoted: T -> bool)
    requires f.Valid(keyword, unquoted) && StartsWithMark(rest, unquoted)
    ensures CutField(f.Then(rest), keyword, unquoted) == FieldCut(f, rest)
  {
    UntilOfAppend(f.before, Cons(f.line, Append(f.more, rest)), keyword);
    UntilOfAppend(f.more, rest, unquoted);
  }

  lemma {:induction false} CutEntryValid<T(!new)>(lines: List<T>, m: Marks<T>)
    requires Consistent(m) && CutEntry(lines, m).Cut?
    ensures var cut := CutEntry(lines, m);
            && cut.seg.Then(cut.rest) == lines
            && cut.seg.Valid(m) && StartsWithMark(cut.rest, m.blank)
            && (StartsWithMark(lines, m.blank) ==> StartsBlank(cut.seg, m))
  {
    CutFieldJoins(lines, m.id, m.unquoted);
    var afterId := CutField(lines, m.id, m.unquoted).rest;
    CutFieldJoins(afterId, m.str, m.unquoted);
    UntilAfter(CutField(afterId, m.str, m.unquoted).rest, m.blank);
  }

  lemma {:induction false} ValidCons<T>(seg: Segment<T>, doc: Doc<T>, m: Marks<T>)
    requires seg.Valid(m) && ValidDoc(doc, m)
    requires doc.segs != [] ==> StartsBlank(doc.segs[0], m)
    requires doc.segs == [] ==> StartsWithMark(doc.tail, m.blank)
    ensures ValidDoc(Doc([seg] + doc.segs, doc.tail), m)
  {
  }

  /** Every file is a valid document. */
  lemma {:induction false} SplitValid<T(!new)>(lines: List<T>, m: Marks<T>)
    requires Consistent(m)
    ensures ValidDoc(Split(lines, m), m) && DocLines(Split(lines, m)) == lines
    ensures StartsWithMark(lines, m.blank) && Split(lines, m).segs != []
            ==> StartsBlank(Split(lines, m).segs[0], m)
    decreases Len(lines)
  {
    var cut := CutEntry(lines, m);
    if cut.Cut? {
      CutEntrySize(lines, m);
      CutEntryValid(lines, m);
      SplitValid(cut.rest, m);
      var doc := Split(cut.rest, m);
      ValidCons(cut.seg, doc, m);
      assert ([cut.seg] + doc.segs)[1..] == doc.segs;
    }
  }

  /** Cutting what was put together gives the pieces back. */
  lemma {:induction false} CutEntryOfSegment<T(!new)>(seg: Segment<T>, rest: List<T>, m: Marks<T>)
    requires Consistent(m) && seg.Valid(m) && StartsWithMark(rest, m.blank)
    ensures CutEntry(seg.Then(rest), m) == Cut(seg, rest)
  {
    var after := Append(seg.trailer, rest);
    CutFieldOfField(seg.id, seg.str.Then(after), m.id, m.unquoted);
    CutFieldOfField(seg.str, after, m.str, m.unquoted);
    UntilOfAppend(seg.trailer, rest, m.blank);
  }

  lemma {:induction false} SegLinesStart<T>(segs: seq<Segment<T>>, tail: List<T>, m: Marks<T>)
    requires segs != [] ==> StartsBlank(segs[0], m)
    requires segs == [] ==> StartsWithMark(tail, m.blank)
    ensures StartsWithMark(SegLines(segs, tail), m.blank)
  {
  }

  // ---- positions ----

  lemma {:induction false} SegLinesAppend<T>(a: seq<Segment<T>>, b: seq<Segment<T>>, tail: List<T>)
    ensures SegLines(a + b, tail) == SegLines(a, SegLines(b, tail))
  {
    if a == [] {
      assert a + b == b;
    } else {
      SegLinesAppend(a[1..], b, tail);
      assert (a + b)[1..] == a[1..] + b;
    }
  }

  /** Position of segment `i` in the lines of some segments. */
  function StartOf<T>(segs: seq<Segment<T>>, i: nat): nat
    requires i <= |segs|
    decreases i
  {
    if i == 0 then 0 else segs[0].Size() + StartOf(segs[1..], i - 1)
  }

  lemma {:induction false} SegThenLen<T>(seg: Segment<T>, rest: List<T>)
    ensures Len(seg.Then(rest)) == seg.Size() + Len(rest)
  {
    var after := Append(seg.trailer, rest);
    LenAppend(seg.trailer, rest);
    LenAppend(seg.str.more, after);
    LenAppend(seg.str.before, Cons(seg.str.line, Append(seg.str.more, after)));
    LenAppend(seg.id.more, seg.str.Then(after));
    LenAppend(seg.id.before, Cons(seg.id.line, Append(seg.id.more, seg.str.Then(after))));
  }

  lemma {:induction false} StartIsLength<T>(segs: seq<Segment<T>>, tail: List<T>)
    ensures Len(SegLines(segs, tail)) == StartOf(segs, |segs|) + Len(tail)
  {
    if segs != [] {
      SegThenLen(segs[0], SegLines(segs[1..], tail));
      StartIsLength(segs[1..], tail);
    }
  }
}
