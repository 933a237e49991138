/**
 Editing a `.po` file in place: writing a translation into an entry, removing its fuzzy
 marker, and the backward loop over all entries that need work.
 */
module PoEditor {
  import opened Text
  import opened Lists
  import opened PoLayout
  import opened PoParser

  const FUZZY := "fuzzy"

  /** What the edits rely on: marks exclude each other, and written lines carry the right ones. */
  ghost predicate MarksLawful<T(!new)>(f: Format<T>) {
    && Consistent(f.marks)
    && (forall x :: f.marks.id(x) ==> !f.marks.str(x) && f.marks.unquoted(x))
    && (forall x :: f.isFlag(x) ==> !f.marks.id(x) && !f.marks.str(x) && f.marks.unquoted(x) && !f.marks.blank(x))
    && (forall t :: f.marks.str(f.strLine(t)))
    && (forall t :: NoneOf(f.strMore(t), f.marks.unquoted))
    && (forall x :: f.isFlag(x) && f.cleanFlag(x).Some? ==> f.isFlag(f.cleanFlag(x).value))
  }

  /** What the meaning of an edit relies on: written text reads back, cleaning drops one flag. */
  ghost predicate TextLawful<T(!new)>(f: Format<T>) {
    && (forall t :: Combine(f.keywordText(f.strLine(t)), DecodeQuoted(f.strMore(t), f)) == Some(t))
    && (forall x :: f.isFlag(x) ==> CleanedFlags(f.cleanFlag(x), f) == f.flags(x) - {FUZZY})
  }

  function CleanedFlags<T>(line: Option<T>, f: Format<T>): set<string> {
    match line
    case None => {}
    case Some(x) => f.flags(x)
  }

  // ---- the two edits, on the lines in front of the editor ----

  /** Replace the first `msgstr` field. */
  function ReplaceStr<T>(lines: List<T>, t: string, f: Format<T>): List<T> {
    match After(lines, f.marks.str)
    case Nil => lines
    case Cons(_, rest) =>
      Append(Until(lines, f.marks.str),
             Cons(f.strLine(t), Append(f.strMore(t), After(rest, f.marks.unquoted))))
  }

  /** Rewrite or drop the first flag line. */
  function CleanFlags<T>(lines: List<T>, f: Format<T>): List<T> {
    if lines.Nil? then Nil
    else if f.isFlag(lines.head) then
      match f.cleanFlag(lines.head)
      case None => lines.tail
      case Some(line) => Cons(line, lines.tail)
    else Cons(lines.head, CleanFlags(lines.tail, f))
  }

  predicate HasFlagLine<T>(lines: List<T>, f: Format<T>) {
    lines.Cons? && (f.isFlag(lines.head) || HasFlagLine(lines.tail, f))
  }

  /** The segment after writing a translation; a `msgstr` line in the header is taken first. */
  function WriteStr<T>(seg: Segment<T>, t: string, f: Format<T>): Segment<T> {
    if NoneOf(seg.id.before, f.marks.str) then
      seg.(str := Field(seg.str.before, f.strLine(t), f.strMore(t)))
    else
      seg.(id := seg.id.(before := ReplaceStr(seg.id.before, t, f)))
  }

  function Clean<T>(seg: Segment<T>, f: Format<T>): Segment<T> {
    seg.(id := seg.id.(before := CleanFlags(seg.id.before, f)))
  }

  /** Cleaning looks for a flag line only as far as `limit` lines. */
  function CleanWithin<T>(seg: Segment<T>, limit: nat, f: Format<T>): Segment<T> {
    if Len(Until(seg.id.before, f.isFlag)) < limit then Clean(seg, f) else seg
  }

  /** Both edits of one entry; the second one still goes by the old size of the entry. */
  function Edit<T>(seg: Segment<T>, t: string, f: Format<T>): Segment<T> {
    if FUZZY in Flags(seg.id.before, f) then CleanWithin(WriteStr(seg, t, f), seg.Size(), f)
    else WriteStr(seg, t, f)
  }

  // ---- editing lines is editing segments ----

  lemma {:induction l} UntilSkips<T>(l: List<T>, rest: List<T>, mark: T -> bool)
    requires NoneOf(l, mark)
    ensures Until(Append(l, rest), mark) == Append(l, Until(rest, mark))
    ensures After(Append(l, rest), mark) == After(rest, mark)
  {
  }

  lemma {:induction l} UntilStops<T>(l: List<T>, rest: List<T>, mark: T -> bool)
    requires !NoneOf(l, mark)
    ensures Until(Append(l, rest), mark) == Until(l, mark)
    ensures After(l, mark).Cons? && After(Append(l, rest), mark) == Append(After(l, mark), rest)
  {
  }

  lemma {:induction l} AfterInside<T>(l: List<T>, rest: List<T>, mark: T -> bool)
    requires StartsWithMark(rest, mark)
    ensures After(Append(l, rest), mark) == Append(After(l, mark), rest)
  {
  }

  lemma {:induction l} NoneOfAppend<T>(l: List<T>, rest: List<T>, mark: T -> bool)
    ensures NoneOf(Append(l, rest), mark) <==> NoneOf(l, mark) && NoneOf(rest, mark)
  {
  }

  lemma {:induction l} NoneOfSuffix<T>(l: List<T>, keep: T -> bool, mark: T -> bool)
    requires NoneOf(l, mark)
    ensures NoneOf(Until(l, keep), mark) && NoneOf(After(l, keep), mark)
  {
  }

  /** Lines without one mark have no line with a mark that implies it. */
  lemma {:induction l} NoneOfStronger<T(!new)>(l: List<T>, weak: T -> bool, strong: T -> bool)
    requires NoneOf(l, weak) && forall x :: strong(x) ==> weak(x)
    ensures NoneOf(l, strong)
  {
  }

  /** Lines before the `msgstr` line of a segment. */
  function BeforeStr<T>(seg: Segment<T>): List<T> {
    Append(seg.id.before, Cons(seg.id.line, Append(seg.id.more, seg.str.before)))
  }

  lemma {:induction false} ThenBeforeStr<T>(seg: Segment<T>, rest: List<T>)
    ensures seg.Then(rest)
            == Append(BeforeStr(seg), Cons(seg.str.line, Append(seg.str.more, Append(seg.trailer, rest))))
  {
    var tail := Cons(seg.str.line, Append(seg.str.more, Append(seg.trailer, rest)));
    AppendAssoc(seg.id.more, seg.str.before, tail);
    AppendAssoc(seg.id.before, Cons(seg.id.line, Append(seg.id.more, seg.str.before)), tail);
  }

  lemma {:induction false} ReplaceStrOfSegment<T(!new)>(seg: Segment<T>, rest: List<T>, t: string, f: Format<T>)
    requires MarksLawful(f) && seg.Valid(f.marks) && StartsWithMark(rest, f.marks.blank)
    ensures ReplaceStr(seg.Then(rest), t, f) == WriteStr(seg, t, f).Then(rest)
  {
    var m := f.marks;
    var after := Append(seg.trailer, rest);
    if NoneOf(seg.id.before, m.str) {
      NoneOfStronger(seg.id.more, m.unquoted, m.str);
      NoneOfAppend(seg.id.more, seg.str.before, m.str);
      NoneOfAppend(seg.id.before, Cons(seg.id.line, Append(seg.id.more, seg.str.before)), m.str);
      ThenBeforeStr(seg, rest);
      UntilOfAppend(BeforeStr(seg), Cons(seg.str.line, Append(seg.str.more, after)), m.str);
      UntilOfAppend(seg.str.more, after, m.unquoted);
      ThenBeforeStr(WriteStr(seg, t, f), rest);
    } else {
      var tail := Cons(seg.id.line, Append(seg.id.more, seg.str.Then(after)));
      UntilStops(seg.id.before, tail, m.str);
      var h := After(seg.id.before, m.str);
      AfterInside(h.tail, tail, m.unquoted);
      var kept := After(h.tail, m.unquoted);
      AppendAssoc(f.strMore(t), kept, tail);
      AppendAssoc(Until(seg.id.before, m.str), Cons(f.strLine(t), Append(f.strMore(t), kept)), tail);
    }
  }

  lemma {:induction h} CleanFlagsOfAppend<T>(h: List<T>, rest: List<T>, f: Format<T>)
    requires HasFlagLine(h, f)
    ensures CleanFlags(Append(h, rest), f) == Append(CleanFlags(h, f), rest)
  {
  }

  lemma {:induction false} CleanOfSegment<T>(seg: Segment<T>, rest: List<T>, f: Format<T>)
    requires HasFlagLine(seg.id.before, f)
    ensures CleanFlags(seg.Then(rest), f) == Clean(seg, f).Then(rest)
  {
    CleanFlagsOfAppend(seg.id.before, Cons(seg.id.line, Append(seg.id.more, seg.str.Then(Append(seg.trailer, rest)))), f);
  }

  lemma {:induction h} FuzzyHasLine<T>(h: List<T>, f: Format<T>)
    requires FUZZY in Flags(h, f)
    ensures HasFlagLine(h, f)
  {
  }

  // ---- edited segments are still segments ----

  lemma {:induction h} CleanFlagsKeepsNone<T(!new)>(h: List<T>, f: Format<T>)
    requires MarksLawful(f) && NoneOf(h, f.marks.id)
    ensures NoneOf(CleanFlags(h, f), f.marks.id)
  {
  }

  lemma {:induction false} ReplaceStrKeepsNone<T(!new)>(h: List<T>, t: string, f: Format<T>)
    requires MarksLawful(f) && NoneOf(h, f.marks.id)
    ensures NoneOf(ReplaceStr(h, t, f), f.marks.id)
  {
    var m := f.marks;
    NoneOfSuffix(h, m.str, m.id);
    var rest := After(h, m.str);
    if rest.Cons? {
      NoneOfSuffix(rest.tail, m.unquoted, m.id);
      NoneOfStronger(f.strMore(t), m.unquoted, m.id);
      NoneOfAppend(f.strMore(t), After(rest.tail, m.unquoted), m.id);
      NoneOfAppend(Until(h, m.str), Cons(f.strLine(t), Append(f.strMore(t), After(rest.tail, m.unquoted))), m.id);
    }
  }

  lemma {:induction h} FlagLinesOfAppend<T>(h: List<T>, rest: List<T>, f: Format<T>)
    ensures HasFlagLine(Append(h, rest), f) <==> HasFlagLine(h, f) || HasFlagLine(rest, f)
  {
  }

  lemma {:induction l} NoFlagsInQuoted<T(!new)>(l: List<T>, f: Format<T>)
    requires MarksLawful(f) && NoneOf(l, f.marks.unquoted)
    ensures !HasFlagLine(l, f) && Flags(l, f) == {}
  {
  }

  /** Replacing a field neither adds nor removes a flag line. */
  lemma {:induction false} ReplaceStrFlagLines<T(!new)>(h: List<T>, t: string, f: Format<T>)
    requires MarksLawful(f) && HasFlagLine(h, f)
    ensures HasFlagLine(ReplaceStr(h, t, f), f)
  {
    var m := f.marks;
    UntilAfter(h, m.str);
    FlagLinesOfAppend(Until(h, m.str), After(h, m.str), f);
    var rest := After(h, m.str);
    if rest.Cons? {
      UntilAfter(rest.tail, m.unquoted);
      FlagLinesOfAppend(Until(rest.tail, m.unquoted), After(rest.tail, m.unquoted), f);
      NoFlagsInQuoted(Until(rest.tail, m.unquoted), f);
      FlagLinesOfAppend(f.strMore(t), After(rest.tail, m.unquoted), f);
      FlagLinesOfAppend(Until(h, m.str), Cons(f.strLine(t), Append(f.strMore(t), After(rest.tail, m.unquoted))), f);
    }
  }

  lemma {:induction false} EditStaysValid<T(!new)>(seg: Segment<T>, t: string, f: Format<T>)
    requires MarksLawful(f) && seg.Valid(f.marks)
    ensures Edit(seg, t, f).Valid(f.marks)
    ensures StartsBlank(seg, f.marks) ==> StartsBlank(Edit(seg, t, f), f.marks)
  {
    ReplaceStrKeepsNone(seg.id.before, t, f);
    CleanFlagsKeepsNone(WriteStr(seg, t, f).id.before, f);
  }

  lemma {:induction false} FuzzyKeepsLine<T(!new)>(seg: Segment<T>, t: string, f: Format<T>)
    requires MarksLawful(f) && FUZZY in Flags(seg.id.before, f)
    ensures HasFlagLine(WriteStr(seg, t, f).id.before, f)
  {
    FuzzyHasLine(seg.id.before, f);
    ReplaceStrFlagLines(seg.id.before, t, f);
  }

  // ---- what an edited segment says ----

  /** Only the first flag line may carry the fuzzy marker. */
  predicate FuzzyOnlyFirst<T>(header: List<T>, f: Format<T>) {
    header.Nil?
    || if f.isFlag(header.head) then FUZZY !in Flags(header.tail, f) else FuzzyOnlyFirst(header.tail, f)
  }

  /** The shape of an entry for which the edits do what they are meant to do. */
  predicate WellFormed<T>(seg: Segment<T>, f: Format<T>) {
    && NoneOf(seg.id.before, f.marks.str)
    && (FUZZY in Flags(seg.id.before, f) ==> FuzzyOnlyFirst(seg.id.before, f))
  }

  /** The message the editor means to leave behind. */
  function Translated(msg: Message, t: string): Message {
    Message(msg.flags - {FUZZY}, msg.msgid, t)
  }

  lemma {:induction h} FlagInFirst<T>(h: List<T>, f: Format<T>)
    requires HasFlagLine(h, f)
    ensures Len(Until(h, f.isFlag)) < Len(h)
  {
  }

  lemma {:induction h} FlagsOfClean<T(!new)>(h: List<T>, f: Format<T>)
    requires MarksLawful(f) && TextLawful(f) && FUZZY in Flags(h, f)
    ensures if FuzzyOnlyFirst(h, f) then Flags(CleanFlags(h, f), f) == Flags(h, f) - {FUZZY}
            else FUZZY in Flags(CleanFlags(h, f), f)
  {
  }

  lemma {:induction false} EditReads<T(!new)>(seg: Segment<T>, t: string, f: Format<T>)
    requires MarksLawful(f) && TextLawful(f) && seg.Valid(f.marks) && Read(seg, f).Some? && WellFormed(seg, f)
    ensures Read(Edit(seg, t, f), f) == Some(Translated(Read(seg, f).value, t))
  {
    if FUZZY in Flags(seg.id.before, f) {
      FlagsOfClean(seg.id.before, f);
      FuzzyHasLine(seg.id.before, f);
      FlagInFirst(seg.id.before, f);
    } else {
      assert Flags(seg.id.before, f) - {FUZZY} == Flags(seg.id.before, f);
    }
  }

  /** The edits do what they are meant to do for every translation exactly on well-formed entries. */
  lemma {:induction false} EditReadsIff<T(!new)>(seg: Segment<T>, f: Format<T>)
    requires MarksLawful(f) && TextLawful(f) && seg.Valid(f.marks) && Read(seg, f).Some?
    ensures (forall t :: Read(Edit(seg, t, f), f) == Some(Translated(Read(seg, f).value, t))) <==> WellFormed(seg, f)
  {
    var msg := Read(seg, f).value;
    if WellFormed(seg, f) {
      forall t
        ensures Read(Edit(seg, t, f), f) == Some(Translated(msg, t))
      {
        EditReads(seg, t, f);
      }
    } else if NoneOf(seg.id.before, f.marks.str) {
      FlagsOfClean(seg.id.before, f);
      FuzzyHasLine(seg.id.before, f);
      FlagInFirst(seg.id.before, f);
      assert Read(Edit(seg, "", f), f) != Some(Translated(msg, ""));
    } else {
      var t := msg.msgstr + "!";
      assert FieldValue(Edit(seg, t, f).str, f) == Some(msg.msgstr);
      assert |t| != |msg.msgstr|;
      assert Read(Edit(seg, t, f), f) != Some(Translated(msg, t));
    }
  }
}
