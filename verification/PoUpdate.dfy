/**
 The update of a whole `.po` file: entries that need work are edited from the last to the
 first, so that the positions of entries still to be visited stay valid.
 */
module PoUpdate {
  import opened Text
  import opened Arithmetic
  import opened Lists
  import opened PoLayout
  import opened PoParser
  import opened PoEditor

  /** English content, and no translation or one marked fuzzy. */
  predicate ShouldTranslate(msg: Message) {
    Strip(msg.msgid) != "" && (Strip(msg.msgstr) == "" || FUZZY in msg.flags)
  }

  // ---- specification ----

  /** Number of entries from `i` on that need work. */
  function NeedCount(entries: seq<PoEntry>, i: nat): nat
    requires i <= |entries|
    decreases |entries| - i
  {
    if i == |entries| then 0
    else (if ShouldTranslate(entries[i].message) then 1 else 0) + NeedCount(entries, i + 1)
  }

  /** Whether entry `i` is among the last `budget` ones that need work. */
  predicate Chosen(entries: seq<PoEntry>, i: nat, budget: int)
    requires i < |entries|
  {
    ShouldTranslate(entries[i].message) && NeedCount(entries, i + 1) < budget
  }

  /** The segments after the update, `tr(i)` being the translation obtained for entry `i`. */
  function Updated<T>(segs: seq<Segment<T>>, entries: seq<PoEntry>, budget: int, tr: nat -> string, f: Format<T>):
      (r: seq<Segment<T>>)
    requires |segs| == |entries|
    ensures |r| == |segs|
    ensures forall k | 0 <= k < |r| :: r[k] == if Chosen(entries, k, budget) then Edit(segs[k], tr(k), f) else segs[k]
  {
    seq(|segs|, k requires 0 <= k < |segs| => if Chosen(entries, k, budget) then Edit(segs[k], tr(k), f) else segs[k])
  }

  function Clamp(budget: int): nat {
    if budget < 0 then 0 else budget
  }

  lemma {:induction false} NeedCountMonotone(entries: seq<PoEntry>, i: nat, j: nat)
    requires i <= j <= |entries|
    ensures NeedCount(entries, j) <= NeedCount(entries, i)
    decreases j - i
  {
    if i < j {
      NeedCountMonotone(entries, i + 1, j);
    }
  }

  // ---- splicing lines ----

  lemma {:induction false} FromSplits<T>(s: seq<T>, i: nat, a: List<T>, b: List<T>)
    requires i <= |s| && From(s, i) == Append(a, b)
    ensures i + Len(a) <= |s| && From(s, i + Len(a)) == b
    ensures From(s[..i + Len(a)], i) == a
    decreases |s| - i
  {
    if a.Cons? {
      FromSplits(s, i + 1, a.tail, b);
      var t := s[..i + Len(a)];
      assert t[i] == s[i];
    }
  }

  lemma {:induction false} FromSuffix<T>(s: seq<T>, n: nat)
    requires n <= |s|
    ensures From(s[n..], 0) == From(s, n)
  {
    assert s == s[..n] + s[n..];
    FromShift(s[..n], s[n..], 0);
  }

  lemma {:induction false} FromJoined<T>(front: seq<T>, y: seq<T>, back: seq<T>, i: nat)
    requires i <= |front|
    ensures From(front + y + back, i) == Append(From(front, i), Append(From(y, 0), From(back, 0)))
  {
    assert front + y + back == front + (y + back);
    FromConcat(front, y + back, i);
    FromConcat(y, back, 0);
  }

  /** Replacing a stretch of lines replaces it in the view from any earlier position. */
  lemma {:induction false} FromSplice<T>(s: seq<T>, i: nat, a: List<T>, x: List<T>, b: List<T>, y: seq<T>)
    requires i <= |s| && From(s, i) == Append(a, Append(x, b))
    ensures var m, n := i + Len(a), i + Len(a) + Len(x);
            n <= |s| && From(s[..m] + y + s[n..], i) == Append(a, Append(From(y, 0), b))
  {
    FromSplits(s, i, a, Append(x, b));
    var m := i + Len(a);
    FromSplits(s, m, x, b);
    var n := m + Len(x);
    FromJoined(s[..m], y, s[n..], i);
    FromSuffix(s, n);
  }

  // ---- the edits of the source, on the list of lines ----

  /** Where the first `msgstr` field of an entry starts and ends. */
  ghost predicate IsMsgstrSpan<T>(lines: seq<T>, start: nat, index: nat, next: nat, f: Format<T>) {
    && start <= index < next <= |lines|
    && index == start + Len(Until(From(lines, start), f.marks.str))
    && From(lines, index) == After(From(lines, start), f.marks.str)
    && next == index + 1 + Len(Until(From(lines, index + 1), f.marks.unquoted))
    && From(lines, next) == After(From(lines, index + 1), f.marks.unquoted)
  }

  method FindMsgstr<T(!new)>(
    lines: seq<T>, start: nat, end: nat, f: Format<T>, ghost seg: Segment<T>, ghost rest: List<T>)
    returns (index: nat, next: nat)
    requires MarksLawful(f) && seg.Valid(f.marks)
    requires start <= |lines| && From(lines, start) == seg.Then(rest) && end == start + seg.Size()
    ensures IsMsgstrSpan(lines, start, index, next, f)
  {
    ghost var all := From(lines, start);
    LenFrom(lines, start);
    SegThenLen(seg, rest);
    StrInside(seg, rest, f);
    index := start;
    while index < end && !f.marks.str(lines[index])
      invariant start <= index <= end <= |lines|
      invariant After(From(lines, index), f.marks.str) == After(all, f.marks.str)
      invariant index + Len(Until(From(lines, index), f.marks.str)) == start + Len(Until(all, f.marks.str))
    {
      index := index + 1;
    }
    next := index + 1;
    ghost var tail := From(lines, next);
    while next < |lines| && !f.marks.unquoted(lines[next])
      invariant index < next <= |lines|
      invariant After(From(lines, next), f.marks.unquoted) == After(tail, f.marks.unquoted)
      invariant next + Len(Until(From(lines, next), f.marks.unquoted)) == index + 1 + Len(Until(tail, f.marks.unquoted))
    {
      next := next + 1;
    }
  }

  lemma {:induction false} SpliceIsReplace<T>(
    lines: seq<T>, start: nat, index: nat, next: nat, t: string, f: Format<T>)
    requires IsMsgstrSpan(lines, start, index, next, f)
    ensures From(lines[..index] + ToSeq(Cons(f.strLine(t), f.strMore(t))) + lines[next..], start)
            == ReplaceStr(From(lines, start), t, f)
  {
    var all, tail := From(lines, start), From(lines, index + 1);
    UntilAfter(all, f.marks.str);
    UntilAfter(tail, f.marks.unquoted);
    var written := Cons(f.strLine(t), f.strMore(t));
    FromSplice(lines, start, Until(all, f.marks.str), Cons(lines[index], Until(tail, f.marks.unquoted)),
               After(tail, f.marks.unquoted), ToSeq(written));
    FromToSeq(written);
  }

  /** A file held as a list of lines that is edited in place. */
  class PoLines<T(!new)> {
    var lines: seq<T>

    constructor (init: seq<T>)
      ensures lines == init
    {
      lines := init;
    }

    /** Write a translation into the entry that starts at `start`. */
    method ReplaceMsgstr(start: nat, end: nat, t: string, f: Format<T>, ghost seg: Segment<T>, ghost rest: List<T>)
      requires MarksLawful(f) && seg.Valid(f.marks) && StartsWithMark(rest, f.marks.blank)
      requires start <= |lines| && From(lines, start) == seg.Then(rest) && end == start + seg.Size()
      modifies this
      ensures start <= |lines| && lines[..start] == old(lines[..start])
      ensures From(lines, start) == WriteStr(seg, t, f).Then(rest)
    {
      var index, next := FindMsgstr(lines, start, end, f, seg, rest);
      var encoded := ToSeq(Cons(f.strLine(t), f.strMore(t)));
      SpliceIsReplace(lines, start, index, next, t, f);
      ReplaceStrOfSegment(seg, rest, t, f);
      lines := lines[..index] + encoded + lines[next..];
    }

    /** Remove the fuzzy marker from the first flag line in a range of lines. */
    method CleanFuzzyFlag(start: nat, end: nat, f: Format<T>, ghost seg: Segment<T>, ghost rest: List<T>)
      requires start <= end && start <= |lines| && From(lines, start) == seg.Then(rest)
      requires HasFlagLine(seg.id.before, f)
      modifies this
      ensures start <= |lines| && lines[..start] == old(lines[..start])
      ensures From(lines, start) == CleanWithin(seg, end - start, f).Then(rest)
    {
      ghost var all := From(lines, start);
      FlagInside(seg, rest, f);
      CleanOfSegment(seg, rest, f);
      ghost var isFlag := f.isFlag;
      UntilAfter(all, isFlag);
      LenFrom(lines, start);
      var index := start;
      while index < end
        invariant start <= index <= |lines| && index <= end
        invariant After(From(lines, index), isFlag) == After(all, isFlag)
        invariant index + Len(Until(From(lines, index), isFlag)) == start + Len(Until(all, isFlag))
      {
        assert index < |lines|;
        if f.isFlag(lines[index]) {
          ghost var tail := From(lines, index).tail;
          var cleaned := f.cleanFlag(lines[index]);
          var line := if cleaned.Some? then [cleaned.value] else [];
          FromSplice(lines, start, Until(all, isFlag), Cons(lines[index], Nil), tail, line);
          CleanAtFirst(all, f);
          lines := lines[..index] + line + lines[index + 1..];
          return;
        }
        index := index + 1;
      }
    }

    /** Both edits of one entry. */
    method EditEntry(entry: PoEntry, t: string, f: Format<T>, ghost seg: Segment<T>, ghost rest: List<T>)
      requires MarksLawful(f) && seg.Valid(f.marks) && StartsWithMark(rest, f.marks.blank)
      requires entry.start <= |lines| && From(lines, entry.start) == seg.Then(rest)
      requires entry.end == entry.start + seg.Size() && entry.message.flags == Flags(seg.id.before, f)
      modifies this
      ensures entry.start <= |lines| && lines[..entry.start] == old(lines[..entry.start])
      ensures From(lines, entry.start) == Edit(seg, t, f).Then(rest)
    {
      ReplaceMsgstr(entry.start, entry.end, t, f, seg, rest);
      if FUZZY in entry.message.flags {
        FuzzyKeepsLine(seg, t, f);
        CleanFuzzyFlag(entry.start, entry.end, f, WriteStr(seg, t, f), rest);
      }
    }

    /** Editing one entry leaves every segment before it and everything after it alone. */
    method EditAt(entry: PoEntry, t: string, f: Format<T>,
                  ghost front: seq<Segment<T>>, ghost seg: Segment<T>, ghost rest: List<T>)
      requires MarksLawful(f) && seg.Valid(f.marks) && StartsWithMark(rest, f.marks.blank)
      requires From(lines, 0) == SegLines(front, seg.Then(rest))
      requires entry.start == StartOf(front, |front|) && entry.end == entry.start + seg.Size()
      requires entry.message.flags == Flags(seg.id.before, f)
      modifies this
      ensures From(lines, 0) == SegLines(front, Edit(seg, t, f).Then(rest))
    {
      Locate(lines, front, seg.Then(rest));
      EditEntry(entry, t, f, seg, rest);
      Relocate(old(lines), lines, front, seg.Then(rest));
    }

    /** Entries from `i` on are edited and the ones before it are not. */
    ghost predicate EditedFrom(doc: Doc<T>, upd: seq<Segment<T>>, i: nat)
      requires i <= |doc.segs| == |upd|
      reads this
    {
      From(lines, 0) == SegLines(doc.segs[..i], SegLines(upd[i..], doc.tail))
    }

    method EditChosen(entries: seq<PoEntry>, budget: int, tr: nat -> string, f: Format<T>, i: nat, ghost doc: Doc<T>, ghost upd: seq<Segment<T>>)
      requires MarksLawful(f) && ValidDoc(doc, f.marks) && AllRead(doc.segs, f) && entries == Entries(doc.segs, 0, f)
      requires upd == Updated(doc.segs, entries, budget, tr, f) && i < |upd| && Chosen(entries, i, budget)
      requires EditedFrom(doc, upd, i + 1)
      modifies this
      ensures EditedFrom(doc, upd, i)
    {
      SplitOff(doc, upd, i);
      ValidRest(doc, upd, entries, budget, tr, f, i);
      EntryAt(doc.segs, f, i);
      EditAt(entries[i], tr(i), f, doc.segs[..i], doc.segs[i], SegLines(upd[i + 1..], doc.tail));
    }

    /** The backward loop over the entries. */
    method EditBackwards(entries: seq<PoEntry>, budget: int, tr: nat -> string, f: Format<T>, ghost doc: Doc<T>)
      returns (count: nat)
      requires MarksLawful(f) && ValidDoc(doc, f.marks) && AllRead(doc.segs, f)
      requires entries == Entries(doc.segs, 0, f) && From(lines, 0) == DocLines(doc)
      modifies this
      ensures count == Min(Clamp(budget), NeedCount(entries, 0))
      ensures From(lines, 0) == SegLines(Updated(doc.segs, entries, budget, tr, f), doc.tail)
      ensures count == 0 ==> lines == old(lines)
    {
      ghost var upd := Updated(doc.segs, entries, budget, tr, f);
      var i := |entries|;
      count := 0;
      assert doc.segs[..i] == doc.segs && upd[i..] == [];
      while i > 0 && count < budget
        invariant i <= |entries|
        invariant count == Min(Clamp(budget), NeedCount(entries, i))
        invariant EditedFrom(doc, upd, i)
        invariant count == 0 ==> lines == old(lines)
      {
        i := i - 1;
        if ShouldTranslate(entries[i].message) {
          EditChosen(entries, budget, tr, f, i, doc, upd);
          count := count + 1;
        } else {
          SplitOff(doc, upd, i);
        }
      }
      RestUnchosen(doc.segs, entries, budget, tr, f, i);
      SegLinesAppend(doc.segs[..i], upd[i..], doc.tail);
    }

    /**
     Edit up to `budget` entries that need work, from the last to the first. The result is
     the number of entries edited, or None if the file does not parse.
     */
    method Update(budget: int, tr: nat -> string, f: Format<T>) returns (translated: Option<nat>)
      requires MarksLawful(f)
      modifies this
      ensures translated.Some? <==> Parse(old(lines), f).Some?
      ensures translated.None? ==> lines == old(lines)
      ensures translated.Some? ==>
                var doc := Split(From(old(lines), 0), f.marks);
                var entries := Parse(old(lines), f).value;
                && |entries| == |doc.segs|
                && translated.value == Min(Clamp(budget), NeedCount(entries, 0))
                && From(lines, 0) == SegLines(Updated(doc.segs, entries, budget, tr, f), doc.tail)
                && (translated.value == 0 ==> lines == old(lines))
    {
      var parsed := ParseEntries(lines, f);
      if parsed.None? {
        return None;
      }
      ghost var doc := Split(From(lines, 0), f.marks);
      SplitValid(From(lines, 0), f.marks);
      ParseDoc(doc, 0, f);
      var count := EditBackwards(parsed.value, budget, tr, f, doc);
      translated := Some(count);
    }
  }

  lemma {:induction false} EntryAt<T>(segs: seq<Segment<T>>, f: Format<T>, i: nat)
    requires AllRead(segs, f) && i < |segs|
    ensures var entry := Entries(segs, 0, f)[i];
            && entry.start == StartOf(segs[..i], i) && entry.end == entry.start + segs[i].Size()
            && entry.message.flags == Flags(segs[i].id.before, f)
  {
    EntriesAt(segs, 0, f, i);
    StartOfTake(segs, i);
  }

  lemma {:induction false} SplitOff<T>(doc: Doc<T>, upd: seq<Segment<T>>, i: nat)
    requires i < |doc.segs| == |upd|
    ensures SegLines(doc.segs[..i + 1], SegLines(upd[i + 1..], doc.tail))
            == SegLines(doc.segs[..i], doc.segs[i].Then(SegLines(upd[i + 1..], doc.tail)))
    ensures SegLines(upd[i..], doc.tail) == upd[i].Then(SegLines(upd[i + 1..], doc.tail))
  {
    var rest := SegLines(upd[i + 1..], doc.tail);
    assert doc.segs[..i + 1] == doc.segs[..i] + [doc.segs[i]];
    SegLinesAppend(doc.segs[..i], [doc.segs[i]], rest);
    assert [doc.segs[i]][1..] == [];
  }

  lemma {:induction false} ValidRest<T(!new)>(
    doc: Doc<T>, upd: seq<Segment<T>>, entries: seq<PoEntry>, budget: int, tr: nat -> string, f: Format<T>, i: nat)
    requires MarksLawful(f) && ValidDoc(doc, f.marks) && |doc.segs| == |entries|
    requires upd == Updated(doc.segs, entries, budget, tr, f) && i < |upd|
    ensures StartsWithMark(SegLines(upd[i + 1..], doc.tail), f.marks.blank)
  {
    var next := upd[i + 1..];
    if next != [] {
      assert next[0] == upd[i + 1];
      EditStaysValid(doc.segs[i + 1], tr(i + 1), f);
    }
    SegLinesStart(next, doc.tail, f.marks);
  }

  /** Once the budget is used up, no earlier entry is chosen. */
  lemma {:induction false} RestUnchosen<T>(
    segs: seq<Segment<T>>, entries: seq<PoEntry>, budget: int, tr: nat -> string, f: Format<T>, i: nat)
    requires |segs| == |entries| && i <= |segs|
    requires i == 0 || budget <= NeedCount(entries, i)
    ensures segs[..i] + Updated(segs, entries, budget, tr, f)[i..] == Updated(segs, entries, budget, tr, f)
    ensures Min(Clamp(budget), NeedCount(entries, i)) == Min(Clamp(budget), NeedCount(entries, 0))
  {
    if i > 0 {
      forall k | 0 <= k < i
        ensures !Chosen(entries, k, budget)
      {
        NeedCountMonotone(entries, k + 1, i);
      }
      NeedCountMonotone(entries, 0, i);
    }
  }

  // ---- positions of segments ----

  lemma {:induction false} FieldThenAppend<T>(x: Field<T>, rest: List<T>, more: List<T>)
    ensures x.Then(Append(rest, more)) == Append(x.Then(rest), more)
  {
    AppendAssoc(x.more, rest, more);
    AppendAssoc(x.before, Cons(x.line, Append(x.more, rest)), more);
  }

  lemma {:induction false} SegLinesIsPrefix<T>(segs: seq<Segment<T>>, tail: List<T>)
    ensures SegLines(segs, tail) == Append(SegLines(segs, Nil), tail)
  {
    if segs != [] {
      var rest := SegLines(segs[1..], Nil);
      SegLinesIsPrefix(segs[1..], tail);
      AppendAssoc(segs[0].trailer, rest, tail);
      FieldThenAppend(segs[0].str, Append(segs[0].trailer, rest), tail);
      FieldThenAppend(segs[0].id, segs[0].str.Then(Append(segs[0].trailer, rest)), tail);
    }
  }

  lemma {:induction false} StartOfTake<T>(segs: seq<Segment<T>>, i: nat)
    requires i <= |segs|
    ensures StartOf(segs[..i], i) == StartOf(segs, i)
    decreases i
  {
    if i > 0 {
      assert segs[..i][1..] == segs[1..][..i - 1];
      StartOfTake(segs[1..], i - 1);
    }
  }

  /** The lines after some segments start where the sizes of the segments say. */
  lemma {:induction false} Locate<T>(lines: seq<T>, segs: seq<Segment<T>>, rest: List<T>)
    requires From(lines, 0) == SegLines(segs, rest)
    ensures var start := StartOf(segs, |segs|);
            start <= |lines| && From(lines, start) == rest && From(lines[..start], 0) == SegLines(segs, Nil)
  {
    SegLinesIsPrefix(segs, rest);
    StartIsLength(segs, Nil);
    FromSplits(lines, 0, SegLines(segs, Nil), rest);
  }

  /** Changing lines from a segment boundary on leaves the segments before it alone. */
  lemma {:induction false} Relocate<T>(lines: seq<T>, lines': seq<T>, segs: seq<Segment<T>>, rest: List<T>)
    requires From(lines, 0) == SegLines(segs, rest)
    requires StartOf(segs, |segs|) <= |lines'| && StartOf(segs, |segs|) <= |lines|
    requires lines'[..StartOf(segs, |segs|)] == lines[..StartOf(segs, |segs|)]
    ensures From(lines', 0) == SegLines(segs, From(lines', StartOf(segs, |segs|)))
  {
    var start := StartOf(segs, |segs|);
    Locate(lines, segs, rest);
    var a, b := lines'[..start], lines'[start..];
    assert lines' == a + b;
    FromConcat(a, b, 0);
    FromShift(a, b, 0);
    SegLinesIsPrefix(segs, From(b, 0));
  }

  lemma {:induction false} StrInside<T(!new)>(seg: Segment<T>, rest: List<T>, f: Format<T>)
    requires MarksLawful(f) && seg.Valid(f.marks)
    ensures After(seg.Then(rest), f.marks.str).Cons?
    ensures Len(Until(seg.Then(rest), f.marks.str)) < seg.Size()
  {
    ThenBeforeStr(seg, rest);
    FirstAtMost(BeforeStr(seg), Cons(seg.str.line, Append(seg.str.more, Append(seg.trailer, rest))), f.marks.str);
    LenAppend(seg.id.more, seg.str.before);
    LenAppend(seg.id.before, Cons(seg.id.line, Append(seg.id.more, seg.str.before)));
  }

  lemma {:induction l} FirstAtMost<T>(l: List<T>, rest: List<T>, mark: T -> bool)
    requires rest.Cons? && mark(rest.head)
    ensures After(Append(l, rest), mark).Cons? && Len(Until(Append(l, rest), mark)) <= Len(l)
  {
  }

  lemma {:induction h} FlagInHeader<T>(h: List<T>, rest: List<T>, f: Format<T>)
    requires HasFlagLine(h, f)
    ensures After(Append(h, rest), f.isFlag).Cons? && Until(Append(h, rest), f.isFlag) == Until(h, f.isFlag)
  {
  }

  lemma {:induction false} FlagInside<T>(seg: Segment<T>, rest: List<T>, f: Format<T>)
    requires HasFlagLine(seg.id.before, f)
    ensures After(seg.Then(rest), f.isFlag).Cons?
    ensures Until(seg.Then(rest), f.isFlag) == Until(seg.id.before, f.isFlag)
  {
    FlagInHeader(seg.id.before, Cons(seg.id.line, Append(seg.id.more, seg.str.Then(Append(seg.trailer, rest)))), f);
  }

  lemma {:induction l} CleanAtFirst<T>(l: List<T>, f: Format<T>)
    requires After(l, f.isFlag).Cons?
    ensures var line := After(l, f.isFlag);
            CleanFlags(l, f)
            == Append(Until(l, f.isFlag),
                      match f.cleanFlag(line.head)
                      case None => line.tail
                      case Some(x) => Cons(x, line.tail))
  {
  }

  // ---- what the updated file says ----

  /** Every chosen entry has the shape on which the edits are right. */
  ghost predicate ChosenWellFormed<T>(segs: seq<Segment<T>>, entries: seq<PoEntry>, budget: int, f: Format<T>)
    requires |segs| == |entries|
  {
    forall i | 0 <= i < |segs| && Chosen(entries, i, budget) :: WellFormed(segs[i], f)
  }

  /** The messages of a file after an update that did what it was meant to do. */
  function Intended(entries: seq<PoEntry>, budget: int, tr: nat -> string): (r: seq<Message>)
    ensures |r| == |entries|
    ensures forall i | 0 <= i < |r| ::
              r[i] == if Chosen(entries, i, budget) then Translated(entries[i].message, tr(i)) else entries[i].message
  {
    seq(|entries|, i requires 0 <= i < |entries| =>
      if Chosen(entries, i, budget) then Translated(entries[i].message, tr(i)) else entries[i].message)
  }

  function Messages(entries: seq<PoEntry>): (r: seq<Message>)
    ensures |r| == |entries|
    ensures forall i | 0 <= i < |r| :: r[i] == entries[i].message
  {
    seq(|entries|, i requires 0 <= i < |entries| => entries[i].message)
  }

  lemma {:induction false} UpdatedValid<T(!new)>(
    doc: Doc<T>, entries: seq<PoEntry>, budget: int, tr: nat -> string, f: Format<T>)
    requires MarksLawful(f) && ValidDoc(doc, f.marks) && |entries| == |doc.segs|
    ensures ValidDoc(Doc(Updated(doc.segs, entries, budget, tr, f), doc.tail), f.marks)
  {
    var upd := Updated(doc.segs, entries, budget, tr, f);
    forall i | 0 <= i < |upd|
      ensures upd[i].Valid(f.marks) && (i >= 1 ==> StartsBlank(upd[i], f.marks))
    {
      EditStaysValid(doc.segs[i], tr(i), f);
    }
  }

  /** Re-parsing the updated lines gives the same entries, the chosen ones translated. */
  lemma {:induction false} UpdatedParses<T(!new)>(
    lines: seq<T>, lines': seq<T>, budget: int, tr: nat -> string, f: Format<T>)
    requires MarksLawful(f) && TextLawful(f) && Parse(lines, f).Some?
    requires var doc := Split(From(lines, 0), f.marks);
             var entries := Parse(lines, f).value;
             && |entries| == |doc.segs| && ChosenWellFormed(doc.segs, entries, budget, f)
             && From(lines', 0) == SegLines(Updated(doc.segs, entries, budget, tr, f), doc.tail)
    ensures Parse(lines', f).Some?
    ensures Messages(Parse(lines', f).value) == Intended(Parse(lines, f).value, budget, tr)
  {
    var doc := Split(From(lines, 0), f.marks);
    var entries := Parse(lines, f).value;
    SplitValid(From(lines, 0), f.marks);
    ParseDoc(doc, 0, f);
    var upd := Updated(doc.segs, entries, budget, tr, f);
    UpdatedValid(doc, entries, budget, tr, f);
    ParseDoc(Doc(upd, doc.tail), 0, f);
    forall i | 0 <= i < |upd|
      ensures Read(upd[i], f) == Some(Intended(entries, budget, tr)[i])
    {
      EntriesAt(doc.segs, 0, f, i);
      if Chosen(entries, i, budget) {
        EditReads(doc.segs[i], tr(i), f);
      }
    }
    forall i | 0 <= i < |upd|
      ensures Entries(upd, 0, f)[i].message == Intended(entries, budget, tr)[i]
    {
      EntriesAt(upd, 0, f, i);
    }
  }

  function NeedIn(msgs: seq<Message>): nat {
    if msgs == [] then 0
    else NeedIn(msgs[..|msgs| - 1]) + (if ShouldTranslate(msgs[|msgs| - 1]) then 1 else 0)
  }

  lemma {:induction false} NoneNeeded(msgs: seq<Message>)
    requires forall i | 0 <= i < |msgs| :: !ShouldTranslate(msgs[i])
    ensures NeedIn(msgs) == 0
  {
    if msgs != [] {
      NoneNeeded(msgs[..|msgs| - 1]);
    }
  }

  /** After an update with enough budget and no blank translation, nothing is left to do. */
  lemma {:induction false} NothingLeft(entries: seq<PoEntry>, budget: int, tr: nat -> string)
    requires NeedCount(entries, 0) <= budget
    requires forall i | 0 <= i < |entries| && ShouldTranslate(entries[i].message) :: Strip(tr(i)) != ""
    ensures NeedIn(Intended(entries, budget, tr)) == 0
  {
    var after := Intended(entries, budget, tr);
    forall i | 0 <= i < |after|
      ensures !ShouldTranslate(after[i])
    {
      NeedCountMonotone(entries, 0, i);
    }
    NoneNeeded(after);
  }
}
