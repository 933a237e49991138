/** The comma and bracket notation for slot mappings: its printer and its parser. */
module SlotText {
  import opened Text
  import opened Numerals
  import opened Slots

  // ---- the documented notation ----

  function ItemText(item: Item): string {
    match item
    case One(n) => PrintInt(n, 10)
    case Span(a, b) => "[" + SpanText(a, b) + "]"
  }

  function SpanText(a: int, b: int): string {
    PrintInt(a, 10) + "," + PrintInt(b, 10)
  }

  function PrintIn(items: seq<Item>, k: nat): string
    requires k <= |items|
  {
    if k == 0 then "" else PrintIn(items, k - 1) + (if k == 1 then "" else ",") + ItemText(items[k - 1])
  }

  function Print(items: seq<Item>): string {
    PrintIn(items, |items|)
  }

  // ---- splitting into parts ----

  datatype Tok = Tok(parts: seq<string>, buffer: string, inside: bool) | TokFailed

  function TokStep(t: Tok, c: char): Tok {
    match t
    case TokFailed => TokFailed
    case Tok(parts, buffer, inside) =>
      if c == '[' then (if inside then TokFailed else Tok(parts, buffer + [c], true))
      else if c == ']' then (if !inside then TokFailed else Tok(parts + [buffer + [c]], "", false))
      else if c == ',' && !inside then (if buffer != "" then Tok(parts + [buffer], "", false) else t)
      else Tok(parts, buffer + [c], inside)
  }

  function Feed(t: Tok, s: string, k: nat): Tok
    requires k <= |s|
  {
    if k == 0 then t else TokStep(Feed(t, s, k - 1), s[k - 1])
  }

  function FeedAll(t: Tok, s: string): Tok {
    Feed(t, s, |s|)
  }

  /** The parts of a text, or none when its brackets are not in order. */
  function PartsOf(t: Tok): Option<seq<string>> {
    match t
    case TokFailed => None
    case Tok(parts, buffer, inside) =>
      if inside then None else Some(if buffer != "" then parts + [buffer] else parts)
  }

  // ---- reading a part ----

  /** The two numbers of `[start,end]`, each written in digits alone. */
  function SpanMatch(part: string): Option<(string, string)> {
    if |part| < 2 || part[0] != '[' || part[|part| - 1] != ']' then None
    else
      var fields := SplitOn(part[1..|part| - 1], ',');
      if |fields| == 2 && AllDecimal(fields[0]) && AllDecimal(fields[1]) then Some((fields[0], fields[1])) else None
  }

  function ReadPart(part: string): Option<seq<Item>> {
    var part := Strip(part);
    if part == "" then Some([])
    else
      match SpanMatch(part)
      case Some((a, b)) =>
        (match (ParseInt(a, 10), ParseInt(b, 10))
         case (Some(start), Some(end)) => if start > end then None else Some([Span(start, end)])
         case _ => None)
      case None =>
        (match ParseInt(part, 10)
         case Some(n) => Some([One(n)])
         case None => None)
  }

  /** The items of the first `k` parts, as `read` reads them. */
  function ReadParts(read: string -> Option<seq<Item>>, parts: seq<string>, k: nat): Option<seq<Item>>
    requires k <= |parts|
  {
    if k == 0 then Some([])
    else
      match (ReadParts(read, parts, k - 1), read(parts[k - 1]))
      case (Some(items), Some(more)) => Some(items + more)
      case _ => None
  }

  /** The text without its white space. */
  function CleanIn(s: string, k: nat): string
    requires k <= |s|
  {
    if k == 0 then "" else CleanIn(s, k - 1) + if IsSpace(s[k - 1]) then [] else [s[k - 1]]
  }

  function ParseSlots(s: string): Option<seq<int>> {
    match PartsOf(FeedAll(Tok([], "", false), CleanIn(s, |s|)))
    case None => None
    case Some(parts) =>
      match ReadParts(ReadPart, parts, |parts|)
      case None => None
      case Some(items) => Some(Expand(items))
  }

  /** The parser; an error is reported as no value. */
  method ParseMixed(s: string) returns (slots: Option<seq<int>>)
    ensures slots == ParseSlots(s)
  {
    var clean := CleanIn(s, |s|);
    var parts: seq<string>, buffer, inside := [], "", false;
    ghost var start := Tok([], "", false);
    for k := 0 to |clean|
      invariant Tok(parts, buffer, inside) == Feed(start, clean, k)
    {
      var c := clean[k];
      if c == '[' {
        if inside {
          FailedStays(start, clean, k + 1, |clean|);
          return None;
        }
        inside, buffer := true, buffer + [c];
      } else if c == ']' {
        if !inside {
          FailedStays(start, clean, k + 1, |clean|);
          return None;
        }
        parts, buffer, inside := parts + [buffer + [c]], "", false;
      } else if c == ',' && !inside {
        if buffer != "" {
          parts, buffer := parts + [buffer], "";
        }
      } else {
        buffer := buffer + [c];
      }
    }
    if buffer != "" {
      parts := parts + [buffer];
    }
    if inside {
      return None;
    }
    slots := ReadAll(parts);
  }

  method ReadAll(parts: seq<string>) returns (slots: Option<seq<int>>)
    ensures slots == match ReadParts(ReadPart, parts, |parts|) case None => None case Some(items) => Some(Expand(items))
  {
    var items := [];
    for k := 0 to |parts|
      invariant ReadParts(ReadPart, parts, k) == Some(items)
    {
      match ReadPart(parts[k])
      case None =>
        UnreadableStays(parts, k + 1, |parts|);
        return None;
      case Some(more) =>
        items := items + more;
    }
    var values := Decompress(items);
    slots := Some(values);
  }

  lemma {:induction false} FailedStays(t: Tok, s: string, j: nat, k: nat)
    requires j <= k <= |s| && Feed(t, s, j).TokFailed?
    ensures Feed(t, s, k).TokFailed?
    decreases k
  {
    if j < k {
      FailedStays(t, s, j, k - 1);
    }
  }

  lemma {:induction false} UnreadableStays(parts: seq<string>, j: nat, k: nat)
    requires j <= k <= |parts| && ReadParts(ReadPart, parts, j).None?
    ensures ReadParts(ReadPart, parts, k).None?
    decreases k
  {
    if j < k {
      UnreadableStays(parts, j, k - 1);
    }
  }

  // ---- feeding texts one after the other ----

  lemma {:induction false} FeedPrefix(t: Tok, a: string, b: string, k: nat)
    requires k <= |a|
    ensures Feed(t, a + b, k) == Feed(t, a, k)
    decreases k
  {
    if k > 0 {
      FeedPrefix(t, a, b, k - 1);
    }
  }

  lemma {:induction false} FeedSuffix(t: Tok, a: string, b: string, k: nat)
    requires k <= |b|
    ensures Feed(t, a + b, |a| + k) == Feed(FeedAll(t, a), b, k)
    decreases k
  {
    if k == 0 {
      FeedPrefix(t, a, b, |a|);
    } else {
      FeedSuffix(t, a, b, k - 1);
    }
  }

  lemma {:induction false} FeedConcat(t: Tok, a: string, b: string)
    ensures FeedAll(t, a + b) == FeedAll(FeedAll(t, a), b)
  {
    FeedSuffix(t, a, b, |b|);
  }

  lemma {:induction false} FeedOne(t: Tok, c: char)
    ensures FeedAll(t, [c]) == TokStep(t, c)
  {
    assert Feed(t, [c], 0) == t;
  }

  /** A character that is part of a number, or, within brackets, a comma. */
  predicate Plain(c: char, inside: bool) {
    c != '[' && c != ']' && (c == ',' ==> inside)
  }

  lemma {:induction false} FeedPlain(t: Tok, s: string, k: nat)
    requires t.Tok? && k <= |s| && forall i | 0 <= i < |s| :: Plain(s[i], t.inside)
    ensures Feed(t, s, k) == t.(buffer := t.buffer + s[..k])
    decreases k
  {
    if k > 0 {
      FeedPlain(t, s, k - 1);
      assert s[..k] == s[..k - 1] + [s[k - 1]];
    }
  }

  lemma {:induction false} NumberPlain(n: int)
    ensures forall i | 0 <= i < |PrintInt(n, 10)| :: Plain(PrintInt(n, 10)[i], false) && PrintInt(n, 10)[i] != ','
  {
    var s := PrintInt(n, 10);
    forall i | 0 <= i < |s|
      ensures Plain(s[i], false) && s[i] != ','
    {
      assert s[i] in s;
    }
  }

  /** A number goes into the buffer. */
  lemma {:induction false} FeedNumber(t: Tok, n: int)
    requires t.Tok?
    ensures FeedAll(t, PrintInt(n, 10)) == t.(buffer := t.buffer + PrintInt(n, 10))
  {
    var s := PrintInt(n, 10);
    NumberPlain(n);
    FeedPlain(t, s, |s|);
    assert s[..|s|] == s;
  }

  lemma {:induction false} SpanTextPlain(a: int, b: int)
    ensures forall i | 0 <= i < |SpanText(a, b)| :: Plain(SpanText(a, b)[i], true)
  {
    NumberPlain(a);
    NumberPlain(b);
    var s := SpanText(a, b);
    forall i | 0 <= i < |s|
      ensures Plain(s[i], true)
    {
      if i < |PrintInt(a, 10)| {
        assert s[i] == PrintInt(a, 10)[i];
      } else if i > |PrintInt(a, 10)| {
        assert s[i] == PrintInt(b, 10)[i - |PrintInt(a, 10)| - 1];
      }
    }
  }

  /** A range becomes a part of its own. */
  lemma {:induction false} FeedSpan(parts: seq<string>, a: int, b: int)
    ensures FeedAll(Tok(parts, "", false), ItemText(Span(a, b))) == Tok(parts + [ItemText(Span(a, b))], "", false)
  {
    var t, s := Tok(parts, "", false), SpanText(a, b);
    var u := FeedAll(t, "[");
    FeedOne(t, '[');
    assert u == Tok(parts, "[", true);
    SpanTextPlain(a, b);
    FeedPlain(u, s, |s|);
    assert s[..|s|] == s;
    FeedConcat(t, "[", s);
    var v := FeedAll(t, "[" + s);
    FeedConcat(t, "[" + s, "]");
    FeedOne(v, ']');
    assert "[" + s + "]" == ItemText(Span(a, b));
  }

  // ---- printed items are read back ----

  function Texts(items: seq<Item>, k: nat): seq<string>
    requires k <= |items|
  {
    if k == 0 then [] else Texts(items, k - 1) + [ItemText(items[k - 1])]
  }

  /** The tokens after the first `k` printed items: a last number is still in the buffer. */
  function Printed(items: seq<Item>, k: nat): Tok
    requires k <= |items|
  {
    if k > 0 && items[k - 1].One? then Tok(Texts(items, k - 1), ItemText(items[k - 1]), false)
    else Tok(Texts(items, k), "", false)
  }

  lemma {:induction false} FeedItem(parts: seq<string>, item: Item)
    ensures FeedAll(Tok(parts, "", false), ItemText(item))
            == if item.One? then Tok(parts, ItemText(item), false) else Tok(parts + [ItemText(item)], "", false)
  {
    match item
    case One(n) =>
      FeedNumber(Tok(parts, "", false), n);
      assert "" + PrintInt(n, 10) == PrintInt(n, 10);
    case Span(a, b) => FeedSpan(parts, a, b);
  }

  lemma {:induction false} FeedComma(items: seq<Item>, k: nat)
    requires 0 < k <= |items|
    ensures FeedAll(Printed(items, k), ",") == Tok(Texts(items, k), "", false)
  {
    FeedOne(Printed(items, k), ',');
  }

  lemma {:induction false} FeedAfterComma(start: Tok, before: string, text: string, t: Tok, u: Tok)
    requires FeedAll(start, before) == t && FeedAll(t, ",") == u
    ensures FeedAll(start, before + "," + text) == FeedAll(u, text)
  {
    FeedConcat(start, before, ",");
    FeedConcat(start, before + ",", text);
  }

  lemma {:induction false} FeedFirst(items: seq<Item>)
    requires items != []
    ensures FeedAll(Tok([], "", false), PrintIn(items, 1)) == Printed(items, 1)
  {
    assert Texts(items, 0) == [] && PrintIn(items, 0) == "";
    assert PrintIn(items, 1) == ItemText(items[0]);
    FeedItem([], items[0]);
  }

  lemma {:induction false} FeedNext(items: seq<Item>, k: nat)
    requires 0 < k < |items| && FeedAll(Tok([], "", false), PrintIn(items, k)) == Printed(items, k)
    ensures FeedAll(Tok([], "", false), PrintIn(items, k + 1)) == Printed(items, k + 1)
  {
    FeedComma(items, k);
    FeedAfterComma(Tok([], "", false), PrintIn(items, k), ItemText(items[k]), Printed(items, k), Tok(Texts(items, k), "", false));
    FeedItem(Texts(items, k), items[k]);
  }

  lemma {:induction false} FeedPrinted(items: seq<Item>, k: nat)
    requires k <= |items|
    ensures FeedAll(Tok([], "", false), PrintIn(items, k)) == Printed(items, k)
    decreases k
  {
    if k == 1 {
      FeedFirst(items);
    } else if k > 1 {
      FeedPrinted(items, k - 1);
      FeedNext(items, k - 1);
    }
  }

  lemma {:induction false} PrintedParts(items: seq<Item>, k: nat)
    requires k <= |items|
    ensures PartsOf(Printed(items, k)) == Some(Texts(items, k))
  {
  }

  /** A range is read when its bounds are in order and not negative. */
  predicate Readable(item: Item) {
    item.Span? ==> 0 <= item.start <= item.end
  }

  lemma {:induction false} AllDecimalIff(n: int)
    ensures AllDecimal(PrintInt(n, 10)) <==> n >= 0
  {
    if n >= 0 {
      PrintNatDecimal(n);
    } else {
      assert '-' in PrintInt(n, 10);
    }
  }

  lemma {:induction false} SpanTextFields(a: int, b: int)
    ensures SplitOn(SpanText(a, b), ',') == [PrintInt(a, 10), PrintInt(b, 10)]
  {
    var fields := [PrintInt(a, 10), PrintInt(b, 10)];
    assert fields[1..] == [PrintInt(b, 10)];
    assert Join(fields, ",") == SpanText(a, b);
    SplitJoin(fields, ',');
  }

  lemma {:induction false} SpanMatchIff(a: int, b: int)
    ensures SpanMatch(ItemText(Span(a, b)))
            == if a >= 0 && b >= 0 then Some((PrintInt(a, 10), PrintInt(b, 10))) else None
  {
    var s := ItemText(Span(a, b));
    assert s[1..|s| - 1] == SpanText(a, b);
    SpanTextFields(a, b);
    AllDecimalIff(a);
    AllDecimalIff(b);
  }

  lemma {:induction false} BracketNotNumber(s: string)
    requires |s| >= 2 && s[0] == '[' && s[|s| - 1] == ']' && Strip(s) == s
    ensures ParseInt(s, 10) == None
  {
  }

  predicate Visible(s: string) {
    forall i | 0 <= i < |s| :: !IsSpace(s[i])
  }

  lemma {:induction false} VisibleConcat(a: string, b: string)
    requires Visible(a) && Visible(b)
    ensures Visible(a + b)
  {
  }

  lemma {:induction false} NumberVisible(n: int)
    ensures Visible(PrintInt(n, 10))
  {
    var s := PrintInt(n, 10);
    forall i | 0 <= i < |s|
      ensures !IsSpace(s[i])
    {
      assert s[i] in s;
    }
  }

  lemma {:induction false} ItemTextVisible(item: Item)
    ensures Visible(ItemText(item))
  {
    match item
    case One(n) => NumberVisible(n);
    case Span(a, b) =>
      NumberVisible(a);
      NumberVisible(b);
      VisibleConcat(PrintInt(a, 10), ",");
      VisibleConcat(PrintInt(a, 10) + ",", PrintInt(b, 10));
      VisibleConcat("[", SpanText(a, b));
      VisibleConcat("[" + SpanText(a, b), "]");
  }

  lemma {:induction false} NumberNotSpan(n: int)
    ensures SpanMatch(PrintInt(n, 10)) == None
  {
    assert PrintInt(n, 10)[0] in PrintInt(n, 10);
  }

  lemma {:induction false} VisibleStrips(s: string)
    requires Visible(s)
    ensures Strip(s) == s
  {
    VisibleIsStripped(s);
  }

  /** Reading a printed item gives the item, or fails when it is not readable. */
  lemma {:induction false} ReadItem(item: Item)
    ensures ReadPart(ItemText(item)) == if Readable(item) then Some([item]) else None
  {
    ItemTextVisible(item);
    VisibleStrips(ItemText(item));
    match item
    case One(n) =>
      NumberNotSpan(n);
      ParseIntPrint(n, 10);
    case Span(a, b) =>
      SpanMatchIff(a, b);
      ParseIntPrint(a, 10);
      ParseIntPrint(b, 10);
      BracketNotNumber(ItemText(item));
  }

  lemma {:induction false} TextsAt(items: seq<Item>, k: nat, i: nat)
    requires i < k <= |items|
    ensures |Texts(items, k)| == k && Texts(items, k)[i] == ItemText(items[i])
    decreases k
  {
    if i < k - 1 {
      TextsAt(items, k - 1, i);
    } else if k > 1 {
      TextsAt(items, k - 1, 0);
    }
  }

  predicate AllReadable(items: seq<Item>, k: nat)
    requires k <= |items|
  {
    forall i | 0 <= i < k :: Readable(items[i])
  }

  predicate Reads(read: string -> Option<seq<Item>>, part: string, item: Item) {
    read(part) == if Readable(item) then Some([item]) else None
  }

  lemma {:induction false} ReadTexts(read: string -> Option<seq<Item>>, items: seq<Item>, parts: seq<string>, k: nat)
    requires k <= |items| == |parts| && forall i | 0 <= i < |items| :: Reads(read, parts[i], items[i])
    ensures ReadParts(read, parts, k) == if AllReadable(items, k) then Some(items[..k]) else None
    decreases k
  {
    if k > 0 {
      ReadTexts(read, items, parts, k - 1);
      assert Reads(read, parts[k - 1], items[k - 1]);
      assert items[..k] == items[..k - 1] + [items[k - 1]];
    }
  }

  lemma {:induction false} VisibleNext(a: string, sep: string, b: string)
    requires Visible(a) && Visible(b) && (sep == "" || sep == ",")
    ensures Visible(a + sep + b)
  {
    VisibleConcat(a, sep);
    VisibleConcat(a + sep, b);
  }

  lemma {:induction false} PrintVisible(items: seq<Item>, k: nat)
    requires k <= |items|
    ensures Visible(PrintIn(items, k))
    decreases k
  {
    if k > 0 {
      PrintVisible(items, k - 1);
      ItemTextVisible(items[k - 1]);
      VisibleNext(PrintIn(items, k - 1), if k == 1 then "" else ",", ItemText(items[k - 1]));
    }
  }

  lemma {:induction false} CleanVisible(s: string, k: nat)
    requires k <= |s| && Visible(s)
    ensures CleanIn(s, k) == s[..k]
    decreases k
  {
    if k > 0 {
      CleanVisible(s, k - 1);
      assert s[..k] == s[..k - 1] + [s[k - 1]];
    }
  }

  lemma {:induction false} TextsRead(items: seq<Item>)
    ensures |Texts(items, |items|)| == |items|
    ensures forall i | 0 <= i < |items| :: Reads(ReadPart, Texts(items, |items|)[i], items[i])
  {
    if items != [] {
      TextsAt(items, |items|, 0);
    }
    forall i | 0 <= i < |items|
      ensures Reads(ReadPart, Texts(items, |items|)[i], items[i])
    {
      TextsAt(items, |items|, i);
      ReadItem(items[i]);
    }
  }

  /**
   A printed list of items is read back exactly, unless some range has a negative bound or its
   bounds out of order: then the parser reports an error.
   */
  lemma {:induction false} ParsePrinted(items: seq<Item>)
    ensures ParseSlots(Print(items)) == if AllReadable(items, |items|) then Some(Expand(items)) else None
  {
    var s, n := Print(items), |items|;
    PrintVisible(items, n);
    CleanVisible(s, |s|);
    assert s[..|s|] == s;
    FeedPrinted(items, n);
    PrintedParts(items, n);
    TextsRead(items);
    ReadTexts(ReadPart, items, Texts(items, n), n);
    assert items[..n] == items;
  }

  /**
   For every list of slots: the text is read back if and only if there are no three slots in a
   row of which the first is negative.
   */
  lemma {:induction false} ParseCompressedIff(s: seq<int>)
    ensures ParseSlots(Print(Compressed(s))) == Some(s) <==> !NegativeRun(s)
  {
    var items := Compressed(s);
    RoundTrip(s);
    CompressedCost(s);
    ParsePrinted(items);
    NegativeIff(s);
    assert forall i | 0 <= i < |items| :: Readable(items[i]) <==> (items[i].Span? ==> items[i].start >= 0);
  }

  /** So slots that are not negative are always read back. */
  lemma {:induction false} ParseCompressed(s: seq<int>)
    requires forall i | 0 <= i < |s| :: s[i] >= 0
    ensures ParseSlots(Print(Compressed(s))) == Some(s)
  {
    ParseCompressedIff(s);
  }
}
