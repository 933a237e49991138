/**
 Cache keys as strings: plain keys and per-layer keys share one syntax of fields separated by
 '@', which the parser tells apart by the field after the element type.
 */
module CacheKeys {
  import opened Text
  import opened Numerals

  /** The element types that have a name; a name stands for its type. */
  predicate IsDtype(name: string) {
    name in {"half", "bfloat16", "float", "double", "int8", "uint8", "int16", "int32", "int64", "bool",
             "fp8_e4m3fn", "fp8_e4m3fnuz", "fp8_e5m2", "fp8_e5m2fnuz"}
  }

  datatype Tag = Tag(name: string, value: string)

  /** A key; one with a layer is a per-layer key. No tags and an empty list of tags are the same. */
  datatype Key = Key(
    model: string, world: int, worker: int, hash: int, dtype: string, layer: Option<int>, tags: seq<Tag>)

  predicate DistinctNames(tags: seq<Tag>) {
    forall i, j | 0 <= i < j < |tags| :: tags[i].name != tags[j].name
  }

  /** What every constructed key satisfies: the tags come out of a dictionary. */
  predicate Valid(k: Key) {
    IsDtype(k.dtype) && DistinctNames(k.tags)
  }

  // ---- printing ----

  function TagText(t: Tag): string {
    t.name + "%" + t.value
  }

  function TagTexts(tags: seq<Tag>): seq<string> {
    seq(|tags|, i requires 0 <= i < |tags| => TagText(tags[i]))
  }

  function Fields(k: Key): seq<string> {
    [k.model, PrintInt(k.world, 10), PrintInt(k.worker, 10), PrintInt(k.hash, 16), k.dtype]
  }

  function Tail(k: Key): seq<string> {
    (if k.layer.Some? then [PrintInt(k.layer.value, 10)] else []) + TagTexts(k.tags)
  }

  function ToString(k: Key): string {
    Join(Fields(k) + Tail(k), "@")
  }

  // ---- parsing ----

  /** Assignment in an insertion-ordered dictionary of tags. */
  function Assign(tags: seq<Tag>, k: nat, t: Tag): seq<Tag>
    requires k <= |tags|
  {
    if k == 0 then tags + [t]
    else if tags[k - 1].name == t.name then tags[k - 1 := t]
    else Assign(tags, k - 1, t)
  }

  /** The tags in the first `k` of the given fields, or none when one has no '%'. */
  function ReadTags(fields: seq<string>, k: nat): Option<seq<Tag>>
    requires k <= |fields|
  {
    if k == 0 then Some([])
    else
      match ReadTags(fields, k - 1)
      case None => None
      case Some(tags) =>
        var i := IndexOf(fields[k - 1], '%');
        if i == |fields[k - 1]| then None
        else Some(Assign(tags, |tags|, Tag(fields[k - 1][..i], fields[k - 1][i + 1..])))
  }

  lemma {:induction false} UnreadableStays(fields: seq<string>, j: nat, k: nat)
    requires j <= k <= |fields| && ReadTags(fields, j).None?
    ensures ReadTags(fields, k).None?
    decreases k
  {
    if j < k {
      UnreadableStays(fields, j, k - 1);
    }
  }

  /** Fill the dictionary of tags field by field. */
  method FillTags(fields: seq<string>) returns (tags: Option<seq<Tag>>)
    ensures tags == ReadTags(fields, |fields|)
  {
    var filled := [];
    for k := 0 to |fields|
      invariant ReadTags(fields, k) == Some(filled)
    {
      var i := IndexOf(fields[k], '%');
      if i == |fields[k]| {
        UnreadableStays(fields, k + 1, |fields|);
        return None;
      }
      filled := Assign(filled, |filled|, Tag(fields[k][..i], fields[k][i + 1..]));
    }
    tags := Some(filled);
  }

  function Build(parts: seq<string>, layer: Option<int>, tags: Option<seq<Tag>>): Option<Key>
    requires |parts| >= 5
  {
    var world, worker, hash := ParseInt(parts[1], 10), ParseInt(parts[2], 10), ParseInt(parts[3], 16);
    if tags.None? || world.None? || worker.None? || hash.None? || !IsDtype(parts[4]) then None
    else Some(Key(parts[0], world.value, worker.value, hash.value, parts[4], layer, tags.value))
  }

  function PlainFromString(s: string): Option<Key> {
    var parts := SplitOn(s, '@');
    if |parts| < 5 then None else Build(parts, None, ReadTags(parts[5..], |parts| - 5))
  }

  function LayerFromString(s: string): Option<Key> {
    var parts := SplitOn(s, '@');
    if |parts| < 6 || ParseInt(parts[5], 10).None? then None
    else Build(parts, ParseInt(parts[5], 10), ReadTags(parts[6..], |parts| - 6))
  }

  /** The string, without surrounding white space, has a number in its sixth field. */
  predicate LooksLayered(s: string) {
    var parts := SplitOn(Strip(s), '@');
    |parts| >= 6 && AllDecimal(parts[5])
  }

  function ParseCacheKey(s: string): Option<Key> {
    if LooksLayered(s) then LayerFromString(s) else PlainFromString(s)
  }

  // ---- stripping joined fields ----

  lemma {:induction false} StripRightAfter(x: string, c: char, y: string)
    requires !IsSpace(c)
    ensures StripRight(x + [c] + y) == x + [c] + StripRight(y)
    decreases |y|
  {
    var s := x + [c] + y;
    if y == "" {
      assert s == x + [c];
    } else {
      assert s[..|s| - 1] == x + [c] + y[..|y| - 1];
      StripRightAfter(x, c, y[..|y| - 1]);
    }
  }

  lemma {:induction false} StripLeftBefore(x: string, c: char, y: string)
    requires !IsSpace(c)
    ensures StripLeft(x + [c] + y) == StripLeft(x) + [c] + y
    decreases |x|
  {
    var s := x + [c] + y;
    if x == "" {
      assert s == [c] + y;
    } else {
      assert s[1..] == x[1..] + [c] + y;
      StripLeftBefore(x[1..], c, y);
    }
  }

  function LastStripped(parts: seq<string>): seq<string>
    requires parts != []
  {
    parts[|parts| - 1 := StripRight(parts[|parts| - 1])]
  }

  lemma {:induction false} StripRightJoin(parts: seq<string>)
    requires parts != []
    ensures StripRight(Join(parts, "@")) == Join(LastStripped(parts), "@")
    decreases |parts|
  {
    if |parts| > 1 {
      var rest := parts[1..];
      StripRightJoin(rest);
      StripRightAfter(parts[0], '@', Join(rest, "@"));
      assert LastStripped(parts)[1..] == LastStripped(rest);
    }
  }

  lemma {:induction false} StripLeftJoin(parts: seq<string>)
    requires |parts| >= 2
    ensures StripLeft(Join(parts, "@")) == Join(parts[0 := StripLeft(parts[0])], "@")
  {
    StripLeftBefore(parts[0], '@', Join(parts[1..], "@"));
    assert parts[0 := StripLeft(parts[0])][1..] == parts[1..];
  }

  lemma {:induction false} StripFree(s: string, c: char)
    requires c !in s
    ensures c !in StripLeft(s)
    decreases |s|
  {
    if s != "" && IsSpace(s[0]) {
      StripFree(s[1..], c);
    }
  }

  lemma {:induction false} StripRightFree(s: string, c: char)
    requires c !in s
    ensures c !in StripRight(s)
    decreases |s|
  {
    if s != "" && IsSpace(s[|s| - 1]) {
      StripRightFree(s[..|s| - 1], c);
    }
  }

  /** Stripping the joined fields strips the first on the left and the last on the right. */
  lemma {:induction false} StripSplits(parts: seq<string>)
    requires |parts| >= 2 && AllFree(parts, '@')
    ensures SplitOn(Strip(Join(parts, "@")), '@') == LastStripped(parts[0 := StripLeft(parts[0])])
  {
    var left := parts[0 := StripLeft(parts[0])];
    StripLeftJoin(parts);
    StripRightJoin(left);
    StripFree(parts[0], '@');
    StripRightFree(left[|left| - 1], '@');
    SplitJoin(LastStripped(left), '@');
  }

  // ---- which keys are read back ----

  predicate CleanTag(t: Tag) {
    '@' !in t.name && '%' !in t.name && '@' !in t.value
  }

  predicate CleanTags(tags: seq<Tag>) {
    forall i | 0 <= i < |tags| :: CleanTag(tags[i])
  }

  /** No separator where it would be read as one, and no negative layer. */
  predicate Clean(k: Key) {
    '@' !in k.model && CleanTags(k.tags) && (k.layer.Some? ==> k.layer.value >= 0)
  }

  function Parts(k: Key): seq<string> {
    Fields(k) + Tail(k)
  }

  lemma {:induction false} DtypeFree(name: string)
    requires IsDtype(name)
    ensures '@' !in name
  {
  }

  lemma {:induction false} NumberFree(n: int, base: nat)
    requires IsBase(base)
    ensures '@' !in PrintInt(n, base)
  {
  }

  lemma {:induction false} FieldsFree(k: Key)
    requires IsDtype(k.dtype) && '@' !in k.model
    ensures AllFree(Fields(k), '@')
  {
    NumberFree(k.world, 10);
    NumberFree(k.worker, 10);
    NumberFree(k.hash, 16);
    DtypeFree(k.dtype);
  }

  lemma {:induction false} TagTextFree(t: Tag)
    requires CleanTag(t)
    ensures '@' !in TagText(t)
  {
  }

  lemma {:induction false} TailFree(k: Key)
    requires CleanTags(k.tags)
    ensures AllFree(Tail(k), '@')
  {
    if k.layer.Some? {
      NumberFree(k.layer.value, 10);
    }
    forall i | 0 <= i < |k.tags|
      ensures '@' !in TagTexts(k.tags)[i]
    {
      TagTextFree(k.tags[i]);
    }
  }

  lemma {:induction false} FreeConcat(a: seq<string>, b: seq<string>)
    requires AllFree(a, '@') && AllFree(b, '@')
    ensures AllFree(a + b, '@')
  {
  }

  /** The parts of a clean key's string are its fields. */
  lemma {:induction false} PartsRead(k: Key)
    requires IsDtype(k.dtype) && '@' !in k.model && CleanTags(k.tags)
    ensures AllFree(Parts(k), '@') && SplitOn(ToString(k), '@') == Parts(k)
  {
    FieldsFree(k);
    TailFree(k);
    FreeConcat(Fields(k), Tail(k));
    SplitJoin(Parts(k), '@');
  }

  // ---- reading tags ----

  lemma {:induction false} TagTextSplit(t: Tag)
    requires '%' !in t.name
    ensures var i := IndexOf(TagText(t), '%');
            i < |TagText(t)| && TagText(t)[..i] == t.name && TagText(t)[i + 1..] == t.value
  {
    var s, i := TagText(t), |t.name|;
    assert s[..i] == t.name && s[i + 1..] == t.value;
    IndexOfUnique(s, '%', i);
  }

  lemma {:induction false} AssignNew(tags: seq<Tag>, k: nat, t: Tag)
    requires k <= |tags| && forall i | 0 <= i < k :: tags[i].name != t.name
    ensures Assign(tags, k, t) == tags + [t]
    decreases k
  {
    if k > 0 {
      AssignNew(tags, k - 1, t);
    }
  }

  lemma {:induction false} ReadPrintedTags(tags: seq<Tag>, k: nat)
    requires k <= |tags| && CleanTags(tags) && DistinctNames(tags)
    ensures ReadTags(TagTexts(tags), k) == Some(tags[..k])
    decreases k
  {
    if k > 0 {
      ReadPrintedTags(tags, k - 1);
      ReadNext(TagTexts(tags), k - 1, tags[..k - 1], tags[k - 1]);
      assert tags[..k] == tags[..k - 1] + [tags[k - 1]];
    }
  }

  lemma {:induction false} ReadNext(fields: seq<string>, k: nat, tags: seq<Tag>, t: Tag)
    requires k < |fields| && fields[k] == TagText(t) && '%' !in t.name && ReadTags(fields, k) == Some(tags)
    requires forall i | 0 <= i < |tags| :: tags[i].name != t.name
    ensures ReadTags(fields, k + 1) == Some(tags + [t])
  {
    TagTextSplit(t);
    AssignNew(tags, |tags|, t);
  }

  lemma {:induction false} ReadAllTags(tags: seq<Tag>)
    requires CleanTags(tags) && DistinctNames(tags)
    ensures ReadTags(TagTexts(tags), |tags|) == Some(tags)
  {
    ReadPrintedTags(tags, |tags|);
    assert tags[..|tags|] == tags;
  }

  // ---- telling the two kinds apart ----

  lemma {:induction false} StripRightHas(s: string, c: char)
    requires c in s && !IsSpace(c)
    ensures c in StripRight(s)
    decreases |s|
  {
    if IsSpace(s[|s| - 1]) {
      StripRightHas(s[..|s| - 1], c);
    }
  }

  lemma {:induction false} StripLeftHas(s: string, c: char)
    requires c in s && !IsSpace(c)
    ensures c in StripLeft(s)
    decreases |s|
  {
    if IsSpace(s[0]) {
      StripLeftHas(s[1..], c);
    }
  }

  lemma {:induction false} SixthField(parts: seq<string>)
    requires |parts| >= 2 && AllFree(parts, '@')
    ensures var stripped := SplitOn(Strip(Join(parts, "@")), '@');
            && |stripped| == |parts|
            && (|parts| >= 6 ==> stripped[5] == if |parts| == 6 then StripRight(parts[5]) else parts[5])
  {
    StripSplits(parts);
  }

  lemma {:induction false} NumberStrips(n: int)
    ensures StripRight(PrintInt(n, 10)) == PrintInt(n, 10)
  {
    var s := PrintInt(n, 10);
    assert s[|s| - 1] in s;
  }

  lemma {:induction false} TagNotDecimal(t: Tag)
    ensures !AllDecimal(TagText(t)) && !AllDecimal(StripRight(TagText(t)))
  {
    assert TagText(t)[|t.name|] == '%';
    assert '%' in TagText(t);
    StripRightHas(TagText(t), '%');
  }

  lemma {:induction false} LayeredIff(k: Key)
    requires IsDtype(k.dtype) && Clean(k)
    ensures LooksLayered(ToString(k)) <==> k.layer.Some?
  {
    PartsRead(k);
    SixthField(Parts(k));
    if k.layer.Some? {
      NumberStrips(k.layer.value);
      PrintNatDecimal(k.layer.value);
      assert Parts(k)[5] == PrintInt(k.layer.value, 10);
    } else if k.tags != [] {
      TagNotDecimal(k.tags[0]);
      assert Parts(k)[5] == TagText(k.tags[0]);
    }
  }

  lemma {:induction false} BuildFrom(parts: seq<string>, k: Key)
    requires |parts| >= 5 && IsDtype(k.dtype) && parts[0] == k.model && parts[4] == k.dtype
    requires ParseInt(parts[1], 10) == Some(k.world) && ParseInt(parts[2], 10) == Some(k.worker)
    requires ParseInt(parts[3], 16) == Some(k.hash)
    ensures Build(parts, k.layer, Some(k.tags)) == Some(k)
  {
  }

  lemma {:induction false} BuildPrinted(k: Key)
    requires IsDtype(k.dtype)
    ensures Build(Parts(k), k.layer, Some(k.tags)) == Some(k)
  {
    ParseIntPrint(k.world, 10);
    ParseIntPrint(k.worker, 10);
    ParseIntPrint(k.hash, 16);
    BuildFrom(Parts(k), k);
  }

  lemma {:induction false} TagFields(k: Key)
    ensures k.layer == None ==> Parts(k)[5..] == TagTexts(k.tags) && |Parts(k)| == 5 + |k.tags|
    ensures k.layer.Some?
            ==> Parts(k)[6..] == TagTexts(k.tags) && |Parts(k)| == 6 + |k.tags| && Parts(k)[5] == PrintInt(k.layer.value, 10)
  {
  }

  lemma {:induction false} PlainRoundTrip(k: Key)
    requires Valid(k) && Clean(k) && k.layer == None
    ensures PlainFromString(ToString(k)) == Some(k)
  {
    PartsRead(k);
    ReadAllTags(k.tags);
    BuildPrinted(k);
    TagFields(k);
  }

  lemma {:induction false} LayerRoundTrip(k: Key)
    requires Valid(k) && Clean(k) && k.layer.Some?
    ensures LayerFromString(ToString(k)) == Some(k)
  {
    PartsRead(k);
    ReadAllTags(k.tags);
    BuildPrinted(k);
    TagFields(k);
    ParseIntPrint(k.layer.value, 10);
  }

  /** A clean key is read back, as a key of the same kind. */
  lemma {:induction false} RoundTrip(k: Key)
    requires Valid(k) && Clean(k)
    ensures ParseCacheKey(ToString(k)) == Some(k)
  {
    LayeredIff(k);
    if k.layer.Some? {
      LayerRoundTrip(k);
    } else {
      PlainRoundTrip(k);
    }
  }

  // ---- whatever is read is clean ----

  lemma {:induction false} AssignClean(tags: seq<Tag>, k: nat, t: Tag)
    requires k <= |tags| && CleanTags(tags) && CleanTag(t)
    ensures CleanTags(Assign(tags, k, t))
    decreases k
  {
    if k > 0 && tags[k - 1].name != t.name {
      AssignClean(tags, k - 1, t);
    }
  }

  lemma {:induction false} ReadTagsClean(fields: seq<string>, k: nat)
    requires k <= |fields| && AllFree(fields, '@') && ReadTags(fields, k).Some?
    ensures CleanTags(ReadTags(fields, k).value)
    decreases k
  {
    if k > 0 {
      ReadTagsClean(fields, k - 1);
      var f, tags := fields[k - 1], ReadTags(fields, k - 1).value;
      var i := IndexOf(f, '%');
      assert f in fields;
      AssignClean(tags, |tags|, Tag(f[..i], f[i + 1..]));
    }
  }

  lemma {:induction false} ParseNotNegative(p: string)
    requires AllDecimal(p) || AllDecimal(StripRight(p))
    ensures ParseInt(p, 10).Some? ==> ParseInt(p, 10).value >= 0
  {
    StripRightStarts(p);
    if AllDecimal(p) {
      assert p[0] in p && p[|p| - 1] in p;
    } else {
      assert StripRight(p)[0] in StripRight(p);
    }
    assert StripLeft(p) == p;
  }

  lemma {:induction false} StripRightStarts(p: string)
    ensures StripRight(p) != "" ==> p != "" && StripRight(p)[0] == p[0]
    decreases |p|
  {
    if p != "" && IsSpace(p[|p| - 1]) {
      StripRightStarts(p[..|p| - 1]);
    }
  }

  lemma {:induction false} BuildIsClean(parts: seq<string>, layer: Option<int>, tags: Option<seq<Tag>>)
    requires |parts| >= 5 && AllFree(parts, '@') && Build(parts, layer, tags).Some?
    requires (tags.Some? ==> CleanTags(tags.value)) && (layer.Some? ==> layer.value >= 0)
    ensures Clean(Build(parts, layer, tags).value)
  {
    assert parts[0] in parts;
    BuildFields(parts, layer, tags);
  }

  lemma {:induction false} BuildFields(parts: seq<string>, layer: Option<int>, tags: Option<seq<Tag>>)
    requires |parts| >= 5 && Build(parts, layer, tags).Some?
    ensures var k := Build(parts, layer, tags).value; k.model == parts[0] && k.layer == layer && tags == Some(k.tags)
  {
  }

  lemma {:induction false} PlainIsClean(s: string)
    requires PlainFromString(s).Some?
    ensures Clean(PlainFromString(s).value)
  {
    var parts := SplitOn(s, '@');
    JoinSplit(s, '@');
    SliceFree(parts, 5);
    var tags := ReadTags(parts[5..], |parts| - 5);
    TagsClean(parts[5..], |parts| - 5);
    BuildIsClean(parts, None, tags);
  }

  lemma {:induction false} TagsClean(fields: seq<string>, k: nat)
    requires k <= |fields| && AllFree(fields, '@')
    ensures ReadTags(fields, k).Some? ==> CleanTags(ReadTags(fields, k).value)
  {
    if ReadTags(fields, k).Some? {
      ReadTagsClean(fields, k);
    }
  }

  lemma {:induction false} LayerNotNegative(s: string)
    requires LooksLayered(s)
    ensures var parts := SplitOn(s, '@');
            |parts| >= 6 && (ParseInt(parts[5], 10).Some? ==> ParseInt(parts[5], 10).value >= 0)
  {
    var parts := SplitOn(s, '@');
    JoinSplit(s, '@');
    if |parts| >= 2 {
      SixthField(parts);
      ParseNotNegative(parts[5]);
    } else {
      OnePartStrips(s);
    }
  }

  /** A string without a separator stays without one. */
  lemma {:induction false} OnePartStrips(s: string)
    requires |SplitOn(s, '@')| == 1
    ensures |SplitOn(Strip(s), '@')| == 1
  {
    assert s[..|s|] == s;
    StripFree(s, '@');
    StripRightFree(StripLeft(s), '@');
    var t := Strip(s);
    assert t[..|t|] == t;
    IndexOfUnique(t, '@', |t|);
  }

  lemma {:induction false} LayerIsClean(s: string)
    requires LooksLayered(s) && LayerFromString(s).Some?
    ensures Clean(LayerFromString(s).value)
  {
    var parts := SplitOn(s, '@');
    JoinSplit(s, '@');
    LayerNotNegative(s);
    SliceFree(parts, 6);
    var tags := ReadTags(parts[6..], |parts| - 6);
    TagsClean(parts[6..], |parts| - 6);
    BuildIsClean(parts, ParseInt(parts[5], 10), tags);
  }

  lemma {:induction false} ReadIsClean(s: string)
    requires ParseCacheKey(s).Some?
    ensures Clean(ParseCacheKey(s).value)
  {
    if LooksLayered(s) {
      LayerIsClean(s);
    } else {
      PlainIsClean(s);
    }
  }

  lemma {:induction false} SliceFree(parts: seq<string>, i: nat)
    requires i <= |parts| && AllFree(parts, '@')
    ensures AllFree(parts[i..], '@')
  {
  }

  /** A key is read back if and only if it is clean. */
  lemma {:induction false} RoundTripIff(k: Key)
    requires Valid(k)
    ensures ParseCacheKey(ToString(k)) == Some(k) <==> Clean(k)
  {
    if Clean(k) {
      RoundTrip(k);
    }
    if ParseCacheKey(ToString(k)) == Some(k) {
      ReadIsClean(ToString(k));
    }
  }

  /** Different clean keys, of whichever kinds, have different strings. */
  lemma {:induction false} PrintInjective(k: Key, k': Key)
    requires Valid(k) && Clean(k) && Valid(k') && Clean(k') && ToString(k) == ToString(k')
    ensures k == k'
  {
    RoundTrip(k);
    RoundTrip(k');
  }

  // ---- the chunk hash in a key string ----

  /** The second field from the right, read as a hexadecimal number. */
  function KeyHash(s: string): Option<int> {
    var parts := SplitOn(s, '@');
    if |parts| < 3 then None else ParseInt(parts[|parts| - 2], 16)
  }

  lemma {:induction false} SplitHead(head: string, rest: string)
    requires '@' !in head
    ensures SplitOn(head + "@" + rest, '@') == [head] + SplitOn(rest, '@')
  {
    var s, i := head + "@" + rest, |head|;
    assert s[..i] == head && s[i + 1..] == rest;
    IndexOfUnique(s, '@', i);
  }

  lemma {:induction false} HeadAndRest(a: string, i: nat)
    requires i < |a| && a[i] == '@'
    ensures a == a[..i] + "@" + a[i + 1..]
  {
  }

  lemma {:induction false} SplitStep(a: string, b: string, head: string, rest: string)
    requires a == head + "@" + rest && '@' !in head
    requires SplitOn(rest + "@" + b, '@') == SplitOn(rest, '@') + SplitOn(b, '@')
    ensures SplitOn(a + "@" + b, '@') == SplitOn(a, '@') + SplitOn(b, '@')
  {
    ConcatAssoc(head + "@", rest, "@" + b);
    ConcatAssoc(rest, "@", b);
    ConcatAssoc(head + "@" + rest, "@", b);
    SplitHead(head, rest + "@" + b);
    SplitHead(head, rest);
    ConcatAssoc([head], SplitOn(rest, '@'), SplitOn(b, '@'));
  }

  lemma {:induction false} SplitConcat(a: string, b: string)
    ensures SplitOn(a + "@" + b, '@') == SplitOn(a, '@') + SplitOn(b, '@')
    decreases |a|
  {
    var i := IndexOf(a, '@');
    if i == |a| {
      assert a[..i] == a;
      SplitHead(a, b);
    } else {
      SplitConcat(a[i + 1..], b);
      HeadAndRest(a, i);
      SplitStep(a, b, a[..i], a[i + 1..]);
    }
  }

  /** A character that no number contains. */
  predicate Foreign(c: char) {
    !IsDigit(c, 16) && !IsSpace(c) && c !in "_+-xX"
  }

  lemma {:induction false} DigitsForeign(s: string, c: char)
    requires Foreign(c) && c in s
    ensures ParseDigits(s, 16) == None
    decreases |s|
  {
    if IsDigit(s[|s| - 1], 16) && |s| > 1 {
      var front := s[..|s| - 1];
      assert s == front + [s[|s| - 1]];
      if front[|front| - 1] == '_' {
        assert front == front[..|front| - 1] + ['_'];
        DigitsForeign(front[..|front| - 1], c);
      } else {
        DigitsForeign(front, c);
      }
    }
  }

  lemma {:induction false} TailHas(s: string, i: nat, c: char)
    requires i <= |s| && c in s && c !in s[..i]
    ensures c in s[i..]
  {
    assert s == s[..i] + s[i..];
  }

  lemma {:induction false} MagnitudeForeign(u: string, c: char)
    requires Foreign(c) && c in u
    ensures ParseMagnitude(u, 16) == None
  {
    if |u| >= 2 && u[0] == '0' && (u[1] == 'x' || u[1] == 'X') {
      var i := if |u| > 2 && u[2] == '_' then 3 else 2;
      TailHas(u, i, c);
      DigitsForeign(u[i..], c);
    } else {
      DigitsForeign(u, c);
    }
  }

  lemma {:induction false} NumberForeign(s: string, c: char)
    requires Foreign(c) && c in s
    ensures ParseInt(s, 16) == None
  {
    StripLeftHas(s, c);
    StripRightHas(StripLeft(s), c);
    var t := Strip(s);
    if t[0] == '-' || t[0] == '+' {
      TailHas(t, 1, c);
      MagnitudeForeign(t[1..], c);
    } else {
      MagnitudeForeign(t, c);
    }
  }

  /** No element type reads as a number. */
  lemma {:induction false} DtypeNotNumber(name: string)
    requires IsDtype(name)
    ensures ParseInt(name, 16) == None
  {
    var c := if name[0] == 'b' then name[2] else if name[0] == 'f' || name[0] == 'd' then name[1] else name[0];
    assert c in name && Foreign(c);
    NumberForeign(name, c);
  }

  /** The digits of a decimal number, read as hexadecimal ones. */
  function HexReading(n: nat): nat {
    if n < 10 then n else 16 * HexReading(n / 10) + n % 10
  }

  lemma {:induction false} HexDigits(n: nat)
    ensures ParseDigits(PrintNat(n, 10), 16) == Some(HexReading(n))
    decreases n
  {
    if n >= 10 {
      HexDigits(n / 10);
      OneMoreDigit(PrintNat(n / 10, 10), n % 10, HexReading(n / 10));
    }
  }

  lemma {:induction false} OneMoreDigit(front: string, d: nat, v: nat)
    requires d < 10 && front != "" && (forall c | c in front :: IsDigit(c, 10)) && ParseDigits(front, 16) == Some(v)
    ensures ParseDigits(front + [DigitChar(d)], 16) == Some(16 * v + d)
  {
    var s := front + [DigitChar(d)];
    assert s[..|s| - 1] == front;
    assert front[|front| - 1] in front;
  }

  lemma {:induction false} HexNumber(n: nat)
    ensures ParseInt(PrintInt(n, 10), 16) == Some(HexReading(n))
  {
    var s := PrintInt(n, 10);
    VisibleIsStripped(s);
    HexDigits(n);
    assert s[0] in s;
    if |s| >= 2 {
      assert s[1] in s;
    }
  }

  lemma {:induction false} JoinFields(model: string, rest: seq<string>)
    requires rest != []
    ensures Join([model] + rest, "@") == model + "@" + Join(rest, "@")
  {
    assert ([model] + rest)[1..] == rest;
  }

  /** For a plain key without tags, whatever its model is called, the hash is found. */
  lemma {:induction false} PlainKeyHash(k: Key)
    requires IsDtype(k.dtype) && k.layer == None && k.tags == []
    ensures KeyHash(ToString(k)) == Some(k.hash)
  {
    var rest := [PrintInt(k.world, 10), PrintInt(k.worker, 10), PrintInt(k.hash, 16), k.dtype];
    FieldsFree(k.(model := ""));
    assert Fields(k.(model := ""))[1..] == rest;
    SliceFree(Fields(k.(model := "")), 1);
    assert Parts(k) == [k.model] + rest;
    JoinFields(k.model, rest);
    SplitJoin(rest, '@');
    SplitConcat(k.model, Join(rest, "@"));
    ParseIntPrint(k.hash, 16);
  }

  lemma {:induction false} SecondField(k: Key)
    ensures var parts, n := Parts(k), |k.tags|;
            parts[|parts| - 2]
            == if n >= 2 then TagText(k.tags[n - 2])
               else if k.layer.Some? && n == 1 then PrintInt(k.layer.value, 10)
               else if k.layer == None && n == 0 then PrintInt(k.hash, 16)
               else k.dtype
  {
  }

  lemma {:induction false} KeyHashIs(k: Key)
    requires Valid(k) && Clean(k)
    ensures KeyHash(ToString(k)) == ParseInt(Parts(k)[|Parts(k)| - 2], 16)
  {
    PartsRead(k);
  }

  lemma {:induction false} TagNotNumber(t: Tag)
    ensures ParseInt(TagText(t), 16) == None
  {
    assert TagText(t)[|t.name|] == '%';
    NumberForeign(TagText(t), '%');
  }

  /** What is found in the string of any clean key: for a layer with one tag, its layer. */
  lemma {:induction false} KeyHashOf(k: Key)
    requires Valid(k) && Clean(k)
    ensures KeyHash(ToString(k))
            == if k.layer == None && k.tags == [] then Some(k.hash)
               else if k.layer.Some? && |k.tags| == 1 then Some(HexReading(k.layer.value))
               else None
  {
    KeyHashIs(k);
    SecondField(k);
    var n := |k.tags|;
    if n >= 2 {
      TagNotNumber(k.tags[n - 2]);
    } else if k.layer.Some? && n == 1 {
      HexNumber(k.layer.value);
    } else if k.layer == None && n == 0 {
      ParseIntPrint(k.hash, 16);
    } else {
      DtypeNotNumber(k.dtype);
    }
  }
}
