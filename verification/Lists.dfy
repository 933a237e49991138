/**
 Linked lists as the specification view of the lines of a file: `From(s, i)` is what a
 reader at position `i` still has in front of it.
 */
module Lists {

  datatype List<+T> = Nil | Cons(head: T, tail: List<T>)

  function From<T>(s: seq<T>, i: nat): List<T>
    requires i <= |s|
    decreases |s| - i
  {
    if i == |s| then Nil else Cons(s[i], From(s, i + 1))
  }

  function Len<T>(l: List<T>): nat {
    if l.Nil? then 0 else 1 + Len(l.tail)
  }

  function Append<T>(l: List<T>, rest: List<T>): List<T> {
    if l.Nil? then rest else Cons(l.head, Append(l.tail, rest))
  }

  function ToSeq<T>(l: List<T>): seq<T> {
    if l.Nil? then [] else [l.head] + ToSeq(l.tail)
  }

  /** The elements before the first marked one. */
  function Until<T>(l: List<T>, mark: T -> bool): List<T> {
    if l.Nil? || mark(l.head) then Nil else Cons(l.head, Until(l.tail, mark))
  }

  /** The first marked element and everything after it. */
  function After<T>(l: List<T>, mark: T -> bool): List<T> {
    if l.Nil? || mark(l.head) then l else After(l.tail, mark)
  }

  predicate NoneOf<T>(l: List<T>, mark: T -> bool) {
    l.Nil? || (!mark(l.head) && NoneOf(l.tail, mark))
  }

  predicate StartsWithMark<T>(l: List<T>, mark: T -> bool) {
    l.Nil? || mark(l.head)
  }

  lemma {:induction l} AppendAssoc<T>(l: List<T>, m: List<T>, n: List<T>)
    ensures Append(Append(l, m), n) == Append(l, Append(m, n))
  {
  }

  lemma {:induction l} LenAppend<T>(l: List<T>, m: List<T>)
    ensures Len(Append(l, m)) == Len(l) + Len(m)
  {
  }

  lemma {:induction l} UntilAfter<T>(l: List<T>, mark: T -> bool)
    ensures Append(Until(l, mark), After(l, mark)) == l
    ensures NoneOf(Until(l, mark), mark) && StartsWithMark(After(l, mark), mark)
    ensures Len(Until(l, mark)) + Len(After(l, mark)) == Len(l)
  {
  }

  lemma {:induction l} UntilOfAppend<T>(l: List<T>, rest: List<T>, mark: T -> bool)
    requires NoneOf(l, mark) && StartsWithMark(rest, mark)
    ensures Until(Append(l, rest), mark) == l && After(Append(l, rest), mark) == rest
  {
  }

  lemma {:induction false} LenFrom<T>(s: seq<T>, i: nat)
    requires i <= |s|
    ensures Len(From(s, i)) == |s| - i
    decreases |s| - i
  {
    if i < |s| {
      LenFrom(s, i + 1);
    }
  }

  lemma {:induction false} ToSeqFrom<T>(s: seq<T>, i: nat)
    requires i <= |s|
    ensures ToSeq(From(s, i)) == s[i..]
    decreases |s| - i
  {
    if i < |s| {
      ToSeqFrom(s, i + 1);
      assert s[i..] == [s[i]] + s[i + 1..];
    }
  }

  lemma {:induction false} FromConcat<T>(a: seq<T>, b: seq<T>, i: nat)
    requires i <= |a|
    ensures From(a + b, i) == Append(From(a, i), From(b, 0))
    decreases |a| - i
  {
    if i < |a| {
      FromConcat(a, b, i + 1);
    } else {
      FromShift(a, b, 0);
    }
  }

  lemma {:induction false} FromShift<T>(a: seq<T>, b: seq<T>, j: nat)
    requires j <= |b|
    ensures From(a + b, |a| + j) == From(b, j)
    decreases |b| - j
  {
    if j < |b| {
      FromShift(a, b, j + 1);
    }
  }

  lemma {:induction l} FromToSeq<T>(l: List<T>)
    ensures From(ToSeq(l), 0) == l
  {
    if l.Cons? {
      FromConcat([l.head], ToSeq(l.tail), 0);
      assert From([l.head], 0) == Cons(l.head, From([l.head], 1));
    }
  }

  lemma {:induction l} ToSeqAppend<T>(l: List<T>, m: List<T>)
    ensures ToSeq(Append(l, m)) == ToSeq(l) + ToSeq(m)
  {
  }
}
