/** How often an element occurs in a sequence. */
module Counting {

  /** How often an element occurs among the first `k`. */
  ghost function TimesIn<T>(t: seq<T>, k: nat, x: T): nat
    requires k <= |t|
  {
    if k == 0 then 0 else TimesIn(t, k - 1, x) + if t[k - 1] == x then 1 else 0
  }

  ghost function Times<T>(t: seq<T>, x: T): nat {
    TimesIn(t, |t|, x)
  }

  lemma {:induction false} TimesPrefix<T>(t: seq<T>, u: seq<T>, k: nat, x: T)
    requires k <= |t|
    ensures TimesIn(t + u, k, x) == TimesIn(t, k, x)
    decreases k
  {
    if k > 0 {
      TimesPrefix(t, u, k - 1, x);
    }
  }

  lemma {:induction false} TimesSuffix<T>(t: seq<T>, u: seq<T>, k: nat, x: T)
    requires k <= |u|
    ensures TimesIn(t + u, |t| + k, x) == Times(t, x) + TimesIn(u, k, x)
    decreases k
  {
    if k == 0 {
      TimesPrefix(t, u, |t|, x);
    } else {
      TimesSuffix(t, u, k - 1, x);
    }
  }

  lemma {:induction false} TimesAppend<T>(t: seq<T>, u: seq<T>, x: T)
    ensures Times(t + u, x) == Times(t, x) + Times(u, x)
  {
    TimesSuffix(t, u, |u|, x);
  }

  lemma {:induction false} TimesOne<T>(y: T, x: T)
    ensures Times([y], x) == if x == y then 1 else 0
  {
    assert TimesIn([y], 0, x) == 0;
  }

  lemma {:induction false} TimesIsMultiplicity<T>(t: seq<T>, k: nat, x: T)
    requires k <= |t|
    ensures multiset(t[..k])[x] == TimesIn(t, k, x)
    decreases k
  {
    if k > 0 {
      TimesIsMultiplicity(t, k - 1, x);
      assert t[..k] == t[..k - 1] + [t[k - 1]];
    }
  }

  lemma {:induction false} TimesIff<T>(t: seq<T>, k: nat, x: T)
    requires k <= |t|
    ensures TimesIn(t, k, x) > 0 <==> exists i :: 0 <= i < k && t[i] == x
    decreases k
  {
    if k > 0 {
      TimesIff(t, k - 1, x);
    }
  }
}
