/** Small things several modules use. */
module Basics {

  datatype Option<+T> = None | Some(value: T)

  function Least(a: nat, b: nat): nat
  {
    if a < b then a else b
  }

  lemma Assoc<T>(a: seq<T>, b: seq<T>, c: seq<T>)
    ensures (a + b) + c == a + (b + c)
  {
  }

  /** The results of `f` on the first `n` items, one after the other. */
  function Flat<T, U>(f: T -> seq<U>, items: seq<T>, n: nat): seq<U>
    requires n <= |items|
  {
    if n == 0 then [] else Flat(f, items, n - 1) + f(items[n - 1])
  }

  lemma {:induction false} FlatPrefix<T, U>(f: T -> seq<U>, a: seq<T>, b: seq<T>, n: nat)
    requires n <= |a|
    ensures Flat(f, a + b, n) == Flat(f, a, n)
  {
    if n > 0 {
      FlatPrefix(f, a, b, n - 1);
    }
  }

  lemma {:induction false} FlatConcat<T, U>(f: T -> seq<U>, a: seq<T>, b: seq<T>, n: nat)
    requires n <= |b|
    ensures Flat(f, a + b, |a| + n) == Flat(f, a, |a|) + Flat(f, b, n)
  {
    if n == 0 {
      FlatPrefix(f, a, b, |a|);
    } else {
      FlatConcat(f, a, b, n - 1);
      Assoc(Flat(f, a, |a|), Flat(f, b, n - 1), f(b[n - 1]));
    }
  }

  lemma {:induction false} FlatSlice<T, U>(f: T -> seq<U>, items: seq<T>, i: nat, j: nat, n: nat)
    requires i <= i + n <= j <= |items|
    ensures Flat(f, items, i + n) == Flat(f, items, i) + Flat(f, items[i..j], n)
  {
    if n > 0 {
      FlatSlice(f, items, i, j, n - 1);
      Assoc(Flat(f, items, i), Flat(f, items[i..j], n - 1), f(items[i + (n - 1)]));
    }
  }

  lemma {:induction false} FlatFrom<T, U>(f: T -> seq<U>, items: seq<T>, n: nat, u: U)
    requires n <= |items| && u in Flat(f, items, n)
    ensures exists i | 0 <= i < n :: u in f(items[i])
  {
    if n > 0 && u !in f(items[n - 1]) {
      FlatFrom(f, items, n - 1, u);
    }
  }

  lemma {:induction false} FlatMember<T, U>(f: T -> seq<U>, items: seq<T>, n: nat, i: nat)
    requires i < n <= |items|
    ensures forall u | u in f(items[i]) :: u in Flat(f, items, n)
  {
    if i < n - 1 {
      FlatMember(f, items, n - 1, i);
    }
  }

  /** How many of the first `n` items satisfy `p`. */
  function Count<T>(p: T -> bool, items: seq<T>, n: nat): nat
    requires n <= |items|
  {
    if n == 0 then 0 else Count(p, items, n - 1) + if p(items[n - 1]) then 1 else 0
  }

  lemma {:induction false} CountPrefix<T>(p: T -> bool, a: seq<T>, b: seq<T>, n: nat)
    requires n <= |a|
    ensures Count(p, a + b, n) == Count(p, a, n)
  {
    if n > 0 {
      CountPrefix(p, a, b, n - 1);
    }
  }

  /** Where each item gives at most one result, counting results is counting the items that give one counted. */
  lemma {:induction false} CountFlat<T(!new), U>(f: T -> seq<U>, p: U -> bool, q: T -> bool, items: seq<T>, n: nat)
    requires n <= |items|
    requires forall t: T :: |f(t)| <= 1 && (q(t) <==> |f(t)| == 1 && p(f(t)[0]))
    ensures Count(p, Flat(f, items, n), |Flat(f, items, n)|) == Count(q, items, n)
  {
    if n > 0 {
      CountFlat(f, p, q, items, n - 1);
      CountPrefix(p, Flat(f, items, n - 1), f(items[n - 1]), |Flat(f, items, n - 1)|);
    }
  }
}
