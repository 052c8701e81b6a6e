/** The in-process response cache: a bounded store in order of writing, with a time to live per entry. */
module MemoryCache {
  import opened Basics

  const MAX_SIZE: nat := 1000

  /** Everything done to the cache; `until` is the expiry time a write sets. */
  datatype Event<V> = Put(key: string, payload: V, until: real) | Got(key: string, at: real)

  // ---- history ----

  /** The position of the last write of `key` among the first `n` events, or -1. */
  function LastWrite<V>(h: seq<Event<V>>, n: nat, key: string): (i: int)
    requires n <= |h|
    ensures -1 <= i < n && (i >= 0 ==> h[i].Put? && h[i].key == key)
    ensures forall k | i < k < n :: !(h[k].Put? && h[k].key == key)
  {
    if n == 0 then -1
    else if h[n - 1].Put? && h[n - 1].key == key then n - 1
    else LastWrite(h, n - 1, key)
  }

  /** A read has come after the last write of `key` and after its expiry; an expiry time of zero counts as none. */
  ghost predicate Lapsed<V>(h: seq<Event<V>>, key: string)
  {
    var w := LastWrite(h, |h|, key);
    w >= 0 && exists i | w < i < |h| :: h[i].Got? && h[i].key == key && h[w].until != 0.0 && h[i].at > h[w].until
  }

  /** `others` are distinct keys, all written after the last write of `key`. */
  ghost predicate Newer<V>(h: seq<Event<V>>, key: string, others: seq<string>)
  {
    && (forall j | 0 <= j < |others| :: LastWrite(h, |h|, others[j]) > LastWrite(h, |h|, key))
    && (forall i, j | 0 <= i < j < |others| :: others[i] != others[j])
  }

  /** At least as many distinct other keys as the cache can hold were written after the last write of `key`. */
  ghost predicate Crowded<V>(h: seq<Event<V>>, key: string)
  {
    exists others: seq<string> :: |others| >= 1000 && Newer(h, key, others)
  }

  lemma {:induction false} LastWritePrefix<V>(h: seq<Event<V>>, e: Event<V>, n: nat, key: string)
    requires n <= |h|
    ensures LastWrite(h + [e], n, key) == LastWrite(h, n, key)
  {
    if n > 0 {
      LastWritePrefix(h, e, n - 1, key);
    }
  }

  lemma LastWriteGrows<V>(h: seq<Event<V>>, e: Event<V>, key: string)
    ensures LastWrite(h + [e], |h| + 1, key) == if e.Put? && e.key == key then |h| else LastWrite(h, |h|, key)
  {
    LastWritePrefix(h, e, |h|, key);
  }

  // ---- the tables ----

  ghost predicate Written<V>(h: seq<Event<V>>, key: string, payload: V, until: real)
  {
    var w := LastWrite(h, |h|, key);
    w >= 0 && h[w] == Put(key, payload, until)
  }

  /** A key once written and now absent has been read after its expiry or crowded out. */
  ghost predicate Accounted<V>(h: seq<Event<V>>, key: string, present: bool)
  {
    !present && LastWrite(h, |h|, key) >= 0 ==> Lapsed(h, key) || Crowded(h, key)
  }

  ghost predicate AllAccounted<V(!new)>(h: seq<Event<V>>, present: set<string>)
  {
    forall key: string :: Accounted(h, key, key in present)
  }

  lemma AccountedAfter<V(!new)>(h: seq<Event<V>>, e: Event<V>, present: set<string>)
    requires AllAccounted(h, present)
    ensures AllAccounted(h + [e], if e.Put? then present + {e.key} else present)
  {
    var present' := if e.Put? then present + {e.key} else present;
    forall key: string ensures Accounted(h + [e], key, key in present') {
      assert Accounted(h, key, key in present);
      if key !in present' {
        StillAccounted(h, e, key);
      }
    }
  }

  lemma AccountedWithout<V(!new)>(h: seq<Event<V>>, present: set<string>, key: string)
    requires AllAccounted(h, present) && (Lapsed(h, key) || Crowded(h, key))
    ensures AllAccounted(h, present - {key})
  {
    forall k: string ensures Accounted(h, k, k in present - {key}) {
      assert Accounted(h, k, k in present);
    }
  }

  lemma StillLapsed<V>(h: seq<Event<V>>, e: Event<V>, key: string)
    requires Lapsed(h, key) && !(e.Put? && e.key == key)
    ensures Lapsed(h + [e], key)
  {
    LastWriteGrows(h, e, key);
    var w := LastWrite(h, |h|, key);
    var i :| w < i < |h| && h[i].Got? && h[i].key == key && h[w].until != 0.0 && h[i].at > h[w].until;
    assert (h + [e])[i] == h[i] && (h + [e])[w] == h[w];
  }

  lemma StillNewer<V>(h: seq<Event<V>>, e: Event<V>, key: string, others: seq<string>)
    requires Newer(h, key, others) && !(e.Put? && e.key == key)
    ensures Newer(h + [e], key, others)
  {
    LastWriteGrows(h, e, key);
    forall j | 0 <= j < |others| ensures LastWrite(h + [e], |h| + 1, others[j]) > LastWrite(h + [e], |h| + 1, key) {
      LastWriteGrows(h, e, others[j]);
    }
  }

  /** Once accounted for, a key stays so until it is written again. */
  lemma StillAccounted<V>(h: seq<Event<V>>, e: Event<V>, key: string)
    requires Accounted(h, key, false) && !(e.Put? && e.key == key)
    ensures Accounted(h + [e], key, false)
  {
    LastWriteGrows(h, e, key);
    if LastWrite(h, |h|, key) < 0 {
    } else if Lapsed(h, key) {
      StillLapsed(h, e, key);
    } else {
      var others :| |others| >= 1000 && Newer(h, key, others);
      StillNewer(h, e, key, others);
    }
  }

  // ---- what each change of the tables keeps ----

  function RemoveAt(s: seq<string>, p: nat): (r: seq<string>)
    requires p < |s|
    ensures |r| == |s| - 1 && forall i | 0 <= i < |r| :: r[i] == s[if i < p then i else i + 1]
  {
    s[..p] + s[p + 1..]
  }

  /** The order without `key`, if it was there at all. */
  function Without(order: seq<string>, key: string, n: nat): (r: seq<string>)
    requires n <= |order|
    ensures |r| <= |order|
  {
    if n == 0 then order
    else if order[n - 1] == key then RemoveAt(order, n - 1)
    else Without(order, key, n - 1)
  }

  /** An order of writing: each key last written before the next. */
  ghost predicate Ordered<V>(h: seq<Event<V>>, order: seq<string>)
  {
    forall p, q | 0 <= p < q < |order| :: LastWrite(h, |h|, order[p]) < LastWrite(h, |h|, order[q])
  }

  lemma {:induction false} WithoutFacts<V>(h: seq<Event<V>>, order: seq<string>, key: string, n: nat)
    requires n <= |order| && Ordered(h, order) && forall p | n <= p < |order| :: order[p] != key
    ensures Ordered(h, Without(order, key, n))
    ensures forall k :: k in Without(order, key, n) <==> k in order && k != key
  {
    if n > 0 {
      if order[n - 1] == key {
        RemoveAtElements(h, order, n - 1);
      } else {
        WithoutFacts(h, order, key, n - 1);
      }
    }
  }

  lemma RemoveAtElements<V>(h: seq<Event<V>>, order: seq<string>, p: nat)
    requires p < |order| && Ordered(h, order)
    ensures Ordered(h, RemoveAt(order, p))
    ensures forall k :: k in RemoveAt(order, p) <==> k in order && k != order[p]
  {
    var r := RemoveAt(order, p);
    forall k ensures k in r <==> k in order && k != order[p] {
      if k in order && k != order[p] {
        var i :| 0 <= i < |order| && order[i] == k;
        assert r[if i < p then i else i - 1] == k;
      }
    }
  }

  /** The tables hold the same keys, in order of their last write, each with what that write gave it. */
  ghost predicate Holds<V(!new)>(h: seq<Event<V>>, order: seq<string>, values: map<string, V>, expiry: map<string, real>)
  {
    && Ordered(h, order)
    && values.Keys == expiry.Keys
    && SameKeys(order, values)
    && (forall k | k in values :: Written(h, k, values[k], expiry[k]))
  }

  ghost predicate SameKeys<V>(order: seq<string>, values: map<string, V>)
  {
    forall k: string :: k in order <==> k in values
  }

  /** Events that do not write a key leave its last write alone. */
  lemma OrderKept<V>(h: seq<Event<V>>, e: Event<V>, order: seq<string>)
    requires Ordered(h, order) && (e.Put? ==> e.key !in order)
    ensures Ordered(h + [e], order)
  {
    forall p | 0 <= p < |order| ensures LastWrite(h + [e], |h| + 1, order[p]) == LastWrite(h, |h|, order[p]) {
      LastWriteGrows(h, e, order[p]);
    }
  }

  lemma WrittenKept<V>(h: seq<Event<V>>, e: Event<V>, key: string, payload: V, until: real)
    requires Written(h, key, payload, until) && !(e.Put? && e.key == key)
    ensures Written(h + [e], key, payload, until)
  {
    LastWriteGrows(h, e, key);
  }

  lemma AfterRead<V(!new)>(h: seq<Event<V>>, order: seq<string>, values: map<string, V>, expiry: map<string, real>, e: Event<V>)
    requires Holds(h, order, values, expiry) && e.Got?
    ensures Holds(h + [e], order, values, expiry)
  {
    OrderKept(h, e, order);
    OthersWritten(h, values, expiry, e);
  }

  /** Taking a key out of the tables. */
  lemma AfterRemoval<V(!new)>(h: seq<Event<V>>, order: seq<string>, values: map<string, V>, expiry: map<string, real>, key: string)
    requires Holds(h, order, values, expiry)
    ensures Holds(h, Without(order, key, |order|), values - {key}, expiry - {key})
  {
    WithoutFacts(h, order, key, |order|);
  }

  /** Writing a key moves it to the end of the order. */
  lemma OrderAfterWrite<V>(h: seq<Event<V>>, rest: seq<string>, e: Event<V>)
    requires Ordered(h, rest) && e.Put? && e.key !in rest
    ensures Ordered(h + [e], rest + [e.key])
  {
    OrderKept(h, e, rest);
    LastWriteGrows(h, e, e.key);
    forall p | 0 <= p < |rest| ensures LastWrite(h + [e], |h| + 1, rest[p]) < |h| {
      assert rest[p] in rest;
      LastWriteGrows(h, e, rest[p]);
    }
  }

  lemma KeysAfterWrite<V>(rest: seq<string>, order: seq<string>, values: map<string, V>, key: string, payload: V)
    requires SameKeys(order, values) && forall k :: k in rest <==> k in order && k != key
    ensures SameKeys(rest + [key], values[key := payload])
  {
  }

  lemma AfterWrite<V(!new)>(h: seq<Event<V>>, order: seq<string>, values: map<string, V>, expiry: map<string, real>, e: Event<V>)
    requires Holds(h, order, values, expiry) && e.Put?
    ensures Holds(h + [e], Without(order, e.key, |order|) + [e.key], values[e.key := e.payload], expiry[e.key := e.until])
  {
    MovedToEnd(h, order, values, e);
    LastWriteGrows(h, e, e.key);
    OthersWritten(h, values, expiry, e);
  }

  lemma MovedToEnd<V>(h: seq<Event<V>>, order: seq<string>, values: map<string, V>, e: Event<V>)
    requires Ordered(h, order) && SameKeys(order, values) && e.Put?
    ensures var order' := Without(order, e.key, |order|) + [e.key];
      Ordered(h + [e], order') && SameKeys(order', values[e.key := e.payload])
  {
    var rest := Without(order, e.key, |order|);
    WithoutFacts(h, order, e.key, |order|);
    OrderAfterWrite(h, rest, e);
    KeysAfterWrite(rest, order, values, e.key, e.payload);
  }

  lemma OthersWritten<V>(h: seq<Event<V>>, values: map<string, V>, expiry: map<string, real>, e: Event<V>)
    requires values.Keys == expiry.Keys && forall k | k in values :: Written(h, k, values[k], expiry[k])
    ensures forall k | k in values && !(e.Put? && e.key == k) :: Written(h + [e], k, values[k], expiry[k])
  {
    forall k | k in values && !(e.Put? && e.key == k) ensures Written(h + [e], k, values[k], expiry[k]) {
      WrittenKept(h, e, k, values[k], expiry[k]);
    }
  }

  lemma KeysAfterEviction<V>(order: seq<string>, rest: seq<string>, values: map<string, V>, oldest: string)
    requires SameKeys(order, values) && forall k :: k in rest <==> k in order && k != oldest
    ensures SameKeys(rest, values - {oldest})
  {
  }

  /** Evicting the oldest key of an overfull order: enough others were written after it. */
  lemma OldestIsCrowded<V>(h: seq<Event<V>>, order: seq<string>)
    requires Ordered(h, order) && |order| > MAX_SIZE
    ensures Crowded(h, order[0])
  {
    var others := RemoveAt(order, 0);
    forall i, j | 0 <= i < j < |others| ensures others[i] != others[j] {
      assert LastWrite(h, |h|, order[i + 1]) < LastWrite(h, |h|, order[j + 1]);
    }
    assert Newer(h, order[0], others);
  }

  lemma AfterEviction<V(!new)>(h: seq<Event<V>>, order: seq<string>, values: map<string, V>, expiry: map<string, real>)
    requires Holds(h, order, values, expiry) && |order| > MAX_SIZE
    ensures Holds(h, RemoveAt(order, 0), values - {order[0]}, expiry - {order[0]}) && Crowded(h, order[0])
    ensures order[|order| - 1] != order[0]
  {
    RemoveAtElements(h, order, 0);
    KeysAfterEviction(order, RemoveAt(order, 0), values, order[0]);
    OldestIsCrowded(h, order);
  }

  // ---- the cache ----

  class Cache<V(!new)> {
    var order: seq<string>
    var values: map<string, V>
    var expiry: map<string, real>
    ghost var history: seq<Event<V>>

    ghost predicate Valid()
      reads this
    {
      && Holds(history, order, values, expiry) && |order| <= MAX_SIZE
      && AllAccounted(history, values.Keys)
    }

    constructor ()
      ensures Valid() && history == []
    {
      order, values, expiry, history := [], map[], map[], [];
    }

    /**
      * A hit is the last write of the key, not expired. A miss means the key was never written,
      * has expired, now or at an earlier read, or was crowded out.
      */
    method Get(key: string, now: real) returns (r: Option<V>)
      requires Valid()
      modifies this
      ensures Valid() && history == old(history) + [Got(key, now)]
      ensures r.Some? ==> var w := LastWrite(old(history), |old(history)|, key);
        w >= 0 && r.value == old(history)[w].payload && (old(history)[w].until == 0.0 || now <= old(history)[w].until)
      ensures r.None? ==> var w := LastWrite(old(history), |old(history)|, key);
        w < 0 || (old(history)[w].until != 0.0 && now > old(history)[w].until) || Lapsed(old(history), key) || Crowded(old(history), key)
    {
      ghost var h, e := history, Got(key, now);
      AfterRead(h, order, values, expiry, e);
      assert Accounted(h, key, key in values.Keys);
      AccountedAfter(h, e, values.Keys);
      history := h + [e];
      if key in expiry && expiry[key] != 0.0 && now > expiry[key] {
        LastWriteGrows(h, e, key);
        assert Lapsed(history, key);
        Remove(key);
        return None;
      }
      r := if key in values then Some(values[key]) else None;
    }

    /** Take a lapsed key out of both tables. */
    method Remove(key: string)
      requires Valid() && Lapsed(history, key)
      modifies this
      ensures Valid() && history == old(history)
    {
      AfterRemoval(history, order, values, expiry, key);
      AccountedWithout(history, values.Keys, key);
      assert (values - {key}).Keys == values.Keys - {key};
      order := Without(order, key, |order|);
      values, expiry := values - {key}, expiry - {key};
    }

    method Set(key: string, payload: V, ttl: real, now: real)
      requires Valid()
      modifies this
      ensures Valid() && history == old(history) + [Put(key, payload, now + ttl)]
      ensures key in values
    {
      Write(Put(key, payload, now + ttl));
      if |order| > MAX_SIZE {
        EvictOldest();
      }
    }

    method Write(e: Event<V>)
      requires Valid() && e.Put?
      modifies this
      ensures Holds(history, order, values, expiry) && AllAccounted(history, values.Keys)
      ensures history == old(history) + [e]
      ensures 0 < |order| <= MAX_SIZE + 1 && order[|order| - 1] == e.key && e.key in values
    {
      AfterWrite(history, order, values, expiry, e);
      AccountedAfter(history, e, values.Keys);
      assert values[e.key := e.payload].Keys == values.Keys + {e.key};
      values, expiry := values[e.key := e.payload], expiry[e.key := e.until];
      order := Without(order, e.key, |order|) + [e.key];
      history := history + [e];
    }

    method EvictOldest()
      requires Holds(history, order, values, expiry) && |order| == MAX_SIZE + 1
      requires AllAccounted(history, values.Keys)
      modifies this
      ensures Valid() && history == old(history)
      ensures old(order[|order| - 1]) in values
    {
      var oldest := order[0];
      AfterEviction(history, order, values, expiry);
      AccountedWithout(history, values.Keys, oldest);
      LastKept(order, values);
      assert (values - {oldest}).Keys == values.Keys - {oldest};
      order, values, expiry := RemoveAt(order, 0), values - {oldest}, expiry - {oldest};
    }
  }

  lemma LastKept<V>(order: seq<string>, values: map<string, V>)
    requires SameKeys(order, values) && |order| > 0
    ensures order[|order| - 1] in values
  {
    assert order[|order| - 1] in order;
  }
}
