/** Putting streamed tool-call fragments back together. */
module ToolCalls {

  /** A fragment of the call with the given index; a missing part is the empty string. */
  datatype Fragment = Fragment(index: int, id: string, name: string, arguments: string)

  datatype Call = Call(id: string, name: string, arguments: string)

  /** One chunk of the stream; `finish` marks the finish reason `tool_calls`. */
  datatype Chunk = Chunk(fragments: seq<Fragment>, finish: bool)

  // ---- what a call is, given all fragments ----

  /** The fragments of one index among the first `n`, in arrival order. */
  function Mine(fs: seq<Fragment>, index: int, n: nat): seq<Fragment>
    requires n <= |fs|
  {
    if n == 0 then []
    else if fs[n - 1].index == index then Mine(fs, index, n - 1) + [fs[n - 1]]
    else Mine(fs, index, n - 1)
  }

  /** The names and the arguments of the fragments, each concatenated, and the last id that is not empty. */
  function Gather(mine: seq<Fragment>, n: nat): Call
    requires n <= |mine|
  {
    if n == 0 then Call("", "", "")
    else
      var c, f := Gather(mine, n - 1), mine[n - 1];
      Call(if f.id != "" then f.id else c.id, c.name + f.name, c.arguments + f.arguments)
  }

  function Entry(fs: seq<Fragment>, index: int): Call
  {
    var mine := Mine(fs, index, |fs|);
    Gather(mine, |mine|)
  }

  predicate Occurs(fs: seq<Fragment>, index: int)
  {
    exists k | 0 <= k < |fs| :: fs[k].index == index
  }

  predicate Ascending(s: seq<int>)
  {
    forall i, j | 0 <= i < j < |s| :: s[i] < s[j]
  }

  /** `calls` lists the entry of every index that occurs, in ascending order of index. */
  ghost predicate Assembles(fs: seq<Fragment>, calls: seq<Call>)
  {
    exists order: seq<int> :: Lists(fs, order, calls)
  }

  ghost predicate Lists(fs: seq<Fragment>, order: seq<int>, calls: seq<Call>)
  {
    && Ascending(order) && (forall i :: i in order <==> Occurs(fs, i))
    && |calls| == |order| && forall k | 0 <= k < |order| :: calls[k] == Entry(fs, order[k])
  }

  // ---- independence of the interleaving ----

  /** The two streams carry the same fragments of every index, in the same order within each index. */
  ghost predicate SamePerIndex(fs: seq<Fragment>, gs: seq<Fragment>)
  {
    forall i: int :: Mine(fs, i, |fs|) == Mine(gs, i, |gs|)
  }

  lemma {:induction false} MineOccurs(fs: seq<Fragment>, index: int, n: nat)
    requires n <= |fs|
    ensures Mine(fs, index, n) != [] <==> exists k | 0 <= k < n :: fs[k].index == index
  {
    if n > 0 {
      MineOccurs(fs, index, n - 1);
    }
  }

  lemma OccursIfMine(fs: seq<Fragment>, index: int)
    ensures Occurs(fs, index) <==> Mine(fs, index, |fs|) != []
  {
    MineOccurs(fs, index, |fs|);
  }

  /** An ascending sequence is determined by its elements. */
  lemma {:induction false} AscendingUnique(s: seq<int>, t: seq<int>)
    requires Ascending(s) && Ascending(t) && forall i :: i in s <==> i in t
    ensures s == t
  {
    if s == [] {
      assert forall k | 0 <= k < |t| :: t[k] in t;
    } else {
      assert s[0] in s;
      var a, b := s[|s| - 1], t[|t| - 1];
      assert a in s && b in t;
      var s', t' := s[..|s| - 1], t[..|t| - 1];
      forall i ensures i in s' <==> i in t' {
        assert i in s' <==> i in s && i != a;
        assert i in t' <==> i in t && i != b;
      }
      AscendingUnique(s', t');
      assert s == s' + [a] && t == t' + [b];
    }
  }

  /** However the fragments of different calls interleave, the same list comes out. */
  lemma InterleavingIndependent(fs: seq<Fragment>, gs: seq<Fragment>, cs: seq<Call>, ds: seq<Call>)
    requires SamePerIndex(fs, gs) && Assembles(fs, cs) && Assembles(gs, ds)
    ensures cs == ds
  {
    var a: seq<int> :| Lists(fs, a, cs);
    var b: seq<int> :| Lists(gs, b, ds);
    forall i ensures i in a <==> i in b {
      OccursIfMine(fs, i);
      OccursIfMine(gs, i);
    }
    AscendingUnique(a, b);
  }

  // ---- reassembly ----

  /** The calls under assembly, a dictionary with its keys in order of arrival. */
  datatype Pending = Pending(keys: seq<int>, calls: map<int, Call>)

  ghost predicate Gathered(fs: seq<Fragment>, p: Pending)
  {
    && (forall i: int :: i in p.keys <==> Occurs(fs, i))
    && (forall i: int :: i in p.calls <==> Occurs(fs, i))
    && forall i | i in p.calls :: p.calls[i] == Entry(fs, i)
  }

  lemma {:induction false} MinePrefix(fs: seq<Fragment>, f: Fragment, index: int, n: nat)
    requires n <= |fs|
    ensures Mine(fs + [f], index, n) == Mine(fs, index, n)
  {
    if n > 0 {
      MinePrefix(fs, f, index, n - 1);
    }
  }

  lemma {:induction false} GatherPrefix(mine: seq<Fragment>, f: Fragment, n: nat)
    requires n <= |mine|
    ensures Gather(mine + [f], n) == Gather(mine, n)
  {
    if n > 0 {
      GatherPrefix(mine, f, n - 1);
    }
  }

  /** One more fragment extends its own entry and no other. */
  lemma EntryGrows(fs: seq<Fragment>, f: Fragment, index: int)
    ensures Entry(fs + [f], index) ==
      if f.index != index then Entry(fs, index)
      else
        var c := Entry(fs, index);
        Call(if f.id != "" then f.id else c.id, c.name + f.name, c.arguments + f.arguments)
    ensures !Occurs(fs, index) ==> Entry(fs, index) == Call("", "", "")
  {
    MinePrefix(fs, f, index, |fs|);
    var mine := Mine(fs, index, |fs|);
    GatherPrefix(mine, f, |mine|);
    OccursIfMine(fs, index);
  }

  lemma OccursGrows(fs: seq<Fragment>, f: Fragment)
    ensures forall i :: Occurs(fs + [f], i) <==> Occurs(fs, i) || i == f.index
  {
    forall i ensures Occurs(fs + [f], i) <==> Occurs(fs, i) || i == f.index {
      OccursIfMine(fs, i);
      OccursIfMine(fs + [f], i);
      MinePrefix(fs, f, i, |fs|);
    }
  }

  method AddFragment(pending0: Pending, f: Fragment, ghost fs: seq<Fragment>) returns (pending: Pending)
    requires Gathered(fs, pending0)
    ensures Gathered(fs + [f], pending)
  {
    var i := f.index;
    var p := if i in pending0.calls then pending0.calls[i] else Call("", "", "");
    if f.id != "" {
      p := p.(id := f.id);
    }
    if f.name != "" {
      p := p.(name := p.name + f.name);
    }
    if f.arguments != "" {
      p := p.(arguments := p.arguments + f.arguments);
    }
    pending := Pending(if i in pending0.calls then pending0.keys else pending0.keys + [i], pending0.calls[i := p]);
    OccursGrows(fs, f);
    forall k | k in pending.calls ensures pending.calls[k] == Entry(fs + [f], k) {
      EntryGrows(fs, f, k);
    }
  }

  /** An ascending sequence with `x` added in its place. */
  function Insert(s: seq<int>, x: int, n: nat): (r: seq<int>)
    requires n <= |s| && Ascending(s) && (forall k | n <= k < |s| :: x < s[k])
    ensures Ascending(r) && forall i :: i in r <==> i in s || i == x
  {
    if n == 0 then [x] + s
    else if s[n - 1] == x then s
    else if s[n - 1] < x then s[..n] + [x] + s[n..]
    else Insert(s, x, n - 1)
  }

  /** The first `n` keys in ascending order. */
  function Sorted(keys: seq<int>, n: nat): (r: seq<int>)
    requires n <= |keys|
    ensures Ascending(r) && forall i :: i in r <==> i in keys[..n]
  {
    if n == 0 then []
    else
      var r := Sorted(keys, n - 1);
      assert keys[..n] == keys[..n - 1] + [keys[n - 1]];
      Insert(r, keys[n - 1], |r|)
  }

  /** The list sent at the finish chunk. */
  method EmitCalls(pending: Pending, ghost fs: seq<Fragment>) returns (calls: seq<Call>)
    requires Gathered(fs, pending)
    ensures Assembles(fs, calls)
  {
    var order := Sorted(pending.keys, |pending.keys|);
    assert pending.keys[..|pending.keys|] == pending.keys;
    calls := [];
    for k := 0 to |order|
      invariant |calls| == k
      invariant forall j | 0 <= j < k :: calls[j] == Entry(fs, order[j])
    {
      assert order[k] in order;
      calls := calls + [pending.calls[order[k]]];
    }
    assert Lists(fs, order, calls);
  }

  /** All fragments of the first `n` chunks. */
  function Fragments(chunks: seq<Chunk>, n: nat): seq<Fragment>
    requires n <= |chunks|
  {
    if n == 0 then [] else Fragments(chunks, n - 1) + chunks[n - 1].fragments
  }

  /** The chunks at which a list goes out: a finish with anything gathered by then. */
  function Emitting(chunks: seq<Chunk>, n: nat): seq<nat>
    requires n <= |chunks|
  {
    if n == 0 then []
    else if chunks[n - 1].finish && Fragments(chunks, n) != [] then Emitting(chunks, n - 1) + [n]
    else Emitting(chunks, n - 1)
  }

  method AddFragments(pending0: Pending, more: seq<Fragment>, ghost fs: seq<Fragment>) returns (pending: Pending)
    requires Gathered(fs, pending0)
    ensures Gathered(fs + more, pending)
  {
    pending := pending0;
    assert fs + more[..0] == fs;
    for i := 0 to |more|
      invariant Gathered(fs + more[..i], pending)
    {
      assert fs + more[..i + 1] == (fs + more[..i]) + [more[i]];
      pending := AddFragment(pending, more[i], fs + more[..i]);
    }
    assert more[..|more|] == more;
  }

  /** The lists sent during the first `n` chunks: each assembles everything received up to its chunk. */
  ghost predicate Sent(chunks: seq<Chunk>, n: nat, sent: seq<seq<Call>>)
    requires n <= |chunks|
  {
    var at := Emitting(chunks, n);
    |sent| == |at| && forall k | 0 <= k < |at| :: at[k] <= n && Assembles(Fragments(chunks, at[k]), sent[k])
  }

  lemma SentMore(chunks: seq<Chunk>, n: nat, sent: seq<seq<Call>>, calls: seq<Call>)
    requires n < |chunks| && Sent(chunks, n, sent)
    ensures !(chunks[n].finish && Fragments(chunks, n + 1) != []) ==> Sent(chunks, n + 1, sent)
    ensures chunks[n].finish && Fragments(chunks, n + 1) != [] && Assembles(Fragments(chunks, n + 1), calls) ==> Sent(chunks, n + 1, sent + [calls])
  {
  }

  /** Read a whole stream, sending a list at every finish chunk once anything has been gathered. */
  method Reassemble(chunks: seq<Chunk>) returns (sent: seq<seq<Call>>)
    ensures Sent(chunks, |chunks|, sent)
  {
    sent := [];
    var pending := Pending([], map[]);
    for n := 0 to |chunks|
      invariant Gathered(Fragments(chunks, n), pending)
      invariant Sent(chunks, n, sent)
    {
      pending := AddFragments(pending, chunks[n].fragments, Fragments(chunks, n));
      sent := SendAt(chunks, n, pending, sent);
    }
  }

  method SendAt(chunks: seq<Chunk>, n: nat, pending: Pending, sent0: seq<seq<Call>>) returns (sent: seq<seq<Call>>)
    requires n < |chunks| && Gathered(Fragments(chunks, n + 1), pending) && Sent(chunks, n, sent0)
    ensures Sent(chunks, n + 1, sent)
  {
    ghost var fs := Fragments(chunks, n + 1);
    sent := sent0;
    NoneGathered(fs, pending);
    if chunks[n].finish && pending.keys != [] {
      var calls := EmitCalls(pending, fs);
      SentMore(chunks, n, sent, calls);
      sent := sent + [calls];
    } else {
      SentMore(chunks, n, sent, []);
    }
  }

  lemma NoneGathered(fs: seq<Fragment>, p: Pending)
    requires Gathered(fs, p)
    ensures p.keys == [] <==> fs == []
  {
    forall k | 0 <= k < |p.keys| ensures Occurs(fs, p.keys[k]) {
      assert p.keys[k] in p.keys;
    }
    assert p.keys != [] ==> Occurs(fs, p.keys[0]);
    assert fs != [] ==> Occurs(fs, fs[0].index);
  }
}
