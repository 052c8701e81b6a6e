/** Merging duplicate entities of a user's graph: two passes that fold groups of entities into
    one survivor each, redirecting the typed edges. */
module GraphMerge {
  import opened Basics

  type Name = string

  /** An entity's type; `None` is a missing property. */
  type Kind = Option<string>

  const OTHER := "OTHER"

  datatype Edge = Edge(source: Name, relation: string, target: Name)

  // ---- quotients of an edge set ----

  function At(rep: map<Name, Name>, n: Name): Name
  {
    if n in rep then rep[n] else n
  }

  function Image(edges: set<Edge>, rep: map<Name, Name>): set<Edge>
  {
    set e | e in edges :: Edge(At(rep, e.source), e.relation, At(rep, e.target))
  }

  function Compose(first: map<Name, Name>, second: map<Name, Name>): map<Name, Name>
  {
    map n | n in first :: At(second, first[n])
  }

  lemma ImageOfImage(edges: set<Edge>, first: map<Name, Name>, second: map<Name, Name>)
    requires forall e | e in edges :: e.source in first && e.target in first
    ensures Image(Image(edges, first), second) == Image(edges, Compose(first, second))
  {
    var both := Compose(first, second);
    forall e | e in edges
      ensures Edge(At(both, e.source), e.relation, At(both, e.target)) in Image(Image(edges, first), second)
    {
      assert Edge(At(first, e.source), e.relation, At(first, e.target)) in Image(edges, first);
    }
    forall x | x in Image(Image(edges, first), second)
      ensures x in Image(edges, both)
    {
      var y :| y in Image(edges, first) && x == Edge(At(second, y.source), y.relation, At(second, y.target));
      var e :| e in edges && y == Edge(At(first, e.source), e.relation, At(first, e.target));
      assert x == Edge(At(both, e.source), e.relation, At(both, e.target));
    }
  }

  /** The edges after the three statements that fold `dup` into `keep`. */
  function Outgoing(edges: set<Edge>, dup: Name, keep: Name): set<Edge>
  {
    (set e | e in edges && e.source != dup) + (set e | e in edges && e.source == dup :: Edge(keep, e.relation, e.target))
  }

  function Incoming(edges: set<Edge>, dup: Name, keep: Name): set<Edge>
  {
    (set e | e in edges && e.target != dup) + (set e | e in edges && e.target == dup :: Edge(e.source, e.relation, keep))
  }

  function Detached(edges: set<Edge>, dup: Name): set<Edge>
  {
    set e | e in edges && e.source != dup && e.target != dup
  }

  /** Self-loops and edges between the two included, the three statements map every edge by
      sending `dup` to `keep`, and lose none. */
  lemma FoldIsImage(edges: set<Edge>, dup: Name, keep: Name)
    requires dup != keep
    ensures Detached(Incoming(Outgoing(edges, dup, keep), dup, keep), dup) == Image(edges, map[dup := keep])
  {
    var rep := map[dup := keep];
    var a := Outgoing(edges, dup, keep);
    var b := Incoming(a, dup, keep);
    forall e | e in edges ensures Edge(At(rep, e.source), e.relation, At(rep, e.target)) in Detached(b, dup) {
      var e1 := Edge(At(rep, e.source), e.relation, e.target);
      assert e1 in a;
      assert Edge(e1.source, e1.relation, At(rep, e1.target)) in b;
    }
    forall x | x in Detached(b, dup) ensures x in Image(edges, rep) {
      var e1 :| e1 in a && x == Edge(e1.source, e1.relation, At(rep, e1.target));
      var e :| e in edges && e1 == Edge(At(rep, e.source), e.relation, e.target);
      assert x == Edge(At(rep, e.source), e.relation, At(rep, e.target));
    }
  }

  // ---- groups and representatives ----

  /** The rows whose key is `k`, in order. */
  function Group(rows: seq<Name>, key: Name -> Option<string>, k: string): seq<Name>
  {
    if rows == [] then []
    else
      var init, last := Group(rows[..|rows| - 1], key, k), rows[|rows| - 1];
      if key(last) == Some(k) then init + [last] else init
  }

  lemma {:induction false} GroupMembers(rows: seq<Name>, key: Name -> Option<string>, k: string)
    ensures forall n :: n in Group(rows, key, k) <==> n in rows && key(n) == Some(k)
  {
    if rows != [] {
      var init, last := rows[..|rows| - 1], rows[|rows| - 1];
      GroupMembers(init, key, k);
      assert rows == init + [last];
    }
  }

  /** The longest name, the earliest of those that tie: the head of the list sorted by length. */
  function Longest(names: seq<Name>): (r: Name)
    requires names != []
    ensures r in names && forall n | n in names :: |n| <= |r|
  {
    if |names| == 1 then names[0]
    else
      var best, last := Longest(names[..|names| - 1]), names[|names| - 1];
      assert names == names[..|names| - 1] + [last];
      if |last| > |best| then last else best
  }

  /** How a pass chooses: which rows belong together, and which of them the survivor absorbs. */
  datatype Rule = Rule(key: Name -> Option<string>, absorbs: (Name, Name) -> bool)

  function Survivor(rows: seq<Name>, rule: Rule, n: Name): (r: Name)
    requires n in rows
    ensures r in rows && rule.key(r) == rule.key(n)
  {
    match rule.key(n)
    case None => n
    case Some(k) =>
      GroupMembers(rows, rule.key, k);
      var keep := Longest(Group(rows, rule.key, k));
      if keep != n && rule.absorbs(keep, n) then keep else n
  }

  function Representatives(rows: seq<Name>, rule: Rule): map<Name, Name>
  {
    map n | n in rows :: Survivor(rows, rule, n)
  }

  function Survivors(rows: seq<Name>, rule: Rule): set<Name>
  {
    set n | n in rows && Survivor(rows, rule, n) == n
  }

  /** A survivor survives: representatives are their own representatives. */
  lemma SurvivorStays(rows: seq<Name>, rule: Rule, n: Name)
    requires n in rows
    ensures Survivor(rows, rule, Survivor(rows, rule, n)) == Survivor(rows, rule, n)
  {
  }

  /** The type a merged entity gets: the last one in the group that is not OTHER. */
  function MergedKind(kinds: map<Name, Kind>, names: seq<Name>): Kind
    requires forall n | n in names :: n in kinds
  {
    if names == [] then Some(OTHER)
    else
      var last := names[|names| - 1];
      if kinds[last] != Some(OTHER) then kinds[last] else MergedKind(kinds, names[..|names| - 1])
  }

  ghost predicate IsListing(rows: seq<Name>, names: set<Name>)
  {
    && (forall n :: n in rows <==> n in names)
    && (forall i, j | 0 <= i < j < |rows| :: rows[i] != rows[j])
  }

  // ---- the two rules ----

  predicate Contains(whole: string, part: string)
  {
    exists i | 0 <= i <= |whole| :: part <= whole[i..]
  }

  /** First pass: same normal form. */
  function SameForm(norm: Name -> string): Rule
  {
    Rule((n: Name) => Some(norm(n)), (keep: Name, n: Name) => true)
  }

  function TypeKey(kinds: map<Name, Kind>, n: Name): Option<string>
  {
    if n !in kinds || kinds[n] == None || kinds[n] == Some("") || kinds[n] == Some(OTHER) then None else kinds[n]
  }

  predicate Similar(norm: Name -> string, tokens: string -> set<string>, keep: Name, n: Name)
  {
    || Contains(norm(keep), norm(n)) || Contains(norm(n), norm(keep))
    || tokens(norm(n)) <= tokens(norm(keep)) || tokens(norm(keep)) <= tokens(norm(n))
  }

  /** Second pass: same type, and a normal form contained in the survivor's or containing it. */
  function SameType(kinds: map<Name, Kind>, norm: Name -> string, tokens: string -> set<string>): Rule
  {
    Rule((n: Name) => TypeKey(kinds, n), (keep: Name, n: Name) => Similar(norm, tokens, keep, n))
  }

  // ---- what the passes decide, from the listings alone ----

  /** Row `i` has the longest name of those that `same` admits, and is the first listed of those that tie. */
  ghost predicate Leads(rows: seq<Name>, same: Name -> bool, i: nat)
  {
    && i < |rows| && same(rows[i])
    && forall j | 0 <= j < |rows| && same(rows[j]) :: Behind(rows, i, j)
  }

  predicate Behind(rows: seq<Name>, i: nat, j: nat)
    requires i < |rows| && j < |rows|
  {
    |rows[j]| < |rows[i]| || (|rows[j]| == |rows[i]| && i <= j)
  }

  ghost predicate LeadsTo(rows: seq<Name>, key: Name -> Option<string>, k: string, n: nat, i: nat)
    requires n <= |rows|
  {
    && i < n && key(rows[i]) == Some(k)
    && forall j | 0 <= j < n && key(rows[j]) == Some(k) :: Behind(rows, i, j)
  }

  lemma LeadsNext(rows: seq<Name>, key: Name -> Option<string>, k: string, n: nat, i: nat)
    requires 0 < n <= |rows| && LeadsTo(rows, key, k, n - 1, i)
    ensures LeadsTo(rows, key, k, n, if key(rows[n - 1]) == Some(k) && |rows[n - 1]| > |rows[i]| then n - 1 else i)
  {
  }

  /** The longest of the group among the first `n` rows is row `i`. */
  ghost predicate LeaderAt(rows: seq<Name>, key: Name -> Option<string>, k: string, n: nat, i: nat)
    requires n <= |rows|
  {
    LeadsTo(rows, key, k, n, i) && Group(rows[..n], key, k) != [] && Longest(Group(rows[..n], key, k)) == rows[i]
  }

  lemma LeaderFirst(rows: seq<Name>, key: Name -> Option<string>, k: string, n: nat)
    requires 0 < n <= |rows| && Group(rows[..n - 1], key, k) == [] && key(rows[n - 1]) == Some(k)
    ensures LeaderAt(rows, key, k, n, n - 1)
  {
    GroupNext(rows, key, k, n);
    NoneBefore(rows, key, k, n - 1);
  }

  lemma LeaderNext(rows: seq<Name>, key: Name -> Option<string>, k: string, n: nat, i: nat) returns (i': nat)
    requires 0 < n <= |rows| && LeaderAt(rows, key, k, n - 1, i)
    ensures LeaderAt(rows, key, k, n, i')
  {
    GroupNext(rows, key, k, n);
    LeadsNext(rows, key, k, n, i);
    i' := if key(rows[n - 1]) == Some(k) && |rows[n - 1]| > |rows[i]| then n - 1 else i;
  }

  lemma {:induction false} LeaderTo(rows: seq<Name>, key: Name -> Option<string>, k: string, n: nat) returns (i: nat)
    requires n <= |rows| && Group(rows[..n], key, k) != []
    ensures LeaderAt(rows, key, k, n, i)
  {
    if Group(rows[..n - 1], key, k) == [] {
      GroupNext(rows, key, k, n);
      LeaderFirst(rows, key, k, n);
      i := n - 1;
    } else {
      i := LeaderTo(rows, key, k, n - 1);
      i := LeaderNext(rows, key, k, n, i);
    }
  }

  lemma GroupNext(rows: seq<Name>, key: Name -> Option<string>, k: string, n: nat)
    requires 0 < n <= |rows|
    ensures var g, last := Group(rows[..n - 1], key, k), rows[n - 1];
      && Group(rows[..n], key, k) == (if key(last) == Some(k) then g + [last] else g)
      && Longest(g + [last]) == (if g == [] || |last| > |Longest(g)| then last else Longest(g))
  {
    assert rows[..n] == rows[..n - 1] + [rows[n - 1]];
    GroupGrows(rows[..n - 1], rows[n - 1], key, k);
    LongestAppended(Group(rows[..n - 1], key, k), rows[n - 1]);
  }

  lemma NoneBefore(rows: seq<Name>, key: Name -> Option<string>, k: string, n: nat)
    requires n <= |rows| && Group(rows[..n], key, k) == []
    ensures forall j | 0 <= j < n :: key(rows[j]) != Some(k)
  {
    GroupMembers(rows[..n], key, k);
    forall j | 0 <= j < n ensures key(rows[j]) != Some(k) {
      assert rows[..n][j] in rows[..n];
    }
  }

  /** `Longest` of a group is its leader, and there is only one. */
  lemma LeaderIs(rows: seq<Name>, key: Name -> Option<string>, k: string, same: Name -> bool, n: Name) returns (i: nat)
    requires n in rows && key(n) == Some(k)
    requires forall m | m in rows :: same(m) <==> key(m) == Some(k)
    ensures Group(rows, key, k) != [] && Leads(rows, same, i) && Longest(Group(rows, key, k)) == rows[i]
    ensures forall j: nat | Leads(rows, same, j) :: j == i
  {
    GroupMembers(rows, key, k);
    assert n in Group(rows, key, k);
    assert rows[..|rows|] == rows;
    i := LeaderTo(rows, key, k, |rows|);
    assert LeadsTo(rows, key, k, |rows|, i) && rows[i] in rows;
    forall j | 0 <= j < |rows| && same(rows[j]) ensures Behind(rows, i, j) {
      assert rows[j] in rows;
    }
    assert Leads(rows, same, i);
    forall j: nat | Leads(rows, same, j) ensures j == i {
      assert Behind(rows, i, j) && Behind(rows, j, i);
    }
  }

  /** The leader absorbs `n`. */
  ghost predicate AbsorbedAt(rows: seq<Name>, same: Name -> bool, absorbs: (Name, Name) -> bool, n: Name, i: nat)
  {
    Leads(rows, same, i) && rows[i] != n && absorbs(rows[i], n)
  }

  /** A name is folded away exactly by the leader of its group, if that is another one and absorbs it. */
  lemma FoldedExactly(rows: seq<Name>, rule: Rule, k: string, same: Name -> bool, n: Name)
    requires n in rows && rule.key(n) == Some(k)
    requires forall m | m in rows :: same(m) <==> rule.key(m) == Some(k)
    ensures Survivor(rows, rule, n) != n <==> exists i | 0 <= i < |rows| :: AbsorbedAt(rows, same, rule.absorbs, n, i)
    ensures forall i: nat | AbsorbedAt(rows, same, rule.absorbs, n, i) :: Survivor(rows, rule, n) == rows[i]
  {
    var i := LeaderIs(rows, rule.key, k, same, n);
    var keep := rows[i];
    assert Survivor(rows, rule, n) == if keep != n && rule.absorbs(keep, n) then keep else n;
    if keep != n && rule.absorbs(keep, n) {
      assert AbsorbedAt(rows, same, rule.absorbs, n, i);
    }
  }

  /** First pass: a longer name of the same normal form is listed, or an equally long one before it. */
  ghost predicate GoesByForm(rows: seq<Name>, norm: Name -> string, n: Name)
  {
    exists i | 0 <= i < |rows| :: rows[i] != n && Leads(rows, (m: Name) => norm(m) == norm(n), i)
  }

  lemma FirstPassExactly(rows: seq<Name>, norm: Name -> string, n: Name)
    requires n in rows
    ensures Survivor(rows, SameForm(norm), n) != n <==> GoesByForm(rows, norm, n)
  {
    var rule, same := SameForm(norm), (m: Name) => norm(m) == norm(n);
    FoldedExactly(rows, rule, norm(n), same, n);
    if i :| 0 <= i < |rows| && rows[i] != n && Leads(rows, same, i) {
      assert AbsorbedAt(rows, same, rule.absorbs, n, i);
    }
  }

  /** `part` stands somewhere in `whole`. */
  ghost predicate Within(whole: string, part: string)
  {
    exists i, j | 0 <= i <= j <= |whole| :: whole[i..j] == part
  }

  lemma ContainsMeans(whole: string, part: string)
    ensures Contains(whole, part) <==> Within(whole, part)
  {
    if Contains(whole, part) {
      var i :| 0 <= i <= |whole| && part <= whole[i..];
      assert whole[i..i + |part|] == part;
    }
    if Within(whole, part) {
      var i, j :| 0 <= i <= j <= |whole| && whole[i..j] == part;
      assert part <= whole[i..];
    }
  }

  /** Second pass: `n` has a type other than OTHER, and the leader of that type is another entity whose normal form
      contains that of `n` or is contained in it, or whose tokens include those of `n` or are among them. */
  ghost predicate GoesByType(rows: seq<Name>, kinds: map<Name, Kind>, norm: Name -> string, tokens: string -> set<string>, n: Name)
  {
    && n in kinds && kinds[n] != None && kinds[n] != Some("") && kinds[n] != Some("OTHER")
    && exists i | 0 <= i < |rows| :: AbsorbedByType(rows, kinds, norm, tokens, n, i)
  }

  ghost predicate AbsorbedByType(rows: seq<Name>, kinds: map<Name, Kind>, norm: Name -> string, tokens: string -> set<string>, n: Name, i: nat)
    requires n in kinds
  {
    && Leads(rows, (m: Name) => m in kinds && kinds[m] == kinds[n], i) && rows[i] != n
    && (|| Within(norm(rows[i]), norm(n)) || Within(norm(n), norm(rows[i]))
        || tokens(norm(n)) <= tokens(norm(rows[i])) || tokens(norm(rows[i])) <= tokens(norm(n)))
  }

  lemma AbsorbsByType(rows: seq<Name>, kinds: map<Name, Kind>, norm: Name -> string, tokens: string -> set<string>, n: Name, i: nat)
    requires n in kinds
    ensures AbsorbedByType(rows, kinds, norm, tokens, n, i) <==>
      AbsorbedAt(rows, (m: Name) => m in kinds && kinds[m] == kinds[n], SameType(kinds, norm, tokens).absorbs, n, i)
  {
    if i < |rows| {
      ContainsMeans(norm(rows[i]), norm(n));
      ContainsMeans(norm(n), norm(rows[i]));
    }
  }

  lemma SecondPassExactly(rows: seq<Name>, kinds: map<Name, Kind>, norm: Name -> string, tokens: string -> set<string>, n: Name)
    requires n in rows && n in kinds
    ensures Survivor(rows, SameType(kinds, norm, tokens), n) != n <==> GoesByType(rows, kinds, norm, tokens, n)
  {
    if kinds[n] != None && kinds[n] != Some("") && kinds[n] != Some("OTHER") {
      var rule, same := SameType(kinds, norm, tokens), (m: Name) => m in kinds && kinds[m] == kinds[n];
      FoldedExactly(rows, rule, kinds[n].value, same, n);
      forall i | 0 <= i < |rows|
        ensures AbsorbedByType(rows, kinds, norm, tokens, n, i) <==> AbsorbedAt(rows, same, rule.absorbs, n, i)
      {
        AbsorbsByType(rows, kinds, norm, tokens, n, i);
      }
    }
  }

  /** Of the rows below `n` that `same` admits, the last whose type is not OTHER has type `kind`; OTHER if there is none. */
  ghost predicate LastKind(kinds: map<Name, Kind>, rows: seq<Name>, n: nat, same: Name -> bool, kind: Kind)
    requires n <= |rows| && forall m | m in rows :: m in kinds
  {
    || (exists i | 0 <= i < n :: same(rows[i]) && kinds[rows[i]] == kind && OthersAfter(kinds, rows, n, same, i + 1)
                                 && kind != Some("OTHER"))
    || (kind == Some("OTHER") && OthersAfter(kinds, rows, n, same, 0))
  }

  ghost predicate OthersAfter(kinds: map<Name, Kind>, rows: seq<Name>, n: nat, same: Name -> bool, i: nat)
    requires n <= |rows| && forall m | m in rows :: m in kinds
  {
    forall j | i <= j < n && same(rows[j]) :: kinds[rows[j]] == Some("OTHER")
  }

  lemma {:induction false} MergedKindIs(kinds: map<Name, Kind>, rows: seq<Name>, key: Name -> Option<string>, k: string, same: Name -> bool, n: nat)
    requires n <= |rows| && forall m | m in rows :: m in kinds
    requires forall m | m in rows :: same(m) <==> key(m) == Some(k)
    ensures (forall m | m in Group(rows[..n], key, k) :: m in kinds)
      && LastKind(kinds, rows, n, same, MergedKind(kinds, Group(rows[..n], key, k)))
  {
    GroupMembers(rows[..n], key, k);
    if n > 0 {
      MergedKindIs(kinds, rows, key, k, same, n - 1);
      KindNext(kinds, rows, key, k, n);
      assert rows[n - 1] in rows;
      LastKindNext(kinds, rows, n, same, MergedKind(kinds, Group(rows[..n - 1], key, k)), MergedKind(kinds, Group(rows[..n], key, k)));
    }
  }

  lemma KindNext(kinds: map<Name, Kind>, rows: seq<Name>, key: Name -> Option<string>, k: string, n: nat)
    requires 0 < n <= |rows| && forall m | m in Group(rows[..n], key, k) :: m in kinds
    requires forall m | m in Group(rows[..n - 1], key, k) :: m in kinds
    ensures rows[n - 1] in kinds && key(rows[n - 1]) == Some(k) && kinds[rows[n - 1]] != Some("OTHER") ==>
      MergedKind(kinds, Group(rows[..n], key, k)) == kinds[rows[n - 1]]
    ensures !(rows[n - 1] in kinds && key(rows[n - 1]) == Some(k) && kinds[rows[n - 1]] != Some("OTHER")) ==>
      MergedKind(kinds, Group(rows[..n], key, k)) == MergedKind(kinds, Group(rows[..n - 1], key, k))
  {
    GroupNext(rows, key, k, n);
    var g, last := Group(rows[..n - 1], key, k), rows[n - 1];
    assert (g + [last])[..|g|] == g;
  }

  lemma LastKindNext(kinds: map<Name, Kind>, rows: seq<Name>, n: nat, same: Name -> bool, before: Kind, kind: Kind)
    requires 0 < n <= |rows| && (forall m | m in rows :: m in kinds) && LastKind(kinds, rows, n - 1, same, before)
    requires kind == if same(rows[n - 1]) && kinds[rows[n - 1]] != Some("OTHER") then kinds[rows[n - 1]] else before
    ensures LastKind(kinds, rows, n, same, kind)
  {
    if same(rows[n - 1]) && kinds[rows[n - 1]] != Some("OTHER") {
      assert OthersAfter(kinds, rows, n, same, n);
    } else if i :| 0 <= i < n - 1 && same(rows[i]) && kinds[rows[i]] == before && OthersAfter(kinds, rows, n - 1, same, i + 1)
                   && before != Some("OTHER") {
      assert OthersAfter(kinds, rows, n, same, i + 1);
    }
  }

  /** The type an entity has after the first pass: its own, unless another of its normal form is listed; then the
      last listed type of them that is not OTHER. */
  ghost predicate TypedByForm(kinds: map<Name, Kind>, rows: seq<Name>, norm: Name -> string, n: Name, kind: Kind)
    requires n in kinds && forall m | m in rows :: m in kinds
  {
    if exists m | m in rows :: m != n && norm(m) == norm(n)
    then LastKind(kinds, rows, |rows|, (m: Name) => norm(m) == norm(n), kind)
    else kind == kinds[n]
  }

  lemma TwoInGroup(rows: seq<Name>, key: Name -> Option<string>, k: string, n: Name)
    requires NoRepeats(rows) && n in rows && key(n) == Some(k)
    ensures |Group(rows, key, k)| >= 2 <==> exists m | m in rows :: m != n && key(m) == Some(k)
  {
    var g := Group(rows, key, k);
    GroupMembers(rows, key, k);
    GroupDistinct(rows, key, k);
    assert n in g;
    assert NoRepeats(g);
    if |g| >= 2 {
      assert g[0] in g && g[1] in g && g[0] != g[1];
      var m := if g[0] != n then g[0] else g[1];
      assert m in rows && m != n && key(m) == Some(k);
    }
    if m :| m in rows && m != n && key(m) == Some(k) {
      assert m in g;
    }
  }

  lemma TypedExactly(kinds: map<Name, Kind>, rows: seq<Name>, norm: Name -> string, n: Name)
    requires NoRepeats(rows) && n in rows && forall m | m in rows :: m in kinds
    ensures TypedByForm(kinds, rows, norm, n, KindAfter(kinds, rows, SameForm(norm), true, n))
  {
    var key, same := SameForm(norm).key, (m: Name) => norm(m) == norm(n);
    TwoInGroup(rows, key, norm(n), n);
    assert (exists m | m in rows :: m != n && norm(m) == norm(n)) <==> exists m | m in rows :: m != n && key(m) == Some(norm(n));
    if exists m | m in rows :: m != n && norm(m) == norm(n) {
      MergedKindIs(kinds, rows, key, norm(n), same, |rows|);
      assert rows[..|rows|] == rows;
    }
  }

  ghost predicate DistinctForms(names: set<Name>, norm: Name -> string)
  {
    forall a, b | a in names && b in names && norm(a) == norm(b) :: a == b
  }

  /** What the first pass leaves has pairwise distinct normal forms. */
  lemma FirstPassDistinct(rows: seq<Name>, norm: Name -> string, a: Name, b: Name)
    requires a in rows && b in rows && norm(a) == norm(b)
    ensures Survivor(rows, SameForm(norm), a) == Survivor(rows, SameForm(norm), b)
    ensures norm(Survivor(rows, SameForm(norm), a)) == norm(a)
    ensures |Survivor(rows, SameForm(norm), a)| >= |b|
  {
    GroupMembers(rows, SameForm(norm).key, norm(a));
  }

  /** On pairwise distinct normal forms the first pass merges nothing. */
  lemma FirstPassIdle(rows: seq<Name>, names: set<Name>, norm: Name -> string, n: Name)
    requires IsListing(rows, names) && DistinctForms(names, norm) && n in names
    ensures Survivor(rows, SameForm(norm), n) == n
    ensures Group(rows, SameForm(norm).key, norm(n)) == [n]
  {
    GroupSolo(rows, SameForm(norm).key, norm(n), n);
  }

  lemma {:induction false} GroupSolo(rows: seq<Name>, key: Name -> Option<string>, k: string, n: Name)
    requires forall i, j | 0 <= i < j < |rows| :: rows[i] != rows[j]
    requires forall m | m in rows && key(m) == Some(k) :: m == n
    ensures Group(rows, key, k) == if n in rows && key(n) == Some(k) then [n] else []
  {
    if rows != [] {
      var init, last := rows[..|rows| - 1], rows[|rows| - 1];
      assert rows == init + [last] && last !in init;
      GroupSolo(init, key, k, n);
    }
  }

  lemma {:induction false} GroupDistinct(rows: seq<Name>, key: Name -> Option<string>, k: string)
    requires forall i, j | 0 <= i < j < |rows| :: rows[i] != rows[j]
    ensures NoRepeats(Group(rows, key, k))
  {
    if rows != [] {
      var init, last := rows[..|rows| - 1], rows[|rows| - 1];
      GroupDistinct(init, key, k);
      GroupMembers(init, key, k);
      assert forall i | 0 <= i < |init| :: init[i] == rows[i];
      assert last !in Group(init, key, k);
      var g := Group(init, key, k);
      assert forall i | 0 <= i < |g| :: g[i] in g;
    }
  }

  // ---- the store ----

  /** The merge of one pass done on the absorbed names only. */
  function Partial(rows: seq<Name>, rule: Rule, absorbed: set<Name>): map<Name, Name>
  {
    map n | n in rows :: if n in absorbed then Survivor(rows, rule, n) else n
  }

  lemma PartialGrows(edges: set<Edge>, rows: seq<Name>, rule: Rule, absorbed: set<Name>, dup: Name)
    requires forall e | e in edges :: e.source in rows && e.target in rows
    requires dup in rows && dup !in absorbed && Survivor(rows, rule, dup) != dup
    requires forall n | n in absorbed :: n in rows && Survivor(rows, rule, n) != n
    ensures Image(Image(edges, Partial(rows, rule, absorbed)), map[dup := Survivor(rows, rule, dup)])
         == Image(edges, Partial(rows, rule, absorbed + {dup}))
  {
    ImageOfImage(edges, Partial(rows, rule, absorbed), map[dup := Survivor(rows, rule, dup)]);
    PartialComposes(rows, rule, absorbed, dup);
  }

  lemma PartialComposes(rows: seq<Name>, rule: Rule, absorbed: set<Name>, dup: Name)
    requires dup in rows && dup !in absorbed && Survivor(rows, rule, dup) != dup
    ensures Compose(Partial(rows, rule, absorbed), map[dup := Survivor(rows, rule, dup)]) == Partial(rows, rule, absorbed + {dup})
  {
    var first, second := Partial(rows, rule, absorbed), map[dup := Survivor(rows, rule, dup)];
    forall n | n in rows ensures Compose(first, second)[n] == Partial(rows, rule, absorbed + {dup})[n] {
      SurvivorStays(rows, rule, n);
    }
  }

  function Names(s: seq<Name>): set<Name>
  {
    set n | n in s
  }

  /** The groups of `rows`, keyed in order of first appearance. */
  ghost predicate Grouped(rows: seq<Name>, key: Name -> Option<string>, order: seq<string>, groups: map<string, seq<Name>>)
  {
    && (forall k :: k in order <==> k in groups)
    && (forall k | k in groups :: groups[k] != [])
    && (forall k: string :: GroupIs(rows, key, k, if k in groups then groups[k] else []))
    && (forall i, j | 0 <= i < j < |order| :: order[i] != order[j])
  }

  ghost predicate GroupIs(rows: seq<Name>, key: Name -> Option<string>, k: string, group: seq<Name>)
  {
    Group(rows, key, k) == group
  }

  lemma GroupGrows(rows: seq<Name>, row: Name, key: Name -> Option<string>, k: string)
    ensures Group(rows + [row], key, k) == if key(row) == Some(k) then Group(rows, key, k) + [row] else Group(rows, key, k)
  {
    assert (rows + [row])[..|rows|] == rows;
  }

  method GroupRow(row: Name, key: Name -> Option<string>, order0: seq<string>, groups0: map<string, seq<Name>>, ghost rows: seq<Name>)
    returns (order: seq<string>, groups: map<string, seq<Name>>)
    requires Grouped(rows, key, order0, groups0)
    ensures Grouped(rows + [row], key, order, groups)
  {
    order, groups := order0, groups0;
    if key(row).Some? {
      var k := key(row).value;
      if k in groups {
        groups := groups[k := groups[k] + [row]];
      } else {
        order, groups := order + [k], groups[k := [row]];
      }
    }
    forall k: string ensures GroupIs(rows + [row], key, k, if k in groups then groups[k] else []) {
      assert GroupIs(rows, key, k, if k in groups0 then groups0[k] else []);
      GroupGrows(rows, row, key, k);
    }
  }

  /** Collect the rows into groups by key. */
  method GroupRows(rows: seq<Name>, key: Name -> Option<string>) returns (order: seq<string>, groups: map<string, seq<Name>>)
    ensures forall k :: k in order <==> k in groups
    ensures forall k :: k in groups <==> exists n | n in rows :: key(n) == Some(k)
    ensures forall k | k in groups :: groups[k] == Group(rows, key, k)
    ensures forall i, j | 0 <= i < j < |order| :: order[i] != order[j]
  {
    order, groups := [], map[];
    for i := 0 to |rows|
      invariant Grouped(rows[..i], key, order, groups)
    {
      order, groups := GroupRow(rows[i], key, order, groups, rows[..i]);
      assert rows[..i + 1] == rows[..i] + [rows[i]];
    }
    assert rows[..|rows|] == rows;
    GroupedMeans(rows, key, order, groups);
  }

  lemma GroupedMeans(rows: seq<Name>, key: Name -> Option<string>, order: seq<string>, groups: map<string, seq<Name>>)
    requires Grouped(rows, key, order, groups)
    ensures forall k :: k in groups <==> exists n | n in rows :: key(n) == Some(k)
    ensures forall k | k in groups :: groups[k] == Group(rows, key, k)
  {
    forall k: string ensures k in groups <==> exists n | n in rows :: key(n) == Some(k) {
      assert GroupIs(rows, key, k, if k in groups then groups[k] else []);
      GroupMembers(rows, key, k);
      if k in groups {
        assert groups[k][0] in groups[k];
      }
    }
    forall k | k in groups ensures groups[k] == Group(rows, key, k) {
      assert GroupIs(rows, key, k, if k in groups then groups[k] else []);
    }
  }

  /** The members of a group its survivor absorbs. */
  function Absorbed(rule: Rule, names: seq<Name>, keep: Name): seq<Name>
  {
    if names == [] then []
    else
      var init, last := Absorbed(rule, names[..|names| - 1], keep), names[|names| - 1];
      if last != keep && rule.absorbs(keep, last) then init + [last] else init
  }

  lemma {:induction false} AbsorbedMembers(rule: Rule, names: seq<Name>, keep: Name)
    requires forall i, j | 0 <= i < j < |names| :: names[i] != names[j]
    ensures var a := Absorbed(rule, names, keep);
      && (forall n :: n in a <==> n in names && n != keep && rule.absorbs(keep, n))
      && (forall i, j | 0 <= i < j < |a| :: a[i] != a[j])
  {
    if names != [] {
      var init, last := names[..|names| - 1], names[|names| - 1];
      AbsorbedMembers(rule, init, keep);
      assert names == init + [last] && last !in init;
      var a := Absorbed(rule, init, keep);
      assert forall i | 0 <= i < |a| :: a[i] in a;
    }
  }

  /** The members of group `k` that a pass folds away. */
  ghost function Folding(rows: seq<Name>, rule: Rule, k: string): set<Name>
  {
    set n | n in rows && rule.key(n) == Some(k) && Survivor(rows, rule, n) != n
  }

  lemma FoldingListed(rows: seq<Name>, rule: Rule, k: string)
    requires forall i, j | 0 <= i < j < |rows| :: rows[i] != rows[j]
    requires Group(rows, rule.key, k) != []
    ensures var g := Group(rows, rule.key, k); var dups := Absorbed(rule, g, Longest(g));
      && Names(dups) == Folding(rows, rule, k)
      && (forall n | n in dups :: n in rows && Survivor(rows, rule, n) == Longest(g))
      && (forall i, j | 0 <= i < j < |dups| :: dups[i] != dups[j])
      && (|g| == 1 ==> dups == [])
  {
    var g := Group(rows, rule.key, k);
    GroupMembers(rows, rule.key, k);
    GroupDistinct(rows, rule.key, k);
    AbsorbedMembers(rule, g, Longest(g));
  }

  function KindAfter(kinds0: map<Name, Kind>, rows: seq<Name>, rule: Rule, retype: bool, n: Name): Kind
    requires n in rows && forall m | m in rows :: m in kinds0
  {
    if retype && rule.key(n).Some? && |Group(rows, rule.key, rule.key(n).value)| >= 2 then
      GroupMembers(rows, rule.key, rule.key(n).value);
      MergedKind(kinds0, Group(rows, rule.key, rule.key(n).value))
    else kinds0[n]
  }

  /** When the survivor absorbs everybody, it alone of its group is left. */
  lemma OnlySurvivorLeft(rows: seq<Name>, rule: Rule, retype: bool, k: string)
    requires retype ==> forall a, b :: rule.absorbs(a, b)
    requires Group(rows, rule.key, k) != [] && forall i, j | 0 <= i < j < |rows| :: rows[i] != rows[j]
    ensures retype ==> forall n | n in rows && rule.key(n) == Some(k) && n !in Folding(rows, rule, k) :: n == Longest(Group(rows, rule.key, k))
    ensures retype && Folding(rows, rule, k) == {} ==> |Group(rows, rule.key, k)| == 1
  {
    var g := Group(rows, rule.key, k);
    GroupMembers(rows, rule.key, k);
    if retype && Folding(rows, rule, k) == {} {
      var keep := Longest(g);
      forall m | m in rows && rule.key(m) == Some(k) ensures m == keep {
        assert m !in Folding(rows, rule, k);
      }
      GroupSolo(rows, rule.key, k, keep);
    }
  }

  /** The normal forms of what a whole run leaves are pairwise distinct. */
  lemma SurvivorsDistinct(rows1: seq<Name>, rows2: seq<Name>, norm: Name -> string, rule: Rule)
    requires IsListing(rows2, Survivors(rows1, SameForm(norm)))
    ensures DistinctForms(Survivors(rows2, rule), norm)
  {
    var left := Survivors(rows2, rule);
    forall a, b | a in left && b in left && norm(a) == norm(b) ensures a == b {
      FirstPassDistinct(rows1, norm, a, b);
    }
  }

  function Keys(order: seq<string>): set<string>
  {
    set k | k in order
  }

  ghost predicate InGroups(rule: Rule, keys: set<string>, n: Name)
  {
    rule.key(n).Some? && rule.key(n).value in keys
  }

  ghost function FoldedBy(rows: seq<Name>, rule: Rule, keys: set<string>): set<Name>
  {
    set n | n in rows && InGroups(rule, keys, n) && Survivor(rows, rule, n) != n
  }

  /** The representative of an entity over a whole run: the second pass's of the first pass's. */
  function Overall(rows1: seq<Name>, rows2: seq<Name>, rule1: Rule, rule2: Rule): map<Name, Name>
  {
    Compose(Representatives(rows1, rule1), Representatives(rows2, rule2))
  }

  /** The final entities are exactly the representatives, each its own. */
  lemma OverallIsQuotient(rows1: seq<Name>, rows2: seq<Name>, rule1: Rule, rule2: Rule)
    requires IsListing(rows2, Survivors(rows1, rule1))
    ensures var rep := Overall(rows1, rows2, rule1, rule2);
      && rep.Keys == Names(rows1)
      && rep.Values == Survivors(rows2, rule2)
      && forall n | n in Survivors(rows2, rule2) :: n in rep && rep[n] == n
  {
    var rep := Overall(rows1, rows2, rule1, rule2);
    forall n | n in rep ensures rep[n] in Survivors(rows2, rule2) {
      SurvivorStays(rows1, rule1, n);
      var m := Survivor(rows1, rule1, n);
      assert m in Survivors(rows1, rule1) && m in rows2;
      SurvivorStays(rows2, rule2, m);
    }
    forall n | n in Survivors(rows2, rule2) ensures n in rep && rep[n] == n {
      assert n in Survivors(rows1, rule1);
    }
  }

  ghost predicate NoDangling(kinds: map<Name, Kind>, edges: set<Edge>)
  {
    forall e | e in edges :: e.source in kinds && e.target in kinds
  }

  /** The graph is the original one with exactly the absorbed names folded away. */
  ghost predicate FoldedGraph(kinds: map<Name, Kind>, edges: set<Edge>, rows: seq<Name>, rule: Rule, edges0: set<Edge>, absorbed: set<Name>)
  {
    && NoDangling(kinds, edges)
    && (forall e | e in edges0 :: e.source in rows && e.target in rows)
    && (forall n | n in absorbed :: n in rows && Survivor(rows, rule, n) != n)
    && (forall n :: n in kinds <==> n in rows && n !in absorbed)
    && edges == Image(edges0, Partial(rows, rule, absorbed))
  }

  /** The graph after a pass has handled the groups `done`. */
  ghost predicate HandledGraph(kinds: map<Name, Kind>, edges: set<Edge>, rows: seq<Name>, rule: Rule, retype: bool,
                               kinds0: map<Name, Kind>, edges0: set<Edge>, done: set<string>)
    requires forall n | n in rows :: n in kinds0
  {
    && FoldedGraph(kinds, edges, rows, rule, edges0, FoldedBy(rows, rule, done))
    && forall n | n in kinds :: (
         kinds[n] == if InGroups(rule, done, n) then KindAfter(kinds0, rows, rule, retype, n) else kinds0[n])
  }

  lemma NothingHandled(kinds: map<Name, Kind>, edges: set<Edge>, rows: seq<Name>, rule: Rule, retype: bool)
    requires NoDangling(kinds, edges) && IsListing(rows, kinds.Keys)
    ensures HandledGraph(kinds, edges, rows, rule, retype, kinds, edges, {})
  {
    assert FoldedBy(rows, rule, {}) == {};
    var rep := Partial(rows, rule, {});
    forall e | e in edges ensures e in Image(edges, rep) {
      assert e == Edge(At(rep, e.source), e.relation, At(rep, e.target));
    }
  }

  lemma EverythingHandled(kinds: map<Name, Kind>, edges: set<Edge>, rows: seq<Name>, rule: Rule, retype: bool,
                          kinds0: map<Name, Kind>, edges0: set<Edge>, done: set<string>)
    requires IsListing(rows, kinds0.Keys) && HandledGraph(kinds, edges, rows, rule, retype, kinds0, edges0, done)
    requires forall n | n in rows && rule.key(n).Some? :: rule.key(n).value in done
    ensures edges == Image(edges0, Representatives(rows, rule))
    ensures kinds.Keys == Survivors(rows, rule)
    ensures forall n | n in kinds :: kinds[n] == KindAfter(kinds0, rows, rule, retype, n)
  {
    AllFolded(rows, rule, done);
    KindsHandled(kinds, rows, rule, retype, kinds0, done);
  }

  lemma KindsHandled(kinds: map<Name, Kind>, rows: seq<Name>, rule: Rule, retype: bool, kinds0: map<Name, Kind>, done: set<string>)
    requires forall n | n in rows :: n in kinds0
    requires forall n | n in kinds :: n in rows
    requires forall n | n in kinds :: (
      kinds[n] == if InGroups(rule, done, n) then KindAfter(kinds0, rows, rule, retype, n) else kinds0[n])
    requires forall n | n in rows && rule.key(n).Some? :: rule.key(n).value in done
    ensures forall n | n in kinds :: kinds[n] == KindAfter(kinds0, rows, rule, retype, n)
  {
  }

  lemma AllFolded(rows: seq<Name>, rule: Rule, done: set<string>)
    requires forall n | n in rows && rule.key(n).Some? :: rule.key(n).value in done
    ensures Partial(rows, rule, FoldedBy(rows, rule, done)) == Representatives(rows, rule)
    ensures forall n :: n in rows && n !in FoldedBy(rows, rule, done) <==> n in Survivors(rows, rule)
  {
  }

  /** Handling group `k` next extends what is handled by `k`. */
  lemma OneMoreHandled(kinds: map<Name, Kind>, kinds': map<Name, Kind>, edges': set<Edge>, rows: seq<Name>, rule: Rule, retype: bool,
                       kinds0: map<Name, Kind>, edges0: set<Edge>, done: set<string>, k: string)
    requires forall n | n in rows :: n in kinds0
    requires k !in done
    requires forall n | n in kinds :: n in rows
    requires forall n | n in kinds :: (
      kinds[n] == if InGroups(rule, done, n) then KindAfter(kinds0, rows, rule, retype, n) else kinds0[n])
    requires FoldedGraph(kinds', edges', rows, rule, edges0, FoldedBy(rows, rule, done) + Folding(rows, rule, k))
    requires forall n | n in kinds' :: n in kinds
    requires forall n | n in kinds' :: (
      kinds'[n] == if rule.key(n) == Some(k) && retype && |Group(rows, rule.key, k)| >= 2 then KindAfter(kinds0, rows, rule, retype, n) else kinds[n])
    ensures HandledGraph(kinds', edges', rows, rule, retype, kinds0, edges0, done + {k})
  {
    assert FoldedBy(rows, rule, done + {k}) == FoldedBy(rows, rule, done) + Folding(rows, rule, k);
  }

  ghost predicate GroupAt(rows: seq<Name>, key: Name -> Option<string>, groups: map<string, seq<Name>>, k: string)
  {
    k in groups && groups[k] == Group(rows, key, k) && groups[k] != []
  }

  lemma GroupsNonEmpty(rows: seq<Name>, key: Name -> Option<string>, groups: map<string, seq<Name>>)
    requires forall k | k in groups :: groups[k] == Group(rows, key, k)
    requires forall k | k in groups :: exists n | n in rows :: key(n) == Some(k)
    ensures forall k | k in groups :: groups[k] != []
  {
    forall k | k in groups ensures groups[k] != [] {
      GroupMembers(rows, key, k);
      var n :| n in rows && key(n) == Some(k);
      assert n in groups[k];
    }
  }

  /** The first `n` elements. */
  ghost function FirstOf(s: seq<string>, n: nat): set<string>
    requires n <= |s|
  {
    if n == 0 then {} else FirstOf(s, n - 1) + {s[n - 1]}
  }

  lemma {:induction false} FirstMembers(s: seq<string>, n: nat, x: string)
    requires n <= |s|
    ensures x in FirstOf(s, n) <==> exists k | 0 <= k < n :: s[k] == x
  {
    if n > 0 {
      FirstMembers(s, n - 1, x);
    }
  }

  lemma NextIsNew(s: seq<string>, i: nat)
    requires i < |s| && forall j, k | 0 <= j < k < |s| :: s[j] != s[k]
    ensures s[i] !in FirstOf(s, i)
  {
    FirstMembers(s, i, s[i]);
  }

  lemma AllOf(s: seq<string>)
    ensures FirstOf(s, |s|) == set x | x in s
  {
    forall x ensures x in FirstOf(s, |s|) <==> x in s {
      FirstMembers(s, |s|, x);
    }
  }

  datatype Graph = Graph(kinds: map<Name, Kind>, edges: set<Edge>)

  ghost function FoldName(g: Graph, dup: Name, keep: Name): Graph
  {
    Graph(g.kinds - {dup}, Image(g.edges, map[dup := keep]))
  }

  /** The graph after the first `n` names have been folded into `keep`, one by one. */
  ghost function FoldNames(g: Graph, dups: seq<Name>, keep: Name, n: nat): Graph
    requires n <= |dups|
  {
    if n == 0 then g else FoldName(FoldNames(g, dups, keep, n - 1), dups[n - 1], keep)
  }

  /** `absorbed` and the first `n` names. */
  ghost function With(absorbed: set<Name>, dups: seq<Name>, n: nat): set<Name>
    requires n <= |dups|
  {
    if n == 0 then absorbed else With(absorbed, dups, n - 1) + {dups[n - 1]}
  }

  lemma {:induction false} WithMembers(absorbed: set<Name>, dups: seq<Name>, n: nat, x: Name)
    requires n <= |dups|
    ensures x in With(absorbed, dups, n) <==> x in absorbed || exists k | 0 <= k < n :: dups[k] == x
  {
    if n > 0 {
      WithMembers(absorbed, dups, n - 1, x);
    }
  }

  lemma WithAll(absorbed: set<Name>, dups: seq<Name>)
    ensures With(absorbed, dups, |dups|) == absorbed + Names(dups)
  {
    forall x ensures x in With(absorbed, dups, |dups|) <==> x in absorbed + Names(dups) {
      WithMembers(absorbed, dups, |dups|, x);
    }
  }

  lemma MinusOne(m: map<Name, Kind>, keys: set<Name>, k: Name)
    ensures (m - keys) - {k} == m - (keys + {k})
  {
  }

  lemma OneLess(m: map<Name, Kind>, k: Name)
    requires k in m
    ensures |m - {k}| == |m| - 1
  {
    assert m.Keys == (m - {k}).Keys + {k};
  }

  lemma {:induction false} KindsLeft(g: Graph, dups: seq<Name>, keep: Name, n: nat)
    requires n <= |dups|
    ensures FoldNames(g, dups, keep, n).kinds == g.kinds - FirstOf(dups, n)
  {
    if n == 0 {
      assert g.kinds - {} == g.kinds;
    } else {
      KindsLeft(g, dups, keep, n - 1);
      MinusOne(g.kinds, FirstOf(dups, n - 1), dups[n - 1]);
    }
  }

  /** `n` is listed and the pass folds it into `keep`. */
  ghost predicate FoldsInto(rows: seq<Name>, rule: Rule, n: Name, keep: Name)
  {
    n in rows && Survivor(rows, rule, n) == keep != n
  }

  ghost predicate FoldedTo(g: Graph, rows: seq<Name>, rule: Rule, edges0: set<Edge>, absorbed: set<Name>)
  {
    FoldedGraph(g.kinds, g.edges, rows, rule, edges0, absorbed)
  }

  lemma KeepStays(g: Graph, rows: seq<Name>, rule: Rule, edges0: set<Edge>, absorbed: set<Name>, dup: Name, keep: Name)
    requires FoldedTo(g, rows, rule, edges0, absorbed) && dup !in absorbed && FoldsInto(rows, rule, dup, keep)
    ensures dup in g.kinds && keep in g.kinds && keep != dup
  {
    SurvivorStays(rows, rule, dup);
  }

  lemma OneFolded(g: Graph, rows: seq<Name>, rule: Rule, edges0: set<Edge>, absorbed: set<Name>, dup: Name, keep: Name)
    requires FoldedTo(g, rows, rule, edges0, absorbed) && dup !in absorbed && FoldsInto(rows, rule, dup, keep)
    ensures FoldedTo(FoldName(g, dup, keep), rows, rule, edges0, absorbed + {dup})
  {
    KeepStays(g, rows, rule, edges0, absorbed, dup, keep);
    PartialGrows(edges0, rows, rule, absorbed, dup);
  }

  ghost predicate AllFoldInto(rows: seq<Name>, rule: Rule, absorbed: set<Name>, dups: seq<Name>, keep: Name)
  {
    && (forall i | 0 <= i < |dups| :: dups[i] !in absorbed && FoldsInto(rows, rule, dups[i], keep))
    && (forall i, j | 0 <= i < j < |dups| :: dups[i] != dups[j])
  }

  lemma NextToFold(rows: seq<Name>, rule: Rule, absorbed: set<Name>, dups: seq<Name>, keep: Name, n: nat)
    requires AllFoldInto(rows, rule, absorbed, dups, keep) && n < |dups|
    ensures dups[n] !in With(absorbed, dups, n) && FoldsInto(rows, rule, dups[n], keep)
  {
    WithMembers(absorbed, dups, n, dups[n]);
  }

  /** Folding the `i`th name keeps what `keeps` says. */
  ghost predicate StepKeeps(keeps: (Graph, set<Name>) -> bool, absorbed: set<Name>, dups: seq<Name>, keep: Name, i: nat)
    requires i < |dups|
  {
    forall h | keeps(h, With(absorbed, dups, i)) :: keeps(FoldName(h, dups[i], keep), With(absorbed, dups, i) + {dups[i]})
  }

  /** What each fold of the list keeps, the whole list keeps. */
  lemma {:induction false} KeptByAll(keeps: (Graph, set<Name>) -> bool, g: Graph, absorbed: set<Name>, dups: seq<Name>, keep: Name, n: nat)
    requires n <= |dups| && keeps(g, absorbed)
    requires forall i | 0 <= i < |dups| :: StepKeeps(keeps, absorbed, dups, keep, i)
    ensures keeps(FoldNames(g, dups, keep, n), With(absorbed, dups, n))
  {
    if n > 0 {
      KeptByAll(keeps, g, absorbed, dups, keep, n - 1);
      assert StepKeeps(keeps, absorbed, dups, keep, n - 1);
    }
  }

  lemma GroupFolded(g: Graph, rows: seq<Name>, rule: Rule, edges0: set<Edge>, absorbed: set<Name>, dups: seq<Name>, keep: Name)
    requires FoldedTo(g, rows, rule, edges0, absorbed) && AllFoldInto(rows, rule, absorbed, dups, keep)
    ensures FoldedTo(FoldNames(g, dups, keep, |dups|), rows, rule, edges0, With(absorbed, dups, |dups|))
  {
    var keeps := (h: Graph, a: set<Name>) => FoldedTo(h, rows, rule, edges0, a);
    forall i | 0 <= i < |dups| ensures StepKeeps(keeps, absorbed, dups, keep, i) {
      forall h | keeps(h, With(absorbed, dups, i)) ensures keeps(FoldName(h, dups[i], keep), With(absorbed, dups, i) + {dups[i]}) {
        NextToFold(rows, rule, absorbed, dups, keep, i);
        OneFolded(h, rows, rule, edges0, With(absorbed, dups, i), dups[i], keep);
      }
    }
    KeptByAll(keeps, g, absorbed, dups, keep, |dups|);
  }

  class GraphStore {
    var kinds: map<Name, Kind>
    var edges: set<Edge>

    ghost predicate Valid()
      reads this
    {
      NoDangling(kinds, edges)
    }

    /** The entities, in whatever order the database returns them. */
    method ListEntities() returns (rows: seq<Name>)
      ensures IsListing(rows, kinds.Keys)
    {
      rows := [];
      var left := kinds.Keys;
      while left != {}
        invariant left <= kinds.Keys && IsListing(rows, kinds.Keys - left)
        decreases left
      {
        var n :| n in left;
        rows, left := rows + [n], left - {n};
      }
    }

    /** Fold `dup` into `keep`: redirect its outgoing edges, then its incoming ones, then
        delete it with whatever edges it still has. */
    method FoldInto(dup: Name, keep: Name)
      requires Valid() && dup in kinds && keep in kinds && dup != keep
      modifies this
      ensures Valid()
      ensures kinds == old(kinds) - {dup}
      ensures edges == Image(old(edges), map[dup := keep])
    {
      FoldIsImage(edges, dup, keep);
      edges := Outgoing(edges, dup, keep);
      edges := Incoming(edges, dup, keep);
      kinds, edges := kinds - {dup}, Detached(edges, dup);
    }

    ghost predicate Folded(rows: seq<Name>, rule: Rule, edges0: set<Edge>, absorbed: set<Name>)
      reads this
    {
      FoldedGraph(kinds, edges, rows, rule, edges0, absorbed)
    }

    /** Fold the listed names of one group into the one that is kept. */
    method FoldGroup(dups: seq<Name>, keep: Name)
      requires Valid() && keep in kinds
      requires forall i | 0 <= i < |dups| :: dups[i] in kinds && dups[i] != keep
      requires forall i, j | 0 <= i < j < |dups| :: dups[i] != dups[j]
      modifies this
      ensures Valid() && Graph(kinds, edges) == FoldNames(Graph(old(kinds), old(edges)), dups, keep, |dups|)
      ensures kinds == old(kinds) - Names(dups) && |kinds| == |old(kinds)| - |dups|
    {
      ghost var g := Graph(kinds, edges);
      for i := 0 to |dups|
        invariant Valid() && Graph(kinds, edges) == FoldNames(g, dups, keep, i)
        invariant keep in kinds && |kinds| == |g.kinds| - i
      {
        KindsLeft(g, dups, keep, i);
        NextIsNew(dups, i);
        OneLess(kinds, dups[i]);
        FoldInto(dups[i], keep);
      }
      KindsLeft(g, dups, keep, |dups|);
      AllOf(dups);
    }

    method SetKind(keep: Name, kind: Kind, ghost rows: seq<Name>, ghost rule: Rule, ghost edges0: set<Edge>, ghost absorbed: set<Name>)
      requires Folded(rows, rule, edges0, absorbed) && keep in kinds
      modifies this`kinds
      ensures Folded(rows, rule, edges0, absorbed)
      ensures kinds == old(kinds)[keep := kind] && |kinds| == |old(kinds)|
    {
      kinds := kinds[keep := kind];
      assert kinds.Keys == old(kinds).Keys;
    }

    /** One group: pick the survivor, give it its type, fold the rest into it. */
    method MergeGroup(rule: Rule, retype: bool, group: seq<Name>, kinds0: map<Name, Kind>,
                      ghost rows: seq<Name>, ghost k: string, ghost edges0: set<Edge>, ghost absorbed: set<Name>)
      returns (merged: nat)
      requires Folded(rows, rule, edges0, absorbed)
      requires forall i, j | 0 <= i < j < |rows| :: rows[i] != rows[j]
      requires retype ==> forall a, b :: rule.absorbs(a, b)
      requires group == Group(rows, rule.key, k) && group != [] && forall n | n in group :: n in kinds0
      requires forall n | n in absorbed :: rule.key(n) != Some(k)
      modifies this
      ensures Folded(rows, rule, edges0, absorbed + Folding(rows, rule, k))
      ensures forall n | n in kinds :: n in old(kinds)
      ensures forall n | n in kinds ::
        kinds[n] == if rule.key(n) == Some(k) && retype && |group| >= 2 then MergedKind(kinds0, group) else old(kinds)[n]
      ensures merged + |kinds| == |old(kinds)|
    {
      var keep := Longest(group);
      var dups := Absorbed(rule, group, keep);
      GroupMembers(rows, rule.key, k);
      FoldingListed(rows, rule, k);
      OnlySurvivorLeft(rows, rule, retype, k);
      forall i | 0 <= i < |dups| ensures dups[i] !in absorbed && FoldsInto(rows, rule, dups[i], keep) {
        assert dups[i] in dups && dups[i] in Names(dups);
      }
      if dups == [] {
        assert absorbed + Folding(rows, rule, k) == absorbed;
      } else if retype {
        SetKind(keep, MergedKind(kinds0, group), rows, rule, edges0, absorbed);
      }
      if dups != [] {
        KeepStays(Graph(kinds, edges), rows, rule, edges0, absorbed, dups[0], keep);
        GroupFolded(Graph(kinds, edges), rows, rule, edges0, absorbed, dups, keep);
        WithAll(absorbed, dups);
        FoldGroup(dups, keep);
      }
      merged := |dups|;
    }

    ghost predicate Handled(rows: seq<Name>, rule: Rule, retype: bool, kinds0: map<Name, Kind>, edges0: set<Edge>, done: set<string>)
      requires forall n | n in rows :: n in kinds0
      reads this
    {
      HandledGraph(kinds, edges, rows, rule, retype, kinds0, edges0, done)
    }

    method MergeNext(rows: seq<Name>, rule: Rule, retype: bool, k: string, group: seq<Name>, kinds0: map<Name, Kind>,
                     ghost edges0: set<Edge>, ghost done: set<string>)
      returns (merged: nat)
      requires IsListing(rows, kinds0.Keys) && Handled(rows, rule, retype, kinds0, edges0, done)
      requires retype ==> forall a, b :: rule.absorbs(a, b)
      requires group == Group(rows, rule.key, k) && group != [] && k !in done
      modifies this
      ensures Handled(rows, rule, retype, kinds0, edges0, done + {k})
      ensures merged + |kinds| == |old(kinds)|
    {
      GroupMembers(rows, rule.key, k);
      merged := MergeGroup(rule, retype, group, kinds0, rows, k, edges0, FoldedBy(rows, rule, done));
      OneMoreHandled(old(kinds), kinds, edges, rows, rule, retype, kinds0, edges0, done, k);
    }

    /** One pass over the listed entities. */
    method MergePass(rows: seq<Name>, rule: Rule, retype: bool) returns (merged: nat)
      requires Valid() && IsListing(rows, kinds.Keys)
      requires retype ==> forall a, b :: rule.absorbs(a, b)
      modifies this
      ensures Valid()
      ensures edges == Image(old(edges), Representatives(rows, rule))
      ensures kinds.Keys == Survivors(rows, rule)
      ensures forall n | n in kinds :: kinds[n] == KindAfter(old(kinds), rows, rule, retype, n)
      ensures merged + |kinds| == |old(kinds)|
    {
      var kinds0 := kinds;
      NothingHandled(kinds, edges, rows, rule, retype);
      var order, groups := GroupRows(rows, rule.key);
      GroupsNonEmpty(rows, rule.key, groups);
      forall i | 0 <= i < |order| ensures GroupAt(rows, rule.key, groups, order[i]) {
        assert order[i] in order;
      }
      merged := MergeGroups(rows, rule, retype, order, groups, kinds0, edges);
      forall n | n in rows && rule.key(n).Some? ensures rule.key(n).value in Keys(order) {
        assert rule.key(n) == Some(rule.key(n).value);
      }
      EverythingHandled(kinds, edges, rows, rule, retype, kinds0, old(edges), Keys(order));
    }

    method MergeGroups(rows: seq<Name>, rule: Rule, retype: bool, order: seq<string>, groups: map<string, seq<Name>>,
                       kinds0: map<Name, Kind>, ghost edges0: set<Edge>)
      returns (merged: nat)
      requires IsListing(rows, kinds0.Keys) && Handled(rows, rule, retype, kinds0, edges0, {})
      requires retype ==> forall a, b :: rule.absorbs(a, b)
      requires forall i | 0 <= i < |order| :: GroupAt(rows, rule.key, groups, order[i])
      requires forall i, j | 0 <= i < j < |order| :: order[i] != order[j]
      modifies this
      ensures Handled(rows, rule, retype, kinds0, edges0, Keys(order))
      ensures merged + |kinds| == |old(kinds)|
    {
      merged := 0;
      for i := 0 to |order|
        invariant Handled(rows, rule, retype, kinds0, edges0, FirstOf(order, i))
        invariant merged + |kinds| == |old(kinds)|
      {
        NextIsNew(order, i);
        var count := MergeNext(rows, rule, retype, order[i], groups[order[i]], kinds0, edges0, FirstOf(order, i));
        merged := merged + count;
      }
      AllOf(order);
    }

    /** The whole merge. `rows1` and `rows2` are the listings the two passes happened to get and
        `typed` the types between them; for all of them the result is the quotient of the graph. */
    method MergeDuplicateEntities(norm: Name -> string, tokens: string -> set<string>)
      returns (merged: nat, rows1: seq<Name>, rows2: seq<Name>, typed: map<Name, Kind>)
      requires Valid()
      modifies this
      ensures Valid()
      ensures IsListing(rows1, old(kinds).Keys) && IsListing(rows2, typed.Keys)
      ensures typed.Keys == Survivors(rows1, SameForm(norm))
      ensures forall n | n in typed :: typed[n] == KindAfter(old(kinds), rows1, SameForm(norm), true, n)
      ensures edges == Image(old(edges), Overall(rows1, rows2, SameForm(norm), SameType(typed, norm, tokens)))
      ensures kinds.Keys == Overall(rows1, rows2, SameForm(norm), SameType(typed, norm, tokens)).Values
      ensures kinds.Keys == Survivors(rows2, SameType(typed, norm, tokens))
      ensures forall n | n in kinds :: kinds[n] == typed[n]
      ensures merged == |old(kinds)| - |kinds|
      ensures DistinctForms(kinds.Keys, norm)
      ensures Stable(old(kinds), norm, tokens) ==> merged == 0 && kinds == old(kinds) && edges == old(edges)
      ensures forall n | n in old(kinds) :: n in typed <==> !GoesByForm(rows1, norm, n)
      ensures forall n | n in typed :: TypedByForm(old(kinds), rows1, norm, n, typed[n])
      ensures forall n | n in typed :: n in kinds <==> !GoesByType(rows2, typed, norm, tokens, n)
    {
      rows1 := ListEntities();
      merged := MergePass(rows1, SameForm(norm), true);
      ghost var edges1 := edges;
      typed := kinds;
      rows2 := ListEntities();
      var more := MergePass(rows2, SameType(typed, norm, tokens), false);
      merged := merged + more;
      BothPasses(old(kinds), old(edges), edges1, rows1, rows2, typed, norm, tokens);
      FirstPassDecides(old(kinds), rows1, norm, typed);
      SecondPassDecides(rows2, typed, norm, tokens);
      if Stable(old(kinds), norm, tokens) {
        StableRun(old(kinds), old(edges), typed, edges1, kinds, edges, rows1, rows2, norm, tokens);
      }
    }

    /** The whole merge on a database that lists entities in one fixed order. A run leaves a graph that
        a further run returns 0 for and does not change. */
    method MergeInOrder(norm: Name -> string, tokens: string -> set<string>, order: seq<Name>) returns (merged: nat)
      requires Valid() && Covers(order, kinds.Keys)
      modifies this
      ensures Valid() && kinds.Keys <= old(kinds).Keys && merged == |old(kinds)| - |kinds|
      ensures Settled(kinds, order, norm, tokens)
      ensures Settled(old(kinds), order, norm, tokens) ==> merged == 0 && kinds == old(kinds) && edges == old(edges)
    {
      FilterListing(order, kinds.Keys);
      var rows1 := Filter(order, kinds.Keys);
      merged := MergePass(rows1, SameForm(norm), true);
      ghost var typed, edges1 := kinds, edges;
      assert typed.Keys <= old(kinds).Keys;
      if Settled(old(kinds), order, norm, tokens) {
        FirstPassKeeps(old(kinds), old(edges), typed, edges1, rows1, norm);
      }
      FilterListing(order, kinds.Keys);
      var rows2, rule2 := Filter(order, kinds.Keys), SameType(kinds, norm, tokens);
      var more := MergePass(rows2, rule2, false);
      merged := merged + more;
      SettledAfter(old(kinds).Keys, typed, kinds, order, norm, tokens, rows1);
      if Settled(old(kinds), order, norm, tokens) {
        SecondPassKeeps(typed, edges1, kinds, edges, order, norm, tokens);
      }
    }

    /** On pairwise distinct normal forms, such as a run leaves, the first pass changes nothing,
        in whatever order the entities are listed. */
    method RepeatFirstPass(norm: Name -> string) returns (merged: nat)
      requires Valid() && DistinctForms(kinds.Keys, norm)
      modifies this
      ensures Valid() && merged == 0 && kinds == old(kinds) && edges == old(edges)
    {
      var rows := ListEntities();
      merged := MergePass(rows, SameForm(norm), true);
      FirstPassKeeps(old(kinds), old(edges), kinds, edges, rows, norm);
    }
  }

  lemma FirstPassDecides(kinds: map<Name, Kind>, rows: seq<Name>, norm: Name -> string, typed: map<Name, Kind>)
    requires IsListing(rows, kinds.Keys) && typed.Keys == Survivors(rows, SameForm(norm))
    requires forall n | n in typed :: typed[n] == KindAfter(kinds, rows, SameForm(norm), true, n)
    ensures forall n | n in kinds :: n in typed <==> !GoesByForm(rows, norm, n)
    ensures forall n | n in typed :: TypedByForm(kinds, rows, norm, n, typed[n])
  {
    forall n | n in kinds ensures n in typed <==> !GoesByForm(rows, norm, n) {
      FirstPassExactly(rows, norm, n);
    }
    forall n | n in typed ensures TypedByForm(kinds, rows, norm, n, typed[n]) {
      TypedExactly(kinds, rows, norm, n);
    }
  }

  lemma SecondPassDecides(rows: seq<Name>, typed: map<Name, Kind>, norm: Name -> string, tokens: string -> set<string>)
    requires IsListing(rows, typed.Keys)
    ensures forall n | n in typed :: n in Survivors(rows, SameType(typed, norm, tokens)) <==> !GoesByType(rows, typed, norm, tokens, n)
  {
    forall n | n in typed ensures n in Survivors(rows, SameType(typed, norm, tokens)) <==> !GoesByType(rows, typed, norm, tokens, n) {
      SecondPassExactly(rows, typed, norm, tokens, n);
    }
  }

  /** The two passes compose to one quotient. */
  lemma BothPasses(kinds: map<Name, Kind>, edges: set<Edge>, edges1: set<Edge>, rows1: seq<Name>, rows2: seq<Name>,
                   typed: map<Name, Kind>, norm: Name -> string, tokens: string -> set<string>)
    requires NoDangling(kinds, edges) && IsListing(rows1, kinds.Keys)
    requires edges1 == Image(edges, Representatives(rows1, SameForm(norm)))
    requires IsListing(rows2, typed.Keys) && typed.Keys == Survivors(rows1, SameForm(norm))
    ensures var rule2 := SameType(typed, norm, tokens);
      && Image(edges1, Representatives(rows2, rule2)) == Image(edges, Overall(rows1, rows2, SameForm(norm), rule2))
      && Survivors(rows2, rule2) == Overall(rows1, rows2, SameForm(norm), rule2).Values
      && DistinctForms(Survivors(rows2, rule2), norm)
  {
    var rule2 := SameType(typed, norm, tokens);
    ImageOfImage(edges, Representatives(rows1, SameForm(norm)), Representatives(rows2, rule2));
    OverallIsQuotient(rows1, rows2, SameForm(norm), rule2);
    SurvivorsDistinct(rows1, rows2, norm, rule2);
  }

  lemma FirstPassKeeps(kinds: map<Name, Kind>, edges: set<Edge>, kinds': map<Name, Kind>, edges': set<Edge>, rows: seq<Name>, norm: Name -> string)
    requires NoDangling(kinds, edges) && IsListing(rows, kinds.Keys) && DistinctForms(kinds.Keys, norm)
    requires edges' == Image(edges, Representatives(rows, SameForm(norm)))
    requires kinds'.Keys == Survivors(rows, SameForm(norm))
    requires forall n | n in kinds' :: kinds'[n] == KindAfter(kinds, rows, SameForm(norm), true, n)
    ensures kinds' == kinds && edges' == edges
  {
    var rep := Representatives(rows, SameForm(norm));
    forall n | n in kinds ensures n in kinds' && kinds'[n] == kinds[n] && At(rep, n) == n {
      FirstPassIdle(rows, kinds.Keys, norm, n);
      KindOfSolo(kinds, rows, norm, n);
    }
    forall n | n in kinds' ensures n in kinds {
      assert n in rows;
    }
    SameMap(kinds, kinds');
    IdentityImage(edges, rep);
  }

  lemma SameMap<K, V>(a: map<K, V>, b: map<K, V>)
    requires (forall k | k in a :: k in b && b[k] == a[k]) && (forall k | k in b :: k in a)
    ensures a == b
  {
  }

  lemma KindOfSolo(kinds: map<Name, Kind>, rows: seq<Name>, norm: Name -> string, n: Name)
    requires n in rows && forall m | m in rows :: m in kinds
    requires Group(rows, SameForm(norm).key, norm(n)) == [n]
    ensures KindAfter(kinds, rows, SameForm(norm), true, n) == kinds[n]
  {
  }

  lemma IdentityImage(edges: set<Edge>, rep: map<Name, Name>)
    requires forall e | e in edges :: At(rep, e.source) == e.source && At(rep, e.target) == e.target
    ensures Image(edges, rep) == edges
  {
    assert forall e | e in edges :: e == Edge(At(rep, e.source), e.relation, At(rep, e.target));
  }

  // ---- a second run in the same order ----

  function Filter(names: seq<Name>, kept: set<Name>): seq<Name>
  {
    if names == [] then []
    else
      var init, last := Filter(names[..|names| - 1], kept), names[|names| - 1];
      if last in kept then init + [last] else init
  }

  lemma {:induction false} FilterMembers(names: seq<Name>, kept: set<Name>)
    ensures forall n :: n in Filter(names, kept) <==> n in names && n in kept
  {
    if names != [] {
      var init, last := names[..|names| - 1], names[|names| - 1];
      FilterMembers(init, kept);
      assert names == init + [last];
    }
  }

  lemma {:induction false} LongestKept(names: seq<Name>, kept: set<Name>)
    requires names != [] && Longest(names) in kept
    ensures Filter(names, kept) != [] && Longest(Filter(names, kept)) == Longest(names)
  {
    var init, last := names[..|names| - 1], names[|names| - 1];
    assert names == init + [last];
    FilterMembers(init, kept);
    var f := Filter(init, kept);
    if init == [] {
    } else if |last| > |Longest(init)| {
      LongestAppended(f, last);
    } else {
      LongestKept(init, kept);
      LongestAppended(f, last);
    }
  }

  lemma LongestAppended(names: seq<Name>, last: Name)
    ensures Longest(names + [last]) == if names == [] || |last| > |Longest(names)| then last else Longest(names)
  {
    assert (names + [last])[..|names|] == names;
  }

  lemma {:induction false} GroupOfFiltered(rows: seq<Name>, key: Name -> Option<string>, key': Name -> Option<string>, kept: set<Name>, k: string)
    requires forall n | n in kept :: key'(n) == key(n)
    ensures Group(Filter(rows, kept), key', k) == Filter(Group(rows, key, k), kept)
  {
    if rows != [] {
      var init, last := rows[..|rows| - 1], rows[|rows| - 1];
      GroupOfFiltered(init, key, key', kept, k);
      var f, g := Filter(init, kept), Group(init, key, k);
      assert (f + [last])[..|f|] == f && (g + [last])[..|g|] == g;
    }
  }

  /** If the database lists the survivors in the same order again, each of them survives the second pass again. */
  lemma SecondPassIdle(rows: seq<Name>, rule: Rule, rule': Rule, n: Name)
    requires n in Survivors(rows, rule)
    requires forall m | m in Survivors(rows, rule) :: rule'.key(m) == rule.key(m)
    requires forall a, b :: rule'.absorbs(a, b) == rule.absorbs(a, b)
    ensures n in Filter(rows, Survivors(rows, rule))
    ensures Survivor(Filter(rows, Survivors(rows, rule)), rule', n) == n
  {
    var kept := Survivors(rows, rule);
    FilterMembers(rows, kept);
    if rule.key(n).Some? {
      var k := rule.key(n).value;
      GroupMembers(rows, rule.key, k);
      var g := Group(rows, rule.key, k);
      assert Longest(g) in kept;
      LongestKept(g, kept);
      GroupOfFiltered(rows, rule.key, rule'.key, kept, k);
    }
  }

  // ---- whole runs in one order ----

  /** Every name once, and perhaps others. */
  ghost predicate Covers(order: seq<Name>, names: set<Name>)
  {
    (forall n | n in names :: n in order) && NoRepeats(order)
  }

  /** What a run leaves: distinct normal forms, and nobody in the second pass absorbs anybody. */
  ghost predicate Settled(kinds: map<Name, Kind>, order: seq<Name>, norm: Name -> string, tokens: string -> set<string>)
  {
    && DistinctForms(kinds.Keys, norm)
    && (forall n | n in kinds :: Stays(kinds, order, norm, tokens, n))
  }

  ghost predicate Stays(kinds: map<Name, Kind>, order: seq<Name>, norm: Name -> string, tokens: string -> set<string>, n: Name)
  {
    var rows := Filter(order, kinds.Keys);
    n in rows && Survivor(rows, SameType(kinds, norm, tokens), n) == n
  }

  ghost predicate NoRepeats(names: seq<Name>)
  {
    forall i, j | 0 <= i < j < |names| :: names[i] != names[j]
  }

  lemma OneMore(names: seq<Name>, n: Name)
    requires NoRepeats(names) && n !in names
    ensures NoRepeats(names + [n])
  {
  }

  lemma {:induction false} FilterDistinct(names: seq<Name>, kept: set<Name>)
    requires NoRepeats(names)
    ensures NoRepeats(Filter(names, kept))
  {
    if names != [] {
      var init, last := names[..|names| - 1], names[|names| - 1];
      FilterDistinct(init, kept);
      FilterMembers(init, kept);
      assert last !in init;
      OneMore(Filter(init, kept), last);
    }
  }

  lemma FilterListing(order: seq<Name>, names: set<Name>)
    requires Covers(order, names)
    ensures IsListing(Filter(order, names), names)
  {
    FilterMembers(order, names);
    FilterDistinct(order, names);
  }

  lemma {:induction false} FilterTwice(order: seq<Name>, more: set<Name>, fewer: set<Name>)
    requires fewer <= more
    ensures Filter(Filter(order, more), fewer) == Filter(order, fewer)
  {
    if order != [] {
      var init, last := order[..|order| - 1], order[|order| - 1];
      FilterTwice(init, more, fewer);
      var f := Filter(init, more);
      assert (f + [last])[..|f|] == f;
    }
  }

  lemma SettledAfter(names: set<Name>, typed: map<Name, Kind>, kinds: map<Name, Kind>, order: seq<Name>,
                     norm: Name -> string, tokens: string -> set<string>, rows1: seq<Name>)
    requires IsListing(rows1, names) && typed.Keys == Survivors(rows1, SameForm(norm)) && Covers(order, typed.Keys)
    requires kinds.Keys == Survivors(Filter(order, typed.Keys), SameType(typed, norm, tokens))
    requires forall n | n in kinds :: n in typed && kinds[n] == typed[n]
    ensures Settled(kinds, order, norm, tokens)
  {
    var rows2 := Filter(order, typed.Keys);
    FilterListing(order, typed.Keys);
    SurvivorsDistinct(rows1, rows2, norm, SameType(typed, norm, tokens));
    assert kinds.Keys <= typed.Keys;
    FilterTwice(order, typed.Keys, kinds.Keys);
    forall n | n in kinds ensures Stays(kinds, order, norm, tokens, n) {
      StaysAfter(rows2, typed, kinds, norm, tokens, n);
    }
  }

  lemma StaysAfter(rows: seq<Name>, typed: map<Name, Kind>, kinds: map<Name, Kind>, norm: Name -> string, tokens: string -> set<string>, n: Name)
    requires kinds.Keys == Survivors(rows, SameType(typed, norm, tokens)) && n in kinds
    requires forall m | m in kinds :: m in typed && kinds[m] == typed[m]
    ensures var again := Filter(rows, kinds.Keys);
      n in again && Survivor(again, SameType(kinds, norm, tokens), n) == n
  {
    SecondPassIdle(rows, SameType(typed, norm, tokens), SameType(kinds, norm, tokens), n);
  }

  lemma SecondPassKeeps(kinds: map<Name, Kind>, edges: set<Edge>, kinds': map<Name, Kind>, edges': set<Edge>, order: seq<Name>,
                        norm: Name -> string, tokens: string -> set<string>)
    requires NoDangling(kinds, edges) && Covers(order, kinds.Keys) && Settled(kinds, order, norm, tokens)
    requires edges' == Image(edges, Representatives(Filter(order, kinds.Keys), SameType(kinds, norm, tokens)))
    requires kinds'.Keys == Survivors(Filter(order, kinds.Keys), SameType(kinds, norm, tokens))
    requires forall n | n in kinds' :: n in kinds && kinds'[n] == kinds[n]
    ensures kinds' == kinds && edges' == edges
  {
    var rows, rule := Filter(order, kinds.Keys), SameType(kinds, norm, tokens);
    FilterMembers(order, kinds.Keys);
    forall n | n in kinds ensures n in kinds' && At(Representatives(rows, rule), n) == n {
      assert Stays(kinds, order, norm, tokens, n);
    }
    SameMap(kinds, kinds');
    IdentityImage(edges, Representatives(rows, rule));
  }

  /** The order matters: of two longest names, each may absorb what the other does not, so listing
      them the other way round merges an entity that the first order left alone. */
  lemma TieDecidedByOrder(a: Name, b: Name, c: Name, rule: Rule, k: string)
    requires |a| == |b| > |c| && a != b
    requires rule.key(a) == rule.key(b) == rule.key(c) == Some(k)
    requires !rule.absorbs(a, b) && !rule.absorbs(a, c) && rule.absorbs(b, c)
    ensures Survivors([a, b, c], rule) == {a, b, c}
    ensures c !in Survivors([b, a, c], rule)
  {
    Triple(a, b, c, rule.key, k);
    Triple(b, a, c, rule.key, k);
  }

  /** Such a tie under the second pass's own rule. */
  lemma TieExists()
    ensures var kinds := map["pqr" := Some("ORG"), "xyz" := Some("ORG"), "xy" := Some("ORG")];
      var rule := SameType(kinds, (n: Name) => n, (s: string) => {s});
      "xy" in Survivors(["pqr", "xyz", "xy"], rule) && "xy" !in Survivors(["xyz", "pqr", "xy"], rule)
  {
    var kinds: map<Name, Kind> := map["pqr" := Some("ORG"), "xyz" := Some("ORG"), "xy" := Some("ORG")];
    var rule := SameType(kinds, (n: Name) => n, (s: string) => {s});
    var a, b, c := "pqr", "xyz", "xy";
    assert c <= b[0..] && Contains(b, c);
    assert a[0] != b[0] && a[0] != c[0] && a[1] != c[0];
    TieDecidedByOrder(a, b, c, rule, "ORG");
  }

  lemma Triple(a: Name, b: Name, c: Name, key: Name -> Option<string>, k: string)
    requires |a| == |b| > |c| && key(a) == key(b) == key(c) == Some(k)
    ensures Group([a, b, c], key, k) == [a, b, c] && Longest([a, b, c]) == a
  {
    assert [] + [a] == [a] && [a] + [b] == [a, b] && [a, b] + [c] == [a, b, c];
    GroupGrows([], a, key, k);
    GroupGrows([a], b, key, k);
    GroupGrows([a, b], c, key, k);
    LongestAppended([a], b);
    LongestAppended([a, b], c);
  }

  // ---- when the order does not matter ----

  /** Nobody else of its group has a longer name. */
  ghost predicate IsLongest(names: set<Name>, rule: Rule, a: Name)
  {
    a in names && rule.key(a).Some? && forall c | c in names && rule.key(c) == rule.key(a) :: |c| <= |a|
  }

  /** No longest name of a group absorbs another member of it. */
  ghost predicate NobodyAbsorbs(names: set<Name>, rule: Rule)
  {
    forall a, b | IsLongest(names, rule, a) && b in names && b != a && rule.key(b) == rule.key(a) :: !rule.absorbs(a, b)
  }

  /** However the names are listed, all of them survive. */
  ghost predicate AllSurvive(names: set<Name>, rule: Rule)
  {
    forall rows | IsListing(rows, names) :: Survivors(rows, rule) == names
  }

  lemma SurvivesAnyOrder(names: set<Name>, rule: Rule, rows: seq<Name>, n: Name)
    requires NobodyAbsorbs(names, rule) && IsListing(rows, names) && n in names
    ensures Survivor(rows, rule, n) == n
  {
    if rule.key(n).Some? {
      var k := rule.key(n).value;
      GroupMembers(rows, rule.key, k);
      var keep := Longest(Group(rows, rule.key, k));
      assert IsLongest(names, rule, keep);
    }
  }

  /** Some listing begins with any given name. */
  lemma ListedFirst(names: set<Name>, a: Name) returns (rows: seq<Name>)
    requires a in names
    ensures IsListing(rows, names) && rows[0] == a
  {
    var rest := Listed(names - {a});
    rows := [a] + rest;
    forall n ensures n in rows <==> n in names {
      assert n in rows <==> n == a || n in rest;
    }
    forall i, j | 0 <= i < j < |rows| ensures rows[i] != rows[j] {
      assert rows[j] == rest[j - 1] && rest[j - 1] in rest;
    }
  }

  lemma {:induction false} Listed(names: set<Name>) returns (rows: seq<Name>)
    ensures IsListing(rows, names)
    decreases |names|
  {
    rows := [];
    if names != {} {
      var n :| n in names;
      var rest := Listed(names - {n});
      rows := rest + [n];
      assert n !in rest;
    }
  }

  lemma {:induction false} GroupHead(rows: seq<Name>, key: Name -> Option<string>, k: string)
    requires rows != [] && key(rows[0]) == Some(k)
    ensures Group(rows, key, k) != [] && Group(rows, key, k)[0] == rows[0]
  {
    if |rows| > 1 {
      GroupHead(rows[..|rows| - 1], key, k);
    } else {
      assert Group(rows[..0], key, k) == [];
    }
  }

  lemma {:induction false} LongestHead(names: seq<Name>)
    requires names != [] && forall n | n in names :: |n| <= |names[0]|
    ensures Longest(names) == names[0]
  {
    if |names| > 1 {
      var init := names[..|names| - 1];
      assert forall n | n in init :: n in names;
      LongestHead(init);
    }
  }

  lemma AbsorbedFirst(names: set<Name>, rule: Rule, a: Name, b: Name)
    requires IsLongest(names, rule, a) && b in names && b != a && rule.key(b) == rule.key(a) && rule.absorbs(a, b)
    ensures !AllSurvive(names, rule)
  {
    var rows := ListedFirst(names, a);
    var k := rule.key(a).value;
    GroupMembers(rows, rule.key, k);
    GroupHead(rows, rule.key, k);
    LongestHead(Group(rows, rule.key, k));
    assert b in rows && Survivor(rows, rule, b) == a;
    assert b !in Survivors(rows, rule);
  }

  /** A pass merges nothing, in whatever order the entities are listed, if and only if no longest name of a
      group absorbs another member of it. */
  lemma AllSurviveExactly(names: set<Name>, rule: Rule)
    ensures AllSurvive(names, rule) <==> NobodyAbsorbs(names, rule)
  {
    if NobodyAbsorbs(names, rule) {
      forall rows | IsListing(rows, names) ensures Survivors(rows, rule) == names {
        forall n | n in names ensures n in Survivors(rows, rule) {
          SurvivesAnyOrder(names, rule, rows, n);
        }
      }
    } else {
      var a, b :| IsLongest(names, rule, a) && b in names && b != a && rule.key(b) == rule.key(a) && rule.absorbs(a, b);
      AbsorbedFirst(names, rule, a, b);
    }
  }

  /** For the first pass that means distinct normal forms. */
  lemma FirstPassStableExactly(names: set<Name>, norm: Name -> string)
    ensures AllSurvive(names, SameForm(norm)) <==> DistinctForms(names, norm)
  {
    AllSurviveExactly(names, SameForm(norm));
    if NobodyAbsorbs(names, SameForm(norm)) {
      forall a, b | a in names && b in names && norm(a) == norm(b) ensures a == b {
        var rows := ListedFirst(names, a);
        SurvivesAnyOrder(names, SameForm(norm), rows, a);
        SurvivesAnyOrder(names, SameForm(norm), rows, b);
      }
    }
  }

  /** A graph a run leaves alone in whatever order its entities are listed. */
  ghost predicate Stable(kinds: map<Name, Kind>, norm: Name -> string, tokens: string -> set<string>)
  {
    DistinctForms(kinds.Keys, norm) && NobodyAbsorbs(kinds.Keys, SameType(kinds, norm, tokens))
  }

  /** Both passes of a run merge nothing for all listings if and only if the graph is stable. */
  lemma StableExactly(kinds: map<Name, Kind>, norm: Name -> string, tokens: string -> set<string>)
    ensures Stable(kinds, norm, tokens) <==>
      AllSurvive(kinds.Keys, SameForm(norm)) && AllSurvive(kinds.Keys, SameType(kinds, norm, tokens))
  {
    FirstPassStableExactly(kinds.Keys, norm);
    AllSurviveExactly(kinds.Keys, SameType(kinds, norm, tokens));
  }

  lemma StableSecondPass(kinds: map<Name, Kind>, edges: set<Edge>, kinds': map<Name, Kind>, edges': set<Edge>, rows: seq<Name>,
                         norm: Name -> string, tokens: string -> set<string>)
    requires NoDangling(kinds, edges) && IsListing(rows, kinds.Keys) && Stable(kinds, norm, tokens)
    requires edges' == Image(edges, Representatives(rows, SameType(kinds, norm, tokens)))
    requires kinds'.Keys == Survivors(rows, SameType(kinds, norm, tokens))
    requires forall n | n in kinds' :: n in kinds && kinds'[n] == kinds[n]
    ensures kinds' == kinds && edges' == edges
  {
    var rule := SameType(kinds, norm, tokens);
    forall n | n in kinds ensures n in kinds' && At(Representatives(rows, rule), n) == n {
      SurvivesAnyOrder(kinds.Keys, rule, rows, n);
    }
    SameMap(kinds, kinds');
    IdentityImage(edges, Representatives(rows, rule));
  }

  lemma StableRun(kinds: map<Name, Kind>, edges: set<Edge>, typed: map<Name, Kind>, edges1: set<Edge>,
                  kinds': map<Name, Kind>, edges': set<Edge>, rows1: seq<Name>, rows2: seq<Name>,
                  norm: Name -> string, tokens: string -> set<string>)
    requires NoDangling(kinds, edges) && IsListing(rows1, kinds.Keys) && Stable(kinds, norm, tokens)
    requires edges1 == Image(edges, Representatives(rows1, SameForm(norm))) && typed.Keys == Survivors(rows1, SameForm(norm))
    requires forall n | n in typed :: typed[n] == KindAfter(kinds, rows1, SameForm(norm), true, n)
    requires IsListing(rows2, typed.Keys) && edges' == Image(edges1, Representatives(rows2, SameType(typed, norm, tokens)))
    requires kinds'.Keys == Survivors(rows2, SameType(typed, norm, tokens))
    requires forall n | n in kinds' :: n in typed && kinds'[n] == typed[n]
    ensures kinds' == kinds && edges' == edges
  {
    FirstPassKeeps(kinds, edges, typed, edges1, rows1, norm);
    StableSecondPass(kinds, edges, kinds', edges', rows2, norm, tokens);
  }
}
