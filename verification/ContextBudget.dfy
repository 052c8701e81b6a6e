/** The context budget allocator: when the messages of a request do not fit the model's window,
    whole tiers of context are dropped, the least important first, each block together with
    the assistant's acknowledgement of it. */
module ContextBudget {
  import opened Basics

  datatype Role = System | User | Assistant | Tool

  /** `Parts` is a list of content parts, known by the length of its printed form. */
  datatype Content = Text(text: string) | Parts(size: nat) | Absent

  datatype Message = Message(role: Role, content: Content)

  /** What keeping only the salient facts of a block does to it. */
  datatype Rebuilt = Unchanged | Emptied | Shortened(text: string)

  /** The salience filter; `None` when there are no saliences. */
  type Salience = Option<string -> Rebuilt>

  const HIGHEST: nat := 8

  function Printed(m: Message): nat
  {
    match m.content
    case Text(s) => |s|
    case Parts(n) => n
    case Absent => 0
  }

  function Cost(m: Message): nat
  {
    if Printed(m) / 4 > 1 then Printed(m) / 4 else 1
  }

  type BlockTier = t: nat | 1 <= t <= HIGHEST witness 1

  datatype Prefix = Prefix(tier: BlockTier, text: string)

  /** The block headers and their tiers, first match first; anything else is tier 6. */
  const PREFIXES: seq<Prefix> := [
    Prefix(8, "[LAST SESSION]"),
    Prefix(7, "[FILE CONTEXT]"),
    Prefix(6, "[RELEVANT CONTEXT"),
    Prefix(5, "[EARLIER IN THIS CONVERSATION]"),
    Prefix(4, "[GRAPH CONTEXT]"),
    Prefix(4, "[GRAPH FACTS]"),
    Prefix(3, "[ACTIVE GOALS]"),
    Prefix(2, "[RECENT INSIGHTS]"),
    Prefix(2, "[PROJECT STATE]"),
    Prefix(1, "[USER STATE]")
  ]

  function Match(prefixes: seq<Prefix>, s: string): BlockTier
  {
    if prefixes == [] then 6
    else if prefixes[0].text <= s then prefixes[0].tier
    else Match(prefixes[1..], s)
  }

  function TextTier(s: string): BlockTier
  {
    Match(PREFIXES, s)
  }

  function Tier(m: Message, isLast: bool): (t: nat)
    ensures t <= HIGHEST
    ensures t == 0 <==> isLast || m.content.Parts? || m.role == System
  {
    if isLast || m.content.Parts? || m.role == System then 0
    else if m.content.Text? then TextTier(m.content.text)
    else 6
  }

  function TierAt(ms: seq<Message>, i: nat): nat
    requires i < |ms|
  {
    Tier(ms[i], i == |ms| - 1)
  }

  predicate IsAck(m: Message)
  {
    m.role == Assistant && m.content.Text? && "Understood" <= m.content.text
  }

  /** The acknowledgement of the block at `start`: the first one in the run of assistant
      messages that follows it. */
  function AckFrom(ms: seq<Message>, i: nat): (r: Option<nat>)
    ensures r.Some? ==> i <= r.value < |ms| && IsAck(ms[r.value])
    decreases |ms| - i
  {
    if i >= |ms| then None
    else if IsAck(ms[i]) then Some(i)
    else if ms[i].role != Assistant then None
    else AckFrom(ms, i + 1)
  }

  function AckIndex(ms: seq<Message>, start: nat): (r: Option<nat>)
    ensures r.Some? ==> start < r.value < |ms| && IsAck(ms[r.value])
  {
    AckFrom(ms, start + 1)
  }

  // ---- what dropping tiers keeps ----

  /** Message `i` goes when all tiers from `t` up are dropped. */
  predicate Goes(ms: seq<Message>, t: nat, i: nat)
    requires i < |ms|
  {
    TierAt(ms, i) >= t || exists j | 0 <= j < |ms| :: TierAt(ms, j) >= t && AckIndex(ms, j) == Some(i)
  }

  function KeepBelow(ms: seq<Message>, t: nat): (keep: seq<bool>)
    ensures |keep| == |ms| && forall i | 0 <= i < |ms| :: keep[i] == !Goes(ms, t, i)
  {
    seq(|ms|, i requires 0 <= i < |ms| => !Goes(ms, t, i))
  }

  function SelectTo(ms: seq<Message>, keep: seq<bool>, n: nat): seq<Message>
    requires |keep| == |ms| && n <= |ms|
  {
    if n == 0 then [] else SelectTo(ms, keep, n - 1) + if keep[n - 1] then [ms[n - 1]] else []
  }

  /** The kept messages, in order. */
  function Select(ms: seq<Message>, keep: seq<bool>): seq<Message>
    requires |keep| == |ms|
  {
    SelectTo(ms, keep, |ms|)
  }

  function TotalTo(ms: seq<Message>, keep: seq<bool>, n: nat): nat
    requires |keep| == |ms| && n <= |ms|
  {
    if n == 0 then 0 else TotalTo(ms, keep, n - 1) + if keep[n - 1] then Cost(ms[n - 1]) else 0
  }

  /** The estimated size of the kept messages. */
  function Total(ms: seq<Message>, keep: seq<bool>): nat
    requires |keep| == |ms|
  {
    TotalTo(ms, keep, |ms|)
  }

  function All(n: nat): seq<bool>
  {
    seq(n, i => true)
  }

  predicate Fits(ms: seq<Message>, budget: int, t: nat)
  {
    Total(ms, KeepBelow(ms, t)) <= budget
  }

  predicate HasTier(ms: seq<Message>, t: nat)
  {
    exists i | 0 <= i < |ms| :: TierAt(ms, i) == t
  }

  // ---- the partial drop of user-state blocks ----

  predicate GoesAt(ms: seq<Message>, t: nat, i: nat)
    requires i < |ms|
  {
    TierAt(ms, i) == t || exists j | 0 <= j < |ms| :: TierAt(ms, j) == t && AckIndex(ms, j) == Some(i)
  }

  function Rebuild(salience: string -> Rebuilt, m: Message): Rebuilt
  {
    match m.content
    case Text(s) => salience(s)
    case _ => salience("")
  }

  predicate Salvaged(ms: seq<Message>, salience: string -> Rebuilt, i: nat)
    requires i < |ms|
  {
    GoesAt(ms, 1, i) && Rebuild(salience, ms[i]).Shortened?
  }

  function PartialKeep(ms: seq<Message>, salience: string -> Rebuilt): (keep: seq<bool>)
    ensures |keep| == |ms|
    ensures forall i | 0 <= i < |ms| :: keep[i] == (Salvaged(ms, salience, i) || (!GoesAt(ms, 1, i) && !Goes(ms, 2, i)))
  {
    seq(|ms|, i requires 0 <= i < |ms| => Salvaged(ms, salience, i) || (!GoesAt(ms, 1, i) && !Goes(ms, 2, i)))
  }

  function PartialMessages(ms: seq<Message>, salience: string -> Rebuilt): (r: seq<Message>)
    ensures |r| == |ms|
    ensures forall i | 0 <= i < |ms| :: (
      r[i] == if Salvaged(ms, salience, i) then ms[i].(content := Text(Rebuild(salience, ms[i]).text)) else ms[i])
  {
    seq(|ms|, i requires 0 <= i < |ms| =>
      if Salvaged(ms, salience, i) then ms[i].(content := Text(Rebuild(salience, ms[i]).text)) else ms[i])
  }

  // ---- the specification ----

  /** The highest tier, from `t` down to 1, whose removal with everything above it fits; 1 if none does. */
  function Threshold(ms: seq<Message>, budget: int, t: nat): (r: nat)
    requires t >= 1
    ensures 1 <= r <= t
    ensures r > 1 ==> Fits(ms, budget, r)
    ensures forall u | r < u <= t :: !Fits(ms, budget, u)
  {
    if t == 1 || Fits(ms, budget, t) then t else Threshold(ms, budget, t - 1)
  }

  function Fitted(ms: seq<Message>, budget: int, salience: Salience): seq<Message>
  {
    if Total(ms, All(|ms|)) <= budget then ms
    else
      var t := Threshold(ms, budget, HIGHEST);
      if t == 1 && salience.Some? && HasTier(ms, 1) then
        Select(PartialMessages(ms, salience.value), PartialKeep(ms, salience.value))
      else Select(ms, KeepBelow(ms, t))
  }

  /** The last tier is dropped in part: too much, nothing less fits, and there are saliences and a block for them. */
  predicate Partial(ms: seq<Message>, budget: int, salience: Salience)
  {
    Total(ms, All(|ms|)) > budget && Threshold(ms, budget, HIGHEST) == 1 && salience.Some? && HasTier(ms, 1)
  }

  /** The caller's list afterwards: shortened blocks are written into it. */
  function Rewritten(ms: seq<Message>, budget: int, salience: Salience): (r: seq<Message>)
    ensures |r| == |ms|
  {
    if Partial(ms, budget, salience) then PartialMessages(ms, salience.value) else ms
  }

  // ---- the algorithm ----

  lemma TierByTier(ms: seq<Message>, t: nat, i: nat)
    requires i < |ms|
    ensures Goes(ms, t, i) <==> Goes(ms, t + 1, i) || GoesAt(ms, t, i)
  {
  }

  method SumKept(ms: seq<Message>, keep: seq<bool>) returns (total: nat)
    requires |keep| == |ms|
    ensures total == Total(ms, keep)
  {
    total := 0;
    for i := 0 to |ms|
      invariant total == TotalTo(ms, keep, i)
    {
      if keep[i] {
        total := total + Cost(ms[i]);
      }
    }
  }

  method Filter(ms: seq<Message>, keep: seq<bool>) returns (r: seq<Message>)
    requires |keep| == |ms|
    ensures r == Select(ms, keep)
  {
    r := [];
    for i := 0 to |ms|
      invariant r == SelectTo(ms, keep, i)
    {
      if keep[i] {
        r := r + [ms[i]];
      }
    }
  }

  ghost predicate TierTable(ms: seq<Message>, tiers: map<nat, seq<nat>>)
  {
    && (forall t | t in tiers :: forall i :: i in tiers[t] <==> 0 <= i < |ms| && TierAt(ms, i) == t)
    && (forall t :: t in tiers <==> HasTier(ms, t))
  }

  /** The positions below `n` of tier `t`. */
  ghost predicate Positions(ms: seq<Message>, n: nat, t: nat, at: seq<nat>)
    requires n <= |ms|
  {
    forall k :: k in at <==> 0 <= k < n && TierAt(ms, k) == t
  }

  ghost predicate TiersTo(ms: seq<Message>, n: nat, tiers: map<nat, seq<nat>>)
    requires n <= |ms|
  {
    && (forall t | t in tiers :: tiers[t] != [])
    && (forall t: nat :: Positions(ms, n, t, if t in tiers then tiers[t] else []))
  }

  lemma NextTier(ms: seq<Message>, n: nat, tiers: map<nat, seq<nat>>)
    requires n < |ms| && TiersTo(ms, n, tiers)
    ensures var t := TierAt(ms, n); TiersTo(ms, n + 1, tiers[t := (if t in tiers then tiers[t] else []) + [n]])
  {
    var t := TierAt(ms, n);
    var tiers' := tiers[t := (if t in tiers then tiers[t] else []) + [n]];
    forall u: nat ensures Positions(ms, n + 1, u, if u in tiers' then tiers'[u] else []) {
      assert Positions(ms, n, u, if u in tiers then tiers[u] else []);
    }
  }

  lemma TiersDone(ms: seq<Message>, tiers: map<nat, seq<nat>>)
    requires TiersTo(ms, |ms|, tiers)
    ensures TierTable(ms, tiers)
  {
    forall t: nat ensures t in tiers <==> HasTier(ms, t) {
      assert Positions(ms, |ms|, t, if t in tiers then tiers[t] else []);
      if t in tiers {
        assert tiers[t][0] in tiers[t];
      }
    }
    forall t | t in tiers ensures forall i :: i in tiers[t] <==> 0 <= i < |ms| && TierAt(ms, i) == t {
      assert Positions(ms, |ms|, t, if t in tiers then tiers[t] else []);
    }
  }

  /** The positions of each tier that occurs. */
  method CollectTiers(ms: seq<Message>) returns (tiers: map<nat, seq<nat>>)
    ensures TierTable(ms, tiers)
  {
    tiers := map[];
    for i := 0 to |ms|
      invariant TiersTo(ms, i, tiers)
    {
      NextTier(ms, i, tiers);
      var t := TierAt(ms, i);
      tiers := tiers[t := (if t in tiers then tiers[t] else []) + [i]];
    }
    TiersDone(ms, tiers);
  }

  /** A tier's messages with their acknowledgements. */
  method DropSet(ms: seq<Message>, t: nat, positions: seq<nat>) returns (drop: set<nat>)
    requires forall i :: i in positions <==> 0 <= i < |ms| && TierAt(ms, i) == t
    ensures forall i :: i in drop <==> 0 <= i < |ms| && GoesAt(ms, t, i)
  {
    drop := set i | i in positions;
    for k := 0 to |positions|
      invariant forall i :: i in drop <==>
        (0 <= i < |ms| && (TierAt(ms, i) == t || exists j | j in positions[..k] :: AckIndex(ms, j) == Some(i)))
    {
      assert positions[..k + 1] == positions[..k] + [positions[k]];
      assert positions[k] in positions;
      var ack := AckIndex(ms, positions[k]);
      if ack.Some? {
        drop := drop + {ack.value};
      }
    }
    assert positions[..|positions|] == positions;
  }

  /** Keep the salient facts of the dropped blocks that have some. */
  method KeepSalient(ms: seq<Message>, salience: string -> Rebuilt, drop: set<nat>, keep0: seq<bool>)
    returns (messages: seq<Message>, remaining: set<nat>, keep: seq<bool>)
    requires |keep0| == |ms| && forall i :: i in drop <==> 0 <= i < |ms| && GoesAt(ms, 1, i)
    ensures messages == PartialMessages(ms, salience)
    ensures forall i :: i in remaining <==> i in drop && !Salvaged(ms, salience, i)
    ensures |keep| == |ms|
    ensures forall i | 0 <= i < |ms| && i !in drop :: keep[i] == keep0[i]
    ensures forall i | 0 <= i < |ms| && Salvaged(ms, salience, i) :: keep[i]
  {
    ghost var target := PartialMessages(ms, salience);
    messages, remaining, keep := ms, drop, keep0;
    for i := 0 to |ms|
      invariant |messages| == |keep| == |ms|
      invariant forall k | 0 <= k < i :: messages[k] == target[k]
      invariant forall k | i <= k < |ms| :: messages[k] == ms[k]
      invariant forall k :: k in remaining <==> k in drop && !(k < i && Salvaged(ms, salience, k))
      invariant forall k | 0 <= k < |ms| && k !in drop :: keep[k] == keep0[k]
      invariant forall k | 0 <= k < i && Salvaged(ms, salience, k) :: keep[k]
    {
      if i in drop {
        var rebuilt := Rebuild(salience, ms[i]);
        if rebuilt.Shortened? {
          keep := keep[i := true];
          remaining := remaining - {i};
          messages := messages[i := ms[i].(content := Text(rebuilt.text))];
        } else if rebuilt.Emptied? {
          keep := keep[i := false];
        }
      }
    }
  }

  /** The kept messages without the dropped positions. */
  method Without(keep: seq<bool>, drop: set<nat>) returns (newKeep: seq<bool>)
    ensures |newKeep| == |keep| && forall i | 0 <= i < |keep| :: newKeep[i] == (keep[i] && i !in drop)
  {
    newKeep := keep;
    for i := 0 to |keep|
      invariant |newKeep| == |keep|
      invariant forall k | 0 <= k < |keep| :: newKeep[k] == (keep[k] && !(k < i && k in drop))
    {
      if i in drop {
        newKeep := newKeep[i := false];
      }
    }
  }

  lemma AbsentTier(ms: seq<Message>, t: nat)
    requires !HasTier(ms, t)
    ensures KeepBelow(ms, t) == KeepBelow(ms, t + 1)
  {
    forall i | 0 <= i < |ms| ensures KeepBelow(ms, t)[i] == KeepBelow(ms, t + 1)[i] {
      TierByTier(ms, t, i);
    }
  }

  lemma AllKept(ms: seq<Message>)
    ensures KeepBelow(ms, HIGHEST + 1) == All(|ms|)
  {
  }

  /** Dropping any tier from `t` up, with those above it, still leaves too much. */
  ghost predicate TooMuch(ms: seq<Message>, budget: int, t: nat)
  {
    forall u | t <= u <= HIGHEST + 1 :: !Fits(ms, budget, u)
  }

  lemma StillTooMuch(ms: seq<Message>, budget: int, t: nat)
    requires TooMuch(ms, budget, t + 1) && !Fits(ms, budget, t)
    ensures TooMuch(ms, budget, t)
  {
    forall u | t <= u <= HIGHEST + 1 ensures !Fits(ms, budget, u) {
    }
  }

  lemma {:induction false} FittedAt(ms: seq<Message>, budget: int, salience: Salience, t: nat)
    requires Total(ms, All(|ms|)) > budget
    requires 1 <= t <= HIGHEST && (t == 1 || Fits(ms, budget, t))
    requires TooMuch(ms, budget, t + 1)
    ensures t == 1 && salience.Some? && HasTier(ms, 1) ==>
      Fitted(ms, budget, salience) == Select(PartialMessages(ms, salience.value), PartialKeep(ms, salience.value))
    ensures !(t == 1 && salience.Some? && HasTier(ms, 1)) ==> Fitted(ms, budget, salience) == Select(ms, KeepBelow(ms, t))
    ensures Partial(ms, budget, salience) <==> t == 1 && salience.Some? && HasTier(ms, 1)
  {
    assert Threshold(ms, budget, HIGHEST) == t;
  }

  lemma NothingToFit(budget: int, salience: Salience)
    ensures Fitted([], budget, salience) == [] == Rewritten([], budget, salience)
  {
  }

  /** Fit the messages into the window; shortened blocks also replace their originals in the caller's list. */
  method ApplyContextBudget(messages: array<Message>, window: nat, maxOutput: int, salience: Salience) returns (r: seq<Message>)
    modifies messages
    ensures r == Fitted(old(messages[..]), window - maxOutput - window / 10, salience)
    ensures messages[..] == Rewritten(old(messages[..]), window - maxOutput - window / 10, salience)
  {
    var ms := messages[..];
    var rewritten;
    r, rewritten := Fit(ms, window - maxOutput - window / 10, salience);
    Overwrite(messages, rewritten);
  }

  method Overwrite(messages: array<Message>, rewritten: seq<Message>)
    requires |rewritten| == messages.Length
    modifies messages
    ensures messages[..] == rewritten
  {
    forall i | 0 <= i < messages.Length {
      messages[i] := rewritten[i];
    }
  }

  /** The messages that fit, and the list as it is left. */
  method Fit(ms: seq<Message>, budget: int, salience: Salience) returns (r: seq<Message>, messages: seq<Message>)
    ensures r == Fitted(ms, budget, salience) && messages == Rewritten(ms, budget, salience)
  {
    r, messages := ms, ms;
    if ms == [] {
      NothingToFit(budget, salience);
      return;
    }
    var total := SumKept(ms, All(|ms|));
    if total > budget {
      r, messages := DropTiers(ms, budget, salience);
    }
  }

  /** The loop over the tiers, highest first. */
  method DropTiers(ms: seq<Message>, budget: int, salience: Salience) returns (r: seq<Message>, messages: seq<Message>)
    requires Total(ms, All(|ms|)) > budget
    ensures r == Fitted(ms, budget, salience) && messages == Rewritten(ms, budget, salience)
  {
    messages := ms;
    var keep := All(|ms|);
    var tiers := CollectTiers(ms);
    var tier: nat := HIGHEST;
    AllKept(ms);
    while tier > 0
      invariant tier <= HIGHEST && keep == KeepBelow(ms, tier + 1)
      invariant TooMuch(ms, budget, tier + 1)
      invariant tier == 0 ==> salience.None? || 1 !in tiers
    {
      if tier == 1 && salience.Some? && 1 in tiers {
        FittedAt(ms, budget, salience, 1);
        r, messages := DropLast(ms, budget, salience.value, tiers, keep);
        return;
      }
      keep := DropTier(ms, tier, tiers, keep);
      var total := SumKept(ms, keep);
      if total <= budget {
        FittedAt(ms, budget, salience, tier);
        r := Filter(ms, keep);
        return;
      }
      StillTooMuch(ms, budget, tier);
      tier := tier - 1;
    }
    FittedAt(ms, budget, salience, 1);
    r := Filter(ms, keep);
  }

  /** One tier further: what is kept once `tier` is dropped too. */
  method DropTier(ms: seq<Message>, tier: nat, tiers: map<nat, seq<nat>>, keep: seq<bool>) returns (newKeep: seq<bool>)
    requires TierTable(ms, tiers) && keep == KeepBelow(ms, tier + 1)
    ensures newKeep == KeepBelow(ms, tier)
  {
    newKeep := keep;
    if tier in tiers {
      var drop := DropSet(ms, tier, tiers[tier]);
      newKeep := Without(keep, drop);
      forall i | 0 <= i < |ms| ensures newKeep[i] == KeepBelow(ms, tier)[i] {
        TierByTier(ms, tier, i);
      }
    } else {
      AbsentTier(ms, tier);
    }
  }

  /** The last tier when there are saliences: nothing more can be dropped after it. */
  method DropLast(ms: seq<Message>, budget: int, salience: string -> Rebuilt, tiers: map<nat, seq<nat>>, keep0: seq<bool>)
    returns (r: seq<Message>, messages: seq<Message>)
    requires TierTable(ms, tiers) && 1 in tiers && keep0 == KeepBelow(ms, 2)
    ensures messages == PartialMessages(ms, salience)
    ensures r == Select(messages, PartialKeep(ms, salience))
  {
    var drop := DropSet(ms, 1, tiers[1]);
    var remaining, keep;
    messages, remaining, keep := KeepSalient(ms, salience, drop, keep0);
    if remaining == {} {
      assert keep == PartialKeep(ms, salience);
      var total := SumKept(messages, keep);
      if total <= budget {
        r := Filter(messages, keep);
        return;
      }
    }
    keep := Without(keep, remaining);
    assert keep == PartialKeep(ms, salience);
    r := Filter(messages, keep);
  }
}
