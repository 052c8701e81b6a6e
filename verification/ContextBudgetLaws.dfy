/** What the context budget allocator guarantees of every list of messages. */
module ContextBudgetLaws {
  import opened Basics
  import opened ContextBudget

  /** The partial drop is out of play: no saliences, or no user-state block outside the system messages. */
  predicate WholeTiers(ms: seq<Message>, salience: Salience)
  {
    salience.None? || !HasTier(ms, 1)
  }

  /** Greedy and minimal: the result drops all tiers from some `t` up and nothing else; that fits,
      or everything droppable is gone; and dropping less, from any higher tier up, would not fit. */
  lemma {:induction false} GreedyAndMinimal(ms: seq<Message>, budget: int, salience: Salience) returns (t: nat)
    requires WholeTiers(ms, salience)
    ensures 1 <= t <= HIGHEST + 1
    ensures Fitted(ms, budget, salience) == Select(ms, KeepBelow(ms, t))
    ensures Fits(ms, budget, t) || t == 1
    ensures forall u | t < u <= HIGHEST + 1 :: !Fits(ms, budget, u)
  {
    AllKept(ms);
    if Total(ms, All(|ms|)) <= budget {
      t := HIGHEST + 1;
      SelectAll(ms, KeepBelow(ms, t), |ms|);
    } else {
      t := Threshold(ms, budget, HIGHEST);
    }
  }

  lemma {:induction false} SelectAll(ms: seq<Message>, keep: seq<bool>, n: nat)
    requires |keep| == |ms| && n <= |ms| && forall i | 0 <= i < n :: keep[i]
    ensures SelectTo(ms, keep, n) == ms[..n]
  {
    if n > 0 {
      SelectAll(ms, keep, n - 1);
    }
    assert n == |ms| ==> ms[..n] == ms;
  }

  // ---- which messages the result keeps ----

  /** The lowest tier dropped; above the highest when everything fits. */
  function Cut(ms: seq<Message>, budget: int): (t: nat)
    ensures 1 <= t <= HIGHEST + 1
  {
    if Total(ms, All(|ms|)) <= budget then HIGHEST + 1 else Threshold(ms, budget, HIGHEST)
  }

  /** Which positions the result keeps. */
  function Kept(ms: seq<Message>, budget: int, salience: Salience): (keep: seq<bool>)
    ensures |keep| == |ms|
  {
    if Partial(ms, budget, salience) then PartialKeep(ms, salience.value) else KeepBelow(ms, Cut(ms, budget))
  }

  /** `at` lists exactly the positions below `n` that are kept, in rising order, and `r` what stands there. */
  ghost predicate Picks(ms: seq<Message>, keep: seq<bool>, n: nat, at: seq<nat>, r: seq<Message>)
    requires |keep| == |ms| && n <= |ms|
  {
    && |r| == |at|
    && (forall p | 0 <= p < |at| :: at[p] < n && keep[at[p]] && r[p] == ms[at[p]])
    && (forall p, q | 0 <= p < q < |at| :: at[p] < at[q])
    && (forall i | 0 <= i < n && keep[i] :: i in at)
  }

  lemma PickNext(ms: seq<Message>, keep: seq<bool>, n: nat, at: seq<nat>, r: seq<Message>)
    requires |keep| == |ms| && n < |ms| && Picks(ms, keep, n, at, r) && keep[n]
    ensures Picks(ms, keep, n + 1, at + [n], r + [ms[n]])
  {
    var at' := at + [n];
    forall i | 0 <= i < n + 1 && keep[i] ensures i in at' {
      assert i == n ==> at'[|at|] == i;
      assert i < n ==> i in at;
    }
  }

  lemma PickSkip(ms: seq<Message>, keep: seq<bool>, n: nat, at: seq<nat>, r: seq<Message>)
    requires |keep| == |ms| && n < |ms| && Picks(ms, keep, n, at, r) && !keep[n]
    ensures Picks(ms, keep, n + 1, at, r)
  {
  }

  lemma {:induction false} SelectPicks(ms: seq<Message>, keep: seq<bool>, n: nat) returns (at: seq<nat>)
    requires |keep| == |ms| && n <= |ms|
    ensures Picks(ms, keep, n, at, SelectTo(ms, keep, n))
  {
    if n == 0 {
      at := [];
    } else {
      at := SelectPicks(ms, keep, n - 1);
      if keep[n - 1] {
        PickNext(ms, keep, n - 1, at, SelectTo(ms, keep, n - 1));
        at := at + [n - 1];
      } else {
        PickSkip(ms, keep, n - 1, at, SelectTo(ms, keep, n - 1));
        assert SelectTo(ms, keep, n) == SelectTo(ms, keep, n - 1);
      }
    }
  }

  /** The result is exactly the kept messages of the rewritten list, each once and in their order. */
  lemma FittedInOrder(ms: seq<Message>, budget: int, salience: Salience) returns (at: seq<nat>)
    ensures Picks(Rewritten(ms, budget, salience), Kept(ms, budget, salience), |ms|, at, Fitted(ms, budget, salience))
  {
    FittedIsSelection(ms, budget, salience);
    at := SelectPicks(Rewritten(ms, budget, salience), Kept(ms, budget, salience), |ms|);
  }

  /** The result is exactly the kept positions of the rewritten list, in order. */
  lemma FittedIsSelection(ms: seq<Message>, budget: int, salience: Salience)
    ensures Fitted(ms, budget, salience) == Select(Rewritten(ms, budget, salience), Kept(ms, budget, salience))
  {
    if Total(ms, All(|ms|)) <= budget {
      AllKept(ms);
      SelectAll(ms, KeepBelow(ms, HIGHEST + 1), |ms|);
    }
  }

  lemma {:induction false} SelectedThere(ms: seq<Message>, keep: seq<bool>, n: nat, i: nat)
    requires |keep| == |ms| && i < n <= |ms| && keep[i]
    ensures ms[i] in SelectTo(ms, keep, n)
  {
    if i < n - 1 {
      SelectedThere(ms, keep, n - 1, i);
    }
  }

  /** System messages and multi-part messages survive every budget, unchanged. */
  lemma AnchorsSurvive(ms: seq<Message>, budget: int, salience: Salience, i: nat)
    requires i < |ms| && (ms[i].role == System || ms[i].content.Parts?)
    ensures Kept(ms, budget, salience)[i] && ms[i] in Fitted(ms, budget, salience)
  {
    FittedIsSelection(ms, budget, salience);
    assert Rewritten(ms, budget, salience)[i] == ms[i];
    SelectedThere(Rewritten(ms, budget, salience), Kept(ms, budget, salience), |ms|, i);
  }

  /** Block `j` takes the last message along when it goes: it has it as its acknowledgement, and is not a
      user-state block whose acknowledgement the saliences shorten instead. */
  predicate TakesLast(ms: seq<Message>, salience: Salience, j: nat)
    requires j < |ms|
  {
    && TierAt(ms, j) >= 1 && AckIndex(ms, j) == Some(|ms| - 1)
    && !(TierAt(ms, j) == 1 && salience.Some? && Rebuild(salience.value, ms[|ms| - 1]).Shortened?)
  }

  predicate LastIsSafe(ms: seq<Message>, salience: Salience)
  {
    forall j | 0 <= j < |ms| :: !TakesLast(ms, salience, j)
  }

  ghost predicate LastAlwaysKept(ms: seq<Message>, salience: Salience)
    requires ms != []
  {
    forall budget: int :: LastKept(ms, budget, salience)
  }

  predicate LastKept(ms: seq<Message>, budget: int, salience: Salience)
    requires ms != []
  {
    Kept(ms, budget, salience)[|ms| - 1]
  }

  lemma SafeAtCut(ms: seq<Message>, salience: Salience, t: nat)
    requires ms != [] && LastIsSafe(ms, salience) && t >= 1 && Goes(ms, t, |ms| - 1)
    ensures t == 1 && salience.Some? && HasTier(ms, 1)
  {
    assert TierAt(ms, |ms| - 1) == 0;
    var j :| 0 <= j < |ms| && TierAt(ms, j) >= t && AckIndex(ms, j) == Some(|ms| - 1);
    assert !TakesLast(ms, salience, j);
  }

  lemma SafeInPart(ms: seq<Message>, salience: string -> Rebuilt)
    requires ms != [] && LastIsSafe(ms, Some(salience))
    ensures PartialKeep(ms, salience)[|ms| - 1]
  {
    var last := |ms| - 1;
    assert TierAt(ms, last) == 0;
    if GoesAt(ms, 1, last) {
      var j :| 0 <= j < |ms| && TierAt(ms, j) == 1 && AckIndex(ms, j) == Some(last);
      assert !TakesLast(ms, Some(salience), j);
    } else if Goes(ms, 2, last) {
      SafeAtCut(ms, Some(salience), 2);
    }
  }

  lemma SafeIsKept(ms: seq<Message>, budget: int, salience: Salience)
    requires ms != [] && LastIsSafe(ms, salience)
    ensures Kept(ms, budget, salience)[|ms| - 1]
  {
    if Partial(ms, budget, salience) {
      SafeInPart(ms, salience.value);
    } else if Goes(ms, Cut(ms, budget), |ms| - 1) {
      SafeAtCut(ms, salience, Cut(ms, budget));
    }
  }

  /** A smaller selection that leaves out `i` costs less. */
  lemma {:induction false} CostsLess(ms: seq<Message>, less: seq<bool>, more: seq<bool>, n: nat, i: nat)
    requires |less| == |more| == |ms| && n <= |ms| && i < |ms| && !less[i] && more[i]
    requires forall k | 0 <= k < |ms| :: less[k] ==> more[k]
    ensures TotalTo(ms, less, n) + (if i < n then 1 else 0) <= TotalTo(ms, more, n)
  {
    if n > 0 {
      CostsLess(ms, less, more, n - 1, i);
    }
  }

  /** With exactly the budget that dropping tier `u` and above needs, whatever goes with that tier is gone. */
  lemma GoneAt(ms: seq<Message>, salience: Salience, u: nat, i: nat)
    requires 2 <= u <= HIGHEST && i < |ms| && Goes(ms, u, i)
    ensures !Kept(ms, Total(ms, KeepBelow(ms, u)), salience)[i]
  {
    var budget := Total(ms, KeepBelow(ms, u));
    CostsLess(ms, KeepBelow(ms, u), All(|ms|), |ms|, i);
    var t := Cut(ms, budget);
    assert Fits(ms, budget, u);
    assert t == Threshold(ms, budget, HIGHEST) >= u;
    if !Goes(ms, t, i) {
      CostsLess(ms, KeepBelow(ms, u), KeepBelow(ms, t), |ms|, i);
    }
  }

  /** With nothing allowed, a user-state block's acknowledgement that saliences do not shorten is gone. */
  lemma GoneAtNothing(ms: seq<Message>, salience: Salience, j: nat, i: nat)
    requires j < |ms| && i < |ms| && TierAt(ms, j) == 1 && AckIndex(ms, j) == Some(i)
    requires salience.None? || !Rebuild(salience.value, ms[i]).Shortened?
    ensures !Kept(ms, -1, salience)[i]
  {
    assert Threshold(ms, -1, HIGHEST) == 1;
    assert HasTier(ms, 1) && GoesAt(ms, 1, i) && Goes(ms, 1, i);
  }

  lemma UnsafeIsLost(ms: seq<Message>, salience: Salience, j: nat) returns (budget: int)
    requires j < |ms| && TakesLast(ms, salience, j)
    ensures !LastKept(ms, budget, salience)
  {
    if TierAt(ms, j) >= 2 {
      budget := Total(ms, KeepBelow(ms, TierAt(ms, j)));
      GoneAt(ms, salience, TierAt(ms, j), |ms| - 1);
    } else {
      budget := -1;
      GoneAtNothing(ms, salience, j, |ms| - 1);
    }
  }

  lemma NoAckIsSafe(ms: seq<Message>, salience: Salience)
    requires ms != [] && !IsAck(ms[|ms| - 1])
    ensures LastIsSafe(ms, salience)
  {
  }

  /** The last message survives every budget if and only if no block takes it along. */
  lemma LastSurvives(ms: seq<Message>, salience: Salience)
    requires ms != []
    ensures LastAlwaysKept(ms, salience) <==> LastIsSafe(ms, salience)
    ensures !IsAck(ms[|ms| - 1]) ==> LastIsSafe(ms, salience)
  {
    if !IsAck(ms[|ms| - 1]) {
      NoAckIsSafe(ms, salience);
    }
    if LastIsSafe(ms, salience) {
      forall budget: int ensures LastKept(ms, budget, salience) {
        SafeIsKept(ms, budget, salience);
      }
    } else {
      var j :| 0 <= j < |ms| && TakesLast(ms, salience, j);
      var budget := UnsafeIsLost(ms, salience, j);
    }
  }

  /** A final acknowledgement is lost with its block when even the smallest selection is too big. */
  lemma LastAcknowledgementLost(ms: seq<Message>, budget: int, j: nat)
    requires j < |ms| && TierAt(ms, j) >= 1 && AckIndex(ms, j) == Some(|ms| - 1)
    requires TooMuch(ms, budget, 1)
    ensures !Kept(ms, budget, None)[|ms| - 1]
  {
    AllKept(ms);
    assert !Fits(ms, budget, HIGHEST + 1);
    assert Goes(ms, 1, |ms| - 1);
  }

  /** A block that is no acknowledgement itself loses its place to its kept acknowledgement exactly when
      the last tier is dropped in part and the saliences shorten the acknowledgement and not the block. */
  lemma AcknowledgementsPaired(ms: seq<Message>, budget: int, salience: Salience, j: nat)
    requires j < |ms| && AckIndex(ms, j).Some? && !IsAck(ms[j])
    ensures var ack := AckIndex(ms, j).value;
      Kept(ms, budget, salience)[ack] && !Kept(ms, budget, salience)[j] <==>
        && Partial(ms, budget, salience) && TierAt(ms, j) >= 1
        && Salvaged(ms, salience.value, ack) && !Salvaged(ms, salience.value, j)
  {
    var ack := AckIndex(ms, j).value;
    if TierAt(ms, j) == 1 {
      assert GoesAt(ms, 1, ack);
    } else if TierAt(ms, j) >= 2 {
      assert Goes(ms, 2, ack);
    }
  }

  /** `i` has `j` as its acknowledgement and is dropped before anything that takes `ack` along. */
  predicate GoesFirst(ms: seq<Message>, i: nat, j: nat, ack: nat)
    requires i < |ms| && j < |ms| && ack < |ms|
  {
    && AckIndex(ms, i) == Some(j) && TierAt(ms, ack) < TierAt(ms, i)
    && forall k | 0 <= k < |ms| && AckIndex(ms, k) == Some(ack) :: TierAt(ms, k) < TierAt(ms, i)
  }

  ghost predicate StaysAlone(ms: seq<Message>, j: nat, ack: nat)
    requires j < |ms| && ack < |ms|
  {
    exists budget: int :: Kept(ms, budget, None)[ack] && !Kept(ms, budget, None)[j]
  }

  lemma FirstGoesAlone(ms: seq<Message>, i: nat, j: nat, ack: nat)
    requires i < |ms| && j < |ms| && AckIndex(ms, j) == Some(ack) && GoesFirst(ms, i, j, ack)
    ensures StaysAlone(ms, j, ack)
  {
    var u := TierAt(ms, i);
    assert TierAt(ms, j) >= 1 && Goes(ms, u, j);
    var budget := Total(ms, KeepBelow(ms, u));
    GoneAt(ms, None, u, j);
    assert Fits(ms, budget, u);
    assert Cut(ms, budget) >= u;
    assert Kept(ms, budget, None)[ack];
  }

  /** Without saliences, whole tiers: some budget keeps an acknowledgement without what it acknowledges if and
      only if that is an acknowledgement itself, of a block dropped before anything that takes the other along. */
  lemma AcknowledgementAlone(ms: seq<Message>, j: nat)
    requires j < |ms| && AckIndex(ms, j).Some?
    ensures var ack := AckIndex(ms, j).value;
      StaysAlone(ms, j, ack) <==> exists i | 0 <= i < |ms| :: GoesFirst(ms, i, j, ack)
  {
    var ack := AckIndex(ms, j).value;
    if StaysAlone(ms, j, ack) {
      var budget: int :| Kept(ms, budget, None)[ack] && !Kept(ms, budget, None)[j];
      var t := Cut(ms, budget);
      assert TierAt(ms, j) < t;
      var i :| 0 <= i < |ms| && TierAt(ms, i) >= t && AckIndex(ms, i) == Some(j);
      assert GoesFirst(ms, i, j, ack);
    }
    if i :| 0 <= i < |ms| && GoesFirst(ms, i, j, ack) {
      FirstGoesAlone(ms, i, j, ack);
    }
  }

  /** If the result still exceeds the budget, only tier-0 messages are left. */
  lemma {:induction false} OnlyAnchorsLeft(ms: seq<Message>, budget: int, salience: Salience, m: Message)
    requires WholeTiers(ms, salience)
    requires Total(Fitted(ms, budget, salience), All(|Fitted(ms, budget, salience)|)) > budget
    requires m in Fitted(ms, budget, salience)
    ensures exists i | 0 <= i < |ms| :: ms[i] == m && TierAt(ms, i) == 0
  {
    var t := GreedyAndMinimal(ms, budget, salience);
    TotalSelected(ms, KeepBelow(ms, t), |ms|);
    var i := Origin(ms, KeepBelow(ms, t), |ms|, m);
    assert TierAt(ms, i) == 0;
  }

  lemma {:induction false} Origin(ms: seq<Message>, keep: seq<bool>, n: nat, m: Message) returns (i: nat)
    requires |keep| == |ms| && n <= |ms| && m in SelectTo(ms, keep, n)
    ensures i < n && keep[i] && ms[i] == m
  {
    if keep[n - 1] && ms[n - 1] == m {
      i := n - 1;
    } else {
      i := Origin(ms, keep, n - 1, m);
    }
  }

  /** A selection on its own costs what the selected messages cost in place. */
  lemma {:induction false} TotalSelected(ms: seq<Message>, keep: seq<bool>, n: nat)
    requires |keep| == |ms| && n <= |ms|
    ensures var r := SelectTo(ms, keep, n); Total(r, All(|r|)) == TotalTo(ms, keep, n)
  {
    if n > 0 {
      TotalSelected(ms, keep, n - 1);
      var r := SelectTo(ms, keep, n - 1);
      if keep[n - 1] {
        TotalPrefix(r, ms[n - 1], |r|);
      } else {
        assert SelectTo(ms, keep, n) == r;
      }
    }
  }

  lemma {:induction false} TotalPrefix(r: seq<Message>, m: Message, n: nat)
    requires n <= |r|
    ensures TotalTo(r + [m], All(|r| + 1), n) == TotalTo(r, All(|r|), n)
  {
    if n > 0 {
      TotalPrefix(r, m, n - 1);
    }
  }

  /** Whatever is selected after the last position keeps its place at the end. */
  lemma {:induction false} Selected(ms: seq<Message>, keep: seq<bool>, n: nat, p: nat)
    requires |keep| == |ms| && n <= |ms| && p < |SelectTo(ms, keep, n)|
    ensures exists i | 0 <= i < n :: keep[i] && SelectTo(ms, keep, n)[p] == ms[i] &&
                                    (i == n - 1 ==> p == |SelectTo(ms, keep, n)| - 1)
  {
    var r := SelectTo(ms, keep, n - 1);
    if p < |r| {
      Selected(ms, keep, n - 1, p);
      var i :| 0 <= i < n - 1 && keep[i] && r[p] == ms[i];
      assert SelectTo(ms, keep, n)[p] == ms[i];
    } else {
      assert keep[n - 1] && SelectTo(ms, keep, n)[p] == ms[n - 1];
    }
  }

  lemma NothingDroppable(r: seq<Message>, t: nat)
    requires t >= 1 && forall p | 0 <= p < |r| :: TierAt(r, p) == 0
    ensures Select(r, KeepBelow(r, t)) == r
  {
    assert forall p | 0 <= p < |r| :: KeepBelow(r, t)[p];
    SelectAll(r, KeepBelow(r, t), |r|);
  }

  /** A second application changes nothing. */
  lemma Idempotent(ms: seq<Message>, budget: int, salience: Salience)
    requires WholeTiers(ms, salience)
    ensures Fitted(Fitted(ms, budget, salience), budget, salience) == Fitted(ms, budget, salience)
  {
    IdempotentWithoutSalience(ms, budget);
    var r := Fitted(ms, budget, None);
    assert Fitted(ms, budget, salience) == r;
    if !HasTier(ms, 1) {
      NoTierAppears(ms, budget);
    }
  }

  /** What is left of messages without a tier-1 block has none either. */
  lemma {:induction false} NoTierAppears(ms: seq<Message>, budget: int)
    requires !HasTier(ms, 1)
    ensures !HasTier(Fitted(ms, budget, None), 1)
  {
    var t := GreedyAndMinimal(ms, budget, None);
    var keep := KeepBelow(ms, t);
    var r := Fitted(ms, budget, None);
    forall p | 0 <= p < |r| ensures TierAt(r, p) != 1 {
      Selected(ms, keep, |ms|, p);
      var i :| 0 <= i < |ms| && keep[i] && r[p] == ms[i] && (i == |ms| - 1 ==> p == |r| - 1);
      assert TierAt(ms, i) != 1;
    }
  }

  lemma {:induction false} IdempotentWithoutSalience(ms: seq<Message>, budget: int)
    ensures Fitted(Fitted(ms, budget, None), budget, None) == Fitted(ms, budget, None)
  {
    var t := GreedyAndMinimal(ms, budget, None);
    var keep := KeepBelow(ms, t);
    var r := Fitted(ms, budget, None);
    TotalSelected(ms, keep, |ms|);
    if Total(r, All(|r|)) > budget {
      assert t == 1;
      forall p | 0 <= p < |r| ensures TierAt(r, p) == 0 {
        Selected(ms, keep, |ms|, p);
        var i :| 0 <= i < |ms| && keep[i] && r[p] == ms[i] && (i == |ms| - 1 ==> p == |r| - 1);
        assert TierAt(ms, i) == 0;
      }
      NothingDroppable(r, Threshold(r, budget, HIGHEST));
    }
  }

  // ---- applying it twice ----

  /** A salience filter finds nothing more to remove in what it has shortened. */
  ghost predicate Settling(salience: Salience)
  {
    salience.Some? ==> forall s: string :: SettlesOn(salience.value, s)
  }

  predicate SettlesOn(salience: string -> Rebuilt, s: string)
  {
    salience(s).Shortened? ==> !salience(salience(s).text).Shortened?
  }

  lemma {:induction false} SelectShorter(ms: seq<Message>, keep: seq<bool>, n: nat, q: nat)
    requires |keep| == |ms| && q < n <= |ms| && !keep[q]
    ensures |SelectTo(ms, keep, n)| < n
  {
    if q < n - 1 {
      SelectShorter(ms, keep, n - 1, q);
    } else {
      SelectAtMost(ms, keep, n - 1);
    }
  }

  lemma {:induction false} SelectAtMost(ms: seq<Message>, keep: seq<bool>, n: nat)
    requires |keep| == |ms| && n <= |ms|
    ensures |SelectTo(ms, keep, n)| <= n
  {
    if n > 0 {
      SelectAtMost(ms, keep, n - 1);
    }
  }

  /** What is too much and holds something droppable loses something. */
  lemma WholeDropShortens(r: seq<Message>, budget: int, salience: Salience, p: nat)
    requires Total(r, All(|r|)) > budget && p < |r| && TierAt(r, p) >= 1 && !Partial(r, budget, salience)
    ensures |Fitted(r, budget, salience)| < |r|
  {
    FittedIsSelection(r, budget, salience);
    var q := NotAllKept(r, budget, salience, p);
    SelectShorter(r, Kept(r, budget, salience), |r|, q);
  }

  lemma NotAllKept(r: seq<Message>, budget: int, salience: Salience, p: nat) returns (q: nat)
    requires Total(r, All(|r|)) > budget && p < |r| && TierAt(r, p) >= 1 && !Partial(r, budget, salience)
    ensures q < |r| && !Kept(r, budget, salience)[q]
  {
    var t := Cut(r, budget);
    if t == 1 {
      q := p;
    } else {
      assert Fits(r, budget, t);
      assert KeepBelow(r, t) != All(|r|);
      q :| 0 <= q < |r| && KeepBelow(r, t)[q] != All(|r|)[q];
    }
  }

  /** A user-state block left by a partial drop has been shortened, and is dropped by the next one. */
  lemma PartialDropShortens(ms: seq<Message>, budget: int, salience: Salience)
    requires Partial(ms, budget, salience) && Settling(salience)
    requires Partial(Fitted(ms, budget, salience), budget, salience)
    ensures var r := Fitted(ms, budget, salience); |Fitted(r, budget, salience)| < |r|
  {
    var r := Fitted(ms, budget, salience);
    var q :| 0 <= q < |r| && TierAt(r, q) == 1;
    LeftBlockIsShortened(ms, r, salience.value, q);
    assert !PartialKeep(r, salience.value)[q];
    FittedIsSelection(r, budget, salience);
    SelectShorter(PartialMessages(r, salience.value), PartialKeep(r, salience.value), |r|, q);
  }

  lemma LeftBlockIsShortened(ms: seq<Message>, r: seq<Message>, salience: string -> Rebuilt, q: nat)
    requires r == Select(PartialMessages(ms, salience), PartialKeep(ms, salience)) && Settling(Some(salience))
    requires q < |r| && TierAt(r, q) == 1
    ensures !Rebuild(salience, r[q]).Shortened?
  {
    var rewritten, kept := PartialMessages(ms, salience), PartialKeep(ms, salience);
    Selected(rewritten, kept, |ms|, q);
    var i :| 0 <= i < |ms| && kept[i] && r[q] == rewritten[i] && (i == |ms| - 1 ==> q == |r| - 1);
    assert Salvaged(ms, salience, i);
    assert SettlesOn(salience, match ms[i].content case Text(s) => s case _ => "");
  }

  /** With any saliences that settle, a second application changes nothing if and only if the first one's
      result fits or holds nothing droppable. */
  lemma IdempotentExactly(ms: seq<Message>, budget: int, salience: Salience)
    requires Settling(salience)
    ensures var r := Fitted(ms, budget, salience);
      Fitted(r, budget, salience) == r <==> Total(r, All(|r|)) <= budget || forall p | 0 <= p < |r| :: TierAt(r, p) == 0
  {
    var r := Fitted(ms, budget, salience);
    if Total(r, All(|r|)) <= budget {
    } else if p :| 0 <= p < |r| && TierAt(r, p) != 0 {
      if !Partial(r, budget, salience) {
        WholeDropShortens(r, budget, salience, p);
      } else if Partial(ms, budget, salience) {
        PartialDropShortens(ms, budget, salience);
      } else {
        NoneLeftWhole(ms, budget, salience, p);
      }
    } else {
      NothingDroppable(r, Threshold(r, budget, HIGHEST));
    }
  }

  /** Without a partial drop, a result that is still too much holds nothing droppable. */
  lemma NoneLeftWhole(ms: seq<Message>, budget: int, salience: Salience, p: nat)
    requires !Partial(ms, budget, salience)
    requires var r := Fitted(ms, budget, salience); Total(r, All(|r|)) > budget && p < |r|
    ensures TierAt(Fitted(ms, budget, salience), p) == 0
  {
    var r, keep := Fitted(ms, budget, salience), Kept(ms, budget, salience);
    FittedIsSelection(ms, budget, salience);
    TotalSelected(ms, keep, |ms|);
    AllKept(ms);
    Selected(ms, keep, |ms|, p);
    var i :| 0 <= i < |ms| && keep[i] && r[p] == ms[i] && (i == |ms| - 1 ==> p == |r| - 1);
    assert Cut(ms, budget) == 1;
    assert TierAt(ms, i) == 0;
  }

  /** With saliences a second application can drop a block the first one had only shortened. */
  lemma {:induction false} PartialDropNotIdempotent(state: string, short: string, question: string, salience: string -> Rebuilt)
    requires TextTier(state) == TextTier(short) == 1
    requires salience(state) == Shortened(short) && salience(short) == Unchanged
    ensures var ms := Pair(state, Message(User, Text(question)));
      && Fitted(ms, 0, Some(salience)) == Pair(short, Message(User, Text(question)))
      && Fitted(Fitted(ms, 0, Some(salience)), 0, Some(salience)) == [Message(User, Text(question))]
  {
    PartialOnPair(state, Message(User, Text(question)), salience);
    PartialOnPair(short, Message(User, Text(question)), salience);
  }

  function Pair(state: string, last: Message): seq<Message>
  {
    [Message(User, Text(state)), last]
  }

  lemma PairTiers(state: string, last: Message)
    requires TextTier(state) == 1 && last.role == User
    ensures var ms := Pair(state, last);
      && TierAt(ms, 0) == 1 && TierAt(ms, 1) == 0 && HasTier(ms, 1)
      && forall j | 0 <= j < |ms| :: AckIndex(ms, j) == None
  {
    var ms := Pair(state, last);
    assert TierAt(ms, 0) == 1;
  }

  lemma PairTooMuch(state: string, last: Message)
    requires TextTier(state) == 1 && last.role == User
    ensures TooMuch(Pair(state, last), 0, 1)
  {
    var ms := Pair(state, last);
    PairTiers(state, last);
    forall u | 1 <= u <= HIGHEST + 1 ensures !Fits(ms, 0, u) {
      var keep := KeepBelow(ms, u);
      assert keep[1] && TotalTo(ms, keep, 2) == TotalTo(ms, keep, 1) + Cost(last);
    }
  }

  lemma {:induction false} PartialOnPair(state: string, last: Message, salience: string -> Rebuilt)
    requires TextTier(state) == 1 && last.role == User
    ensures Fitted(Pair(state, last), 0, Some(salience)) ==
      match salience(state)
      case Shortened(s) => [Message(User, Text(s)), last]
      case _ => [last]
  {
    var ms := Pair(state, last);
    PairTiers(state, last);
    PairTooMuch(state, last);
    AllKept(ms);
    assert !Fits(ms, 0, HIGHEST + 1);
    FittedAt(ms, 0, Some(salience), 1);
    PairSelected(state, last, salience);
  }

  lemma {:induction false} PairSelected(state: string, last: Message, salience: string -> Rebuilt)
    requires TextTier(state) == 1 && last.role == User
    ensures Select(PartialMessages(Pair(state, last), salience), PartialKeep(Pair(state, last), salience)) ==
      match salience(state)
      case Shortened(s) => [Message(User, Text(s)), last]
      case _ => [last]
  {
    var ms := Pair(state, last);
    PairTiers(state, last);
    var keep, rebuilt := PartialKeep(ms, salience), PartialMessages(ms, salience);
    assert GoesAt(ms, 1, 0) && !GoesAt(ms, 1, 1) && !Goes(ms, 2, 1);
    assert keep[1] && rebuilt[1] == last;
    assert SelectTo(rebuilt, keep, 1) == if keep[0] then [rebuilt[0]] else [];
    assert SelectTo(rebuilt, keep, 2) == SelectTo(rebuilt, keep, 1) + [last];
  }
}
