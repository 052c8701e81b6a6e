/** What the context budget comes to in characters and headers: how much text a request may carry, and which
    block goes first. */
module ContextBudgetBounds {
  import opened Basics
  import opened ContextBudget
  import opened ContextBudgetLaws

  // ---- the size of a request ----

  /** The characters of a message, as it is printed. */
  function Characters(m: Message): nat
  {
    match m.content
    case Text(s) => |s|
    case Parts(n) => n
    case Absent => 0
  }

  /** A quarter of the characters of the first `n` messages, each rounded down. */
  function Quarters(ms: seq<Message>, n: nat): nat
    requires n <= |ms|
  {
    if n == 0 then 0 else Quarters(ms, n - 1) + Characters(ms[n - 1]) / 4
  }

  /** The same with at least one for each message. */
  function Estimate(ms: seq<Message>, n: nat): nat
    requires n <= |ms|
  {
    if n == 0 then 0
    else
      var q := Characters(ms[n - 1]) / 4;
      Estimate(ms, n - 1) + if q == 0 then 1 else q
  }

  lemma {:induction false} EstimateBounds(ms: seq<Message>, n: nat)
    requires n <= |ms|
    ensures Quarters(ms, n) <= Estimate(ms, n) <= Quarters(ms, n) + n && n <= Estimate(ms, n)
  {
    if n > 0 {
      EstimateBounds(ms, n - 1);
    }
  }

  lemma {:induction false} TotalIsEstimate(ms: seq<Message>, n: nat)
    requires n <= |ms|
    ensures TotalTo(ms, All(|ms|), n) == Estimate(ms, n)
  {
    if n > 0 {
      TotalIsEstimate(ms, n - 1);
    }
  }

  /** Nobody may drop it: the last message, a system message, or one of several parts. */
  predicate Anchored(ms: seq<Message>, i: nat)
    requires i < |ms|
  {
    i == |ms| - 1 || ms[i].role == System || ms[i].content.Parts?
  }

  ghost predicate OnlyAnchors(ms: seq<Message>, r: seq<Message>)
  {
    forall m | m in r :: exists i | 0 <= i < |ms| :: ms[i] == m && Anchored(ms, i)
  }

  /** What the window leaves for the messages, beside the output and a tenth of reserve. */
  predicate Leaves(window: nat, maxOutput: int, budget: int)
  {
    budget + maxOutput + window / 10 == window
  }

  /** What a request carries fits that, unless only messages are left that nobody may drop, or user-state blocks
      were shortened. */
  lemma WindowBound(ms: seq<Message>, window: nat, maxOutput: int, budget: int, salience: Salience)
    requires Leaves(window, maxOutput, budget)
    ensures var r := Fitted(ms, budget, salience);
      || Quarters(r, |r|) <= Estimate(r, |r|) <= window - maxOutput - window / 10
      || OnlyAnchors(ms, r)
      || (salience.Some? && HasTier(ms, 1))
  {
    var r := Fitted(ms, budget, salience);
    TotalIsEstimate(r, |r|);
    EstimateBounds(r, |r|);
    if WholeTiers(ms, salience) && Total(r, All(|r|)) > budget {
      forall m | m in r ensures exists i | 0 <= i < |ms| :: ms[i] == m && Anchored(ms, i) {
        OnlyAnchorsLeft(ms, budget, salience, m);
        var i :| 0 <= i < |ms| && ms[i] == m && TierAt(ms, i) == 0;
        assert Anchored(ms, i);
      }
    }
  }

  /** With saliences and user-state blocks: what goes in part is the last resort, after everything of any other
      tier has gone. */
  lemma PartialIsLast(ms: seq<Message>, window: nat, maxOutput: int, budget: int, salience: Salience)
    requires Leaves(window, maxOutput, budget) && salience.Some? && HasTier(ms, 1)
    ensures !Partial(ms, budget, salience) ==> var r := Fitted(ms, budget, salience); Estimate(r, |r|) <= window - maxOutput - window / 10
    ensures Partial(ms, budget, salience) ==>
      forall i | 0 <= i < |ms| && TierAt(ms, i) >= 2 :: Salvaged(ms, salience.value, i) || !Kept(ms, budget, salience)[i]
  {
    var r := Fitted(ms, budget, salience);
    TotalIsEstimate(r, |r|);
    if !Partial(ms, budget, salience) && Total(ms, All(|ms|)) > budget {
      TotalSelected(ms, KeepBelow(ms, Threshold(ms, budget, HIGHEST)), |ms|);
    }
  }

  /** A request within the window is sent as it is. */
  lemma WithinWindow(ms: seq<Message>, window: nat, maxOutput: int, budget: int, salience: Salience)
    requires Leaves(window, maxOutput, budget) && Estimate(ms, |ms|) <= window - maxOutput - window / 10
    ensures Fitted(ms, budget, salience) == ms
  {
    TotalIsEstimate(ms, |ms|);
  }

  /** One that exceeds it, with anything to drop, loses something, or has a block shortened. */
  lemma OverWindow(ms: seq<Message>, window: nat, maxOutput: int, budget: int, salience: Salience, i: nat)
    requires Leaves(window, maxOutput, budget) && Estimate(ms, |ms|) > window - maxOutput - window / 10
    requires i < |ms| && !Anchored(ms, i)
    ensures |Fitted(ms, budget, salience)| < |ms| || Partial(ms, budget, salience)
  {
    TotalIsEstimate(ms, |ms|);
    if !Partial(ms, budget, salience) {
      WholeDropShortens(ms, budget, salience, i);
    }
  }

  // ---- headers ----

  lemma {:induction false} MatchesAt(prefixes: seq<Prefix>, s: string, i: nat)
    requires i < |prefixes| && prefixes[i].text <= s && forall k | 0 <= k < i :: !(prefixes[k].text <= s)
    ensures Match(prefixes, s) == prefixes[i].tier
    decreases i
  {
    if i > 0 {
      MatchesAt(prefixes[1..], s, i - 1);
    }
  }

  lemma {:induction false} MatchesNone(prefixes: seq<Prefix>, s: string)
    requires forall k | 0 <= k < |prefixes| :: !(prefixes[k].text <= s)
    ensures Match(prefixes, s) == 6
  {
    if prefixes != [] {
      MatchesNone(prefixes[1..], s);
    }
  }

  /** The character that tells a header from most others. */
  lemma SecondLetters()
    ensures |PREFIXES| == 10 && forall k | 0 <= k < 10 :: |PREFIXES[k].text| > 7
    ensures PREFIXES[0].text[1] == 'L' && PREFIXES[1].text[1] == 'F' && PREFIXES[2].text[1] == 'R'
    ensures PREFIXES[3].text[1] == 'E' && PREFIXES[4].text[1] == 'G' && PREFIXES[5].text[1] == 'G'
    ensures PREFIXES[6].text[1] == 'A' && PREFIXES[7].text[1] == 'R' && PREFIXES[8].text[1] == 'P'
    ensures PREFIXES[9].text[1] == 'U'
  {
  }

  lemma LastSessionHeader(s: string)
    requires "[LAST SESSION]" <= s
    ensures TextTier(s) == 8
  {
    MatchesAt(PREFIXES, s, 0);
  }

  lemma FileContextHeader(s: string)
    requires "[FILE CONTEXT]" <= s
    ensures TextTier(s) == 7
  {
    SecondLetters();
    assert s[1] == 'F';
    MatchesAt(PREFIXES, s, 1);
  }

  lemma RelevantContextHeader(s: string)
    requires "[RELEVANT CONTEXT" <= s
    ensures TextTier(s) == 6
  {
    SecondLetters();
    assert s[1] == 'R';
    MatchesAt(PREFIXES, s, 2);
  }

  lemma EarlierHeader(s: string)
    requires "[EARLIER IN THIS CONVERSATION]" <= s
    ensures TextTier(s) == 5
  {
    SecondLetters();
    assert s[1] == 'E';
    MatchesAt(PREFIXES, s, 3);
  }

  lemma GraphContextHeader(s: string)
    requires "[GRAPH CONTEXT]" <= s
    ensures TextTier(s) == 4
  {
    SecondLetters();
    assert s[1] == 'G';
    MatchesAt(PREFIXES, s, 4);
  }

  lemma GraphFactsHeader(s: string)
    requires "[GRAPH FACTS]" <= s
    ensures TextTier(s) == 4
  {
    SecondLetters();
    assert s[1] == 'G';
    assert s[7] == 'F' && PREFIXES[4].text[7] == 'C';
    MatchesAt(PREFIXES, s, 5);
  }

  lemma ActiveGoalsHeader(s: string)
    requires "[ACTIVE GOALS]" <= s
    ensures TextTier(s) == 3
  {
    SecondLetters();
    assert s[1] == 'A';
    MatchesAt(PREFIXES, s, 6);
  }

  lemma RecentInsightsHeader(s: string)
    requires "[RECENT INSIGHTS]" <= s
    ensures TextTier(s) == 2
  {
    SecondLetters();
    assert s[1] == 'R';
    assert s[3] == 'C' && PREFIXES[2].text[3] == 'L';
    MatchesAt(PREFIXES, s, 7);
  }

  lemma ProjectStateHeader(s: string)
    requires "[PROJECT STATE]" <= s
    ensures TextTier(s) == 2
  {
    SecondLetters();
    assert s[1] == 'P';
    MatchesAt(PREFIXES, s, 8);
  }

  lemma UserStateHeader(s: string)
    requires "[USER STATE]" <= s
    ensures TextTier(s) == 1
  {
    SecondLetters();
    assert s[1] == 'U';
    MatchesAt(PREFIXES, s, 9);
  }

  /** The headers by rank, the first to be dropped first; an unmarked text ranks with the retrieved context. */
  lemma HeaderTiers(s: string)
    ensures "[LAST SESSION]" <= s ==> TextTier(s) == 8
    ensures "[FILE CONTEXT]" <= s ==> TextTier(s) == 7
    ensures "[RELEVANT CONTEXT" <= s ==> TextTier(s) == 6
    ensures "[EARLIER IN THIS CONVERSATION]" <= s ==> TextTier(s) == 5
    ensures "[GRAPH CONTEXT]" <= s || "[GRAPH FACTS]" <= s ==> TextTier(s) == 4
    ensures "[ACTIVE GOALS]" <= s ==> TextTier(s) == 3
    ensures "[RECENT INSIGHTS]" <= s || "[PROJECT STATE]" <= s ==> TextTier(s) == 2
    ensures "[USER STATE]" <= s ==> TextTier(s) == 1
    ensures !("[" <= s) ==> TextTier(s) == 6
  {
    if "[LAST SESSION]" <= s { LastSessionHeader(s); }
    if "[FILE CONTEXT]" <= s { FileContextHeader(s); }
    if "[RELEVANT CONTEXT" <= s { RelevantContextHeader(s); }
    if "[EARLIER IN THIS CONVERSATION]" <= s { EarlierHeader(s); }
    if "[GRAPH CONTEXT]" <= s { GraphContextHeader(s); }
    if "[GRAPH FACTS]" <= s { GraphFactsHeader(s); }
    if "[ACTIVE GOALS]" <= s { ActiveGoalsHeader(s); }
    if "[RECENT INSIGHTS]" <= s { RecentInsightsHeader(s); }
    if "[PROJECT STATE]" <= s { ProjectStateHeader(s); }
    if "[USER STATE]" <= s { UserStateHeader(s); }
    if !("[" <= s) { Unmarked(s); }
  }

  lemma Unmarked(s: string)
    requires !("[" <= s)
    ensures TextTier(s) == 6
  {
    forall k | 0 <= k < |PREFIXES| ensures !(PREFIXES[k].text <= s) {
      assert PREFIXES[k].text[0] == '[';
    }
    MatchesNone(PREFIXES, s);
  }

  /** Of two blocks from the user's side, the one whose header ranks higher is dropped no later than the other. */
  lemma DropOrder(ms: seq<Message>, budget: int, salience: Salience, i: nat, j: nat)
    requires i < |ms| - 1 && j < |ms| - 1 && ms[i].role == User == ms[j].role && ms[i].content.Text? && ms[j].content.Text?
    requires TextTier(ms[i].content.text) > TextTier(ms[j].content.text)
    ensures Kept(ms, budget, salience)[i] ==> Kept(ms, budget, salience)[j]
  {
    NoAckOfUser(ms, i);
    NoAckOfUser(ms, j);
  }

  lemma NoAckOfUser(ms: seq<Message>, i: nat)
    requires i < |ms| && ms[i].role == User
    ensures forall k | 0 <= k < |ms| :: AckIndex(ms, k) != Some(i)
  {
  }

  // ---- acknowledgements ----

  lemma {:induction false} AckFromExactly(ms: seq<Message>, start: nat, i: nat)
    requires start <= i < |ms|
    ensures AckFrom(ms, start) == Some(i) <==>
      && ms[i].role == Assistant && ms[i].content.Text? && "Understood" <= ms[i].content.text
      && forall k | start <= k < i :: ms[k].role == Assistant && !(ms[k].content.Text? && "Understood" <= ms[k].content.text)
    decreases i - start
  {
    if start < i {
      AckFromExactly(ms, start + 1, i);
    }
  }

  /** The acknowledgement of a block: the first assistant message that begins with "Understood", with nothing but other
      assistant messages before it. */
  lemma AckExactly(ms: seq<Message>, j: nat, i: nat)
    requires j < i < |ms|
    ensures AckIndex(ms, j) == Some(i) <==>
      && ms[i].role == Assistant && ms[i].content.Text? && "Understood" <= ms[i].content.text
      && forall k | j < k < i :: ms[k].role == Assistant && !(ms[k].content.Text? && "Understood" <= ms[k].content.text)
  {
    AckFromExactly(ms, j + 1, i);
  }
}
