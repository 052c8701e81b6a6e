/**
  * Shortening a user-state block to its salient facts, line by line. What it makes of a block is
  * a block it finds nothing more to remove in.
  */
module UserState {
  import opened Basics
  import opened TextWords
  import ContextBudget
  import ContextBudgetBounds
  import ContextBudgetLaws

  type Rebuilt = ContextBudget.Rebuilt

  // ---- lines ----

  function Lengthened(lines: seq<string>, c: char): seq<string>
    requires lines != []
  {
    lines[|lines| - 1 := lines[|lines| - 1] + [c]]
  }

  /** The first `n` characters cut at every newline. */
  function LinesTo(s: string, n: nat): (r: seq<string>)
    requires n <= |s|
    ensures r != []
  {
    if n == 0 then [""]
    else if s[n - 1] == '\n' then LinesTo(s, n - 1) + [""]
    else Lengthened(LinesTo(s, n - 1), s[n - 1])
  }

  function Lines(s: string): (r: seq<string>)
    ensures r != []
  {
    LinesTo(s, |s|)
  }

  lemma {:induction false} LinesPrefix(a: string, b: string, n: nat)
    requires n <= |a|
    ensures LinesTo(a + b, n) == LinesTo(a, n)
  {
    if n > 0 {
      LinesPrefix(a, b, n - 1);
    }
  }

  lemma LinesAppend(s: string, c: char)
    ensures Lines(s + [c]) == if c == '\n' then Lines(s) + [""] else Lengthened(Lines(s), c)
  {
    LinesPrefix(s, [c], |s|);
  }

  predicate OneLine(s: string)
  {
    forall i | 0 <= i < |s| :: s[i] != '\n'
  }

  lemma {:induction false} LinesAre(s: string, n: nat)
    requires n <= |s|
    ensures forall k | 0 <= k < |LinesTo(s, n)| :: OneLine(LinesTo(s, n)[k])
  {
    if n > 0 {
      LinesAre(s, n - 1);
    }
  }

  /** Characters without a newline lengthen the last line. */
  lemma {:induction false} LinesOfText(s: string, text: string, n: nat)
    requires OneLine(text) && n <= |text|
    ensures var ls := Lines(s); LinesTo(s + text, |s| + n) == ls[|ls| - 1 := ls[|ls| - 1] + text[..n]]
  {
    var ls := Lines(s);
    if n == 0 {
      LinesPrefix(s, text, |s|);
      assert ls[|ls| - 1] + text[..0] == ls[|ls| - 1];
    } else {
      LinesOfText(s, text, n - 1);
      assert (s + text)[|s| + n - 1] == text[n - 1];
      assert ls[|ls| - 1] + text[..n] == (ls[|ls| - 1] + text[..n - 1]) + [text[n - 1]];
    }
  }

  lemma SingleLine(text: string)
    requires OneLine(text)
    ensures Lines(text) == [text]
  {
    LinesOfText("", text, |text|);
    assert "" + text == text && text[..|text|] == text && Lines("") == [""];
  }

  /** Joining lines with newlines and cutting them again. */
  lemma {:induction false} LinesOfJoin(texts: seq<string>, n: nat)
    requires 0 < n <= |texts| && forall k | 0 <= k < |texts| :: OneLine(texts[k])
    ensures Lines(JoinTo(texts, '\n', n)) == texts[..n]
  {
    var last := texts[n - 1];
    if n == 1 {
      SingleLine(last);
      assert texts[..1] == [last];
    } else {
      LinesOfJoin(texts, n - 1);
      OneMoreLine(JoinTo(texts, '\n', n - 1), last);
      assert texts[..n] == texts[..n - 1] + [last];
    }
  }

  lemma OneMoreLine(before: string, last: string)
    requires OneLine(last)
    ensures Lines(before + (['\n'] + last)) == Lines(before) + [last]
  {
    LinesAppend(before, '\n');
    LinesOfText(before + ['\n'], last, |last|);
    Assoc(before, ['\n'], last);
    assert last[..|last|] == last && "" + last == last;
  }

  /** Lines with one more character in front. */
  function Prefixed(c: char, lines: seq<string>): seq<string>
    requires lines != []
  {
    if c == '\n' then [""] + lines else lines[0 := [c] + lines[0]]
  }

  lemma FirstLine(t: string)
    requires t != ""
    ensures LinesTo(t, 1) == Prefixed(t[0], [""])
  {
    assert LinesTo(t, 0) == [""];
    assert "" + [t[0]] == [t[0]] + "";
  }

  lemma PrefixedLengthened(c: char, lines: seq<string>, x: char)
    requires lines != []
    ensures Lengthened(Prefixed(c, lines), x) == Prefixed(c, Lengthened(lines, x))
  {
    if c != '\n' && |lines| == 1 {
      Assoc([c], lines[0], [x]);
    }
  }

  lemma PrefixedMore(c: char, lines: seq<string>)
    requires lines != []
    ensures Prefixed(c, lines) + [""] == Prefixed(c, lines + [""])
  {
  }

  lemma {:induction false} LinesPrepend(c: char, s: string, n: nat)
    requires n <= |s|
    ensures LinesTo([c] + s, 1 + n) == Prefixed(c, LinesTo(s, n))
  {
    if n == 0 {
      FirstLine([c] + s);
    } else {
      LinesPrepend(c, s, n - 1);
      assert ([c] + s)[n] == s[n - 1];
      PrefixedLengthened(c, LinesTo(s, n - 1), s[n - 1]);
      PrefixedMore(c, LinesTo(s, n - 1));
    }
  }

  // ---- salient lines ----

  /** A line stays: it is blank, or `salient` of its text; facts without a score are salient. */
  predicate Stays(salient: string -> bool, line: string)
  {
    Strip(line) == "" || salient(Strip(line))
  }

  lemma StripTail(l: string, c: char)
    requires IsSpace(c)
    ensures Strip(l + [c]) == Strip(l)
  {
    var t := l + [c];
    var a, b := TextStart(l, 0), TextStart(t, 0);
    if a == |l| {
      assert forall j | 0 <= j < |t| :: IsSpace(t[j]);
      assert Strip(l) == "" && Strip(t) == "";
    } else {
      assert t[a] == l[a];
      assert a == b;
      var e, f := TextEnd(l, a, |l|), TextEnd(t, a, |t|);
      assert t[e - 1] == l[e - 1];
      assert e == f;
      assert l[a..e] == t[a..e];
    }
  }

  /** Every line but the first stays. */
  ghost predicate AllStay(salient: string -> bool, s: string)
  {
    forall k | 1 <= k < |Lines(s)| :: Stays(salient, Lines(s)[k])
  }

  lemma WithoutLast(salient: string -> bool, s: string, c: char)
    requires IsSpace(c) && AllStay(salient, s + [c])
    ensures AllStay(salient, s)
  {
    LinesAppend(s, c);
    var ls, more := Lines(s), Lines(s + [c]);
    forall k | 1 <= k < |ls| ensures Stays(salient, ls[k]) {
      assert Stays(salient, more[k]);
      StripTail(ls[k], c);
    }
  }

  lemma WithoutFirst(salient: string -> bool, c: char, s: string)
    requires AllStay(salient, [c] + s)
    ensures AllStay(salient, s)
  {
    LinesPrepend(c, s, |s|);
    var ls, more := Lines(s), Lines([c] + s);
    forall k | 1 <= k < |ls| ensures Stays(salient, ls[k]) {
      assert Stays(salient, more[if c == '\n' then k + 1 else k]);
    }
  }

  lemma {:induction false} WithoutFront(salient: string -> bool, s: string, a: nat)
    requires a <= |s| && AllStay(salient, s)
    ensures AllStay(salient, s[a..])
  {
    if a == 0 {
      assert s[0..] == s;
    } else {
      WithoutFront(salient, s, a - 1);
      assert s[a - 1..] == [s[a - 1]] + s[a..];
      WithoutFirst(salient, s[a - 1], s[a..]);
    }
  }

  lemma {:induction false} WithoutBack(salient: string -> bool, s: string, e: nat)
    requires e <= |s| && (forall j | e <= j < |s| :: IsSpace(s[j])) && AllStay(salient, s)
    ensures AllStay(salient, s[..e])
    decreases |s| - e
  {
    if e == |s| {
      assert s[..e] == s;
    } else {
      WithoutBack(salient, s, e + 1);
      assert s[..e + 1] == s[..e] + [s[e]];
      WithoutLast(salient, s[..e], s[e]);
    }
  }

  lemma Stripped(salient: string -> bool, s: string)
    requires AllStay(salient, s)
    ensures AllStay(salient, Strip(s))
  {
    var a := TextStart(s, 0);
    var e := TextEnd(s, a, |s|);
    WithoutBack(salient, s, e);
    WithoutFront(salient, s[..e], a);
    assert s[..e][a..] == s[a..e];
  }

  // ---- shortening a block ----

  /** The lines from the second to the `n`th that stay. */
  function High(salient: string -> bool, lines: seq<string>, n: nat): seq<string>
    requires 1 <= n <= |lines|
  {
    if n == 1 then []
    else High(salient, lines, n - 1) + if Stays(salient, lines[n - 1]) then [lines[n - 1]] else []
  }

  lemma {:induction false} HighCount(salient: string -> bool, lines: seq<string>, n: nat)
    requires 1 <= n <= |lines|
    ensures |High(salient, lines, n)| <= n - 1
    ensures |High(salient, lines, n)| == n - 1 <==> forall k | 1 <= k < n :: Stays(salient, lines[k])
  {
    if n > 1 {
      HighCount(salient, lines, n - 1);
    }
  }

  lemma {:induction false} HighMembers(salient: string -> bool, lines: seq<string>, n: nat, i: nat)
    requires 1 <= n <= |lines| && i < |High(salient, lines, n)|
    ensures High(salient, lines, n)[i] in lines && Stays(salient, High(salient, lines, n)[i])
  {
    if i < |High(salient, lines, n - 1)| {
      HighMembers(salient, lines, n - 1, i);
    }
  }

  /** Keep the header and the lines that stay. */
  method RebuildUserState(content: string, salient: string -> bool) returns (r: Rebuilt)
    ensures r == Rebuilding(content, salient)
  {
    var lines := Lines(content);
    var header, high, changed := lines[0], [], false;
    for n := 1 to |lines|
      invariant high == High(salient, lines, n) && |high| <= n - 1
      invariant changed <==> |high| < n - 1
    {
      if Stays(salient, lines[n]) {
        high := high + [lines[n]];
      } else {
        changed := true;
      }
    }
    if !changed {
      return ContextBudget.Unchanged;
    }
    var rebuilt := Strip(Join(if header != "" then [header] + high else high, '\n'));
    return if rebuilt == "" then ContextBudget.Emptied else ContextBudget.Shortened(rebuilt);
  }

  /** `Unchanged` exactly when every line but the first stays. */
  function Rebuilding(content: string, salient: string -> bool): Rebuilt
  {
    var lines := Lines(content);
    var high := High(salient, lines, |lines|);
    if |high| == |lines| - 1 then ContextBudget.Unchanged
    else
      var rebuilt := Strip(Join(Left(content, salient), '\n'));
      if rebuilt == "" then ContextBudget.Emptied else ContextBudget.Shortened(rebuilt)
  }

  lemma UnchangedExactly(content: string, salient: string -> bool)
    ensures Rebuilding(content, salient).Unchanged? <==> AllStay(salient, content)
    ensures AllStay(salient, content) <==>
      forall k | 1 <= k < |Lines(content)| :: Strip(Lines(content)[k]) == "" || salient(Strip(Lines(content)[k]))
  {
    HighCount(salient, Lines(content), |Lines(content)|);
  }

  /** Of what is put together from a header and lines that stay, every line but the first stays. */
  lemma JoinedStays(salient: string -> bool, texts: seq<string>)
    requires forall k | 0 <= k < |texts| :: OneLine(texts[k]) && (k > 0 ==> Stays(salient, texts[k]))
    ensures AllStay(salient, Join(texts, '\n'))
  {
    if texts != [] {
      LinesOfJoin(texts, |texts|);
      assert texts[..|texts|] == texts;
    }
  }

  /** The header, if there is one, and the lines that stay. */
  function Left(content: string, salient: string -> bool): seq<string>
  {
    var lines := Lines(content);
    var high := High(salient, lines, |lines|);
    if lines[0] != "" then [lines[0]] + high else high
  }

  lemma LeftStays(content: string, salient: string -> bool)
    ensures var texts := Left(content, salient); forall k | 0 <= k < |texts| :: OneLine(texts[k]) && (k > 0 ==> Stays(salient, texts[k]))
  {
    var lines := Lines(content);
    var high := High(salient, lines, |lines|);
    var texts := Left(content, salient);
    LinesAre(content, |content|);
    forall k | 0 <= k < |texts| ensures OneLine(texts[k]) && (k > 0 ==> Stays(salient, texts[k])) {
      var i := k - (|texts| - |high|);
      if i >= 0 {
        HighMembers(salient, lines, |lines|, i);
        assert texts[k] == high[i];
      }
    }
  }

  lemma RebuiltSettles(content: string, salient: string -> bool)
    requires Rebuilding(content, salient).Shortened?
    ensures Rebuilding(Rebuilding(content, salient).text, salient) == ContextBudget.Unchanged
  {
    var texts := Left(content, salient);
    LeftStays(content, salient);
    JoinedStays(salient, texts);
    Stripped(salient, Join(texts, '\n'));
    assert Rebuilding(content, salient).text == Strip(Join(texts, '\n'));
    UnchangedExactly(Strip(Join(texts, '\n')), salient);
  }

  /** The filter the allocator is given settles, for any scores. */
  lemma FilterSettles(salient: string -> bool)
    ensures ContextBudgetLaws.Settling(Some((s: string) => Rebuilding(s, salient)))
  {
    var filter := (s: string) => Rebuilding(s, salient);
    forall s: string ensures ContextBudgetLaws.SettlesOn(filter, s) {
      if filter(s).Shortened? {
        RebuiltSettles(s, salient);
      }
    }
  }

  /** With this filter, applying the budget twice is the same as once exactly when the first result fits or
      holds nothing droppable. */
  lemma BudgetTwice(ms: seq<ContextBudget.Message>, budget: int, salient: string -> bool)
    ensures var salience := Some((s: string) => Rebuilding(s, salient));
      var r := ContextBudget.Fitted(ms, budget, salience);
      ContextBudget.Fitted(r, budget, salience) == r <==>
        || ContextBudget.Total(r, ContextBudget.All(|r|)) <= budget
        || (forall p | 0 <= p < |r| :: ContextBudget.TierAt(r, p) == 0)
  {
    FilterSettles(salient);
    ContextBudgetLaws.IdempotentExactly(ms, budget, Some((s: string) => Rebuilding(s, salient)));
  }

  // ---- a block that a second application drops ----

  lemma HeaderAlone(header: string, salient: string -> bool)
    requires OneLine(header)
    ensures Lines(header) == [header] && Rebuilding(header, salient) == ContextBudget.Unchanged
  {
    LinesOfText("", header, |header|);
    assert "" + header == header && header[..|header|] == header && Lines("") == [""];
    assert High(salient, [header], 1) == [];
  }

  /** A header and one fact that is not salient: only the header is left, and it stays. */
  lemma FactDropped(header: string, fact: string, salient: string -> bool)
    requires OneLine(header) && OneLine(fact) && Trimmed(header) && Trimmed(fact) && !salient(fact)
    ensures Rebuilding(header + (['\n'] + fact), salient) == ContextBudget.Shortened(header)
    ensures Rebuilding(header, salient) == ContextBudget.Unchanged
  {
    HeaderAlone(header, salient);
    OneMoreLine(header, fact);
    StripShape(fact);
    StripShape(header);
    var lines := Lines(header + (['\n'] + fact));
    assert lines == [header, fact];
    assert High(salient, lines, 1) == [] && High(salient, lines, 2) == [];
    assert [header] + [] == [header] && Join([header], '\n') == header;
  }

  const HEADER := "[USER STATE]"

  lemma UserStateTier(rest: string)
    ensures ContextBudget.TextTier(HEADER + rest) == 1
  {
    ContextBudgetBounds.UserStateHeader(HEADER + rest);
  }

  lemma HeaderIsTrimmed()
    ensures OneLine(HEADER) && Trimmed(HEADER)
  {
  }

  /** For every fact that is not salient: a block of the header and that fact is shortened to the header by the
      first application and dropped by the second. */
  lemma BudgetTwiceDrops(fact: string, question: string, salient: string -> bool)
    requires OneLine(fact) && Trimmed(fact) && !salient(fact)
    ensures var filter := Some((s: string) => Rebuilding(s, salient));
      var last := ContextBudget.Message(ContextBudget.User, ContextBudget.Text(question));
      var ms := ContextBudgetLaws.Pair(HEADER + (['\n'] + fact), last);
      && ContextBudget.Fitted(ms, 0, filter) == ContextBudgetLaws.Pair(HEADER, last)
      && ContextBudget.Fitted(ContextBudget.Fitted(ms, 0, filter), 0, filter) == [last]
  {
    HeaderIsTrimmed();
    FactDropped(HEADER, fact, salient);
    UserStateTier(['\n'] + fact);
    UserStateTier("");
    assert HEADER + "" == HEADER;
    ContextBudgetLaws.PartialDropNotIdempotent(HEADER + (['\n'] + fact), HEADER, question, (s: string) => Rebuilding(s, salient));
  }
}
