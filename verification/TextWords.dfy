/** White space, words, trimming and joining, as the text routines see them. */
module TextWords {
  import opened Basics

  /** Unicode white space. */
  predicate IsSpace(c: char)
  {
    var n := c as int;
    if n < 0x80 then 0x09 <= n <= 0x0D || 0x1C <= n <= 0x20 else IsWideSpace(n, 0)
  }

  const WIDE_SPACES: seq<int> := [
    0x85, 0xA0, 0x1680, 0x2000, 0x2001, 0x2002, 0x2003, 0x2004, 0x2005, 0x2006, 0x2007,
    0x2008, 0x2009, 0x200A, 0x2028, 0x2029, 0x202F, 0x205F, 0x3000
  ]

  predicate IsWideSpace(n: int, i: nat)
    decreases |WIDE_SPACES| - i
  {
    i < |WIDE_SPACES| && (n == WIDE_SPACES[i] || IsWideSpace(n, i + 1))
  }

  predicate Blank(s: string)
  {
    forall i | 0 <= i < |s| :: IsSpace(s[i])
  }

  /** Reading a text: the words finished so far and the one under way, empty if there is none. */
  datatype Scan<T> = Scan(done: seq<seq<T>>, current: seq<T>)

  function Finished<T>(r: Scan<T>): seq<seq<T>>
  {
    if r.current == [] then r.done else r.done + [r.current]
  }

  /** White space finishes the word under way, any other character continues or begins one. */
  function Read<T>(space: T -> bool, r: Scan<T>, c: T): Scan<T>
  {
    if space(c) then Scan(Finished(r), []) else Scan(r.done, r.current + [c])
  }

  function ScanTo<T>(space: T -> bool, s: seq<T>, n: nat): Scan<T>
    requires n <= |s|
  {
    if n == 0 then Scan([], []) else Read(space, ScanTo(space, s, n - 1), s[n - 1])
  }

  /** The maximal runs of characters that are not white space, in order. */
  function Words(s: string): seq<string>
  {
    Finished(ScanTo(IsSpace, s, |s|))
  }

  predicate IsWord(w: string)
  {
    w != "" && forall i | 0 <= i < |w| :: !IsSpace(w[i])
  }

  lemma {:induction false} ScanPrefix<T>(space: T -> bool, a: seq<T>, b: seq<T>, n: nat)
    requires n <= |a|
    ensures ScanTo(space, a + b, n) == ScanTo(space, a, n)
  {
    if n > 0 {
      ScanPrefix(space, a, b, n - 1);
    }
  }

  /** No word straddles the seam. */
  predicate Seam<T>(space: T -> bool, a: seq<T>, b: seq<T>)
  {
    a == [] || b == [] || space(a[|a| - 1]) || space(b[0])
  }

  /** The same scan behind some finished words. */
  function Behind<T>(front: seq<seq<T>>, r: Scan<T>): Scan<T>
  {
    Scan(front + r.done, r.current)
  }

  lemma ReadBehind<T>(space: T -> bool, front: seq<seq<T>>, r: Scan<T>, c: T)
    ensures Read(space, Behind(front, r), c) == Behind(front, Read(space, r, c))
  {
    Assoc(front, r.done, [r.current]);
  }

  lemma {:induction false} ScanBehind<T>(space: T -> bool, a: seq<T>, b: seq<T>, n: nat)
    requires 0 < n <= |b| && Seam(space, a, b)
    ensures ScanTo(space, a + b, |a| + n) == Behind(Finished(ScanTo(space, a, |a|)), ScanTo(space, b, n))
  {
    if n == 1 {
      ScanPrefix(space, a, b, |a|);
      assert ScanTo(space, b, 0) == Scan([], []);
    } else {
      ScanBehind(space, a, b, n - 1);
      ReadBehind(space, Finished(ScanTo(space, a, |a|)), ScanTo(space, b, n - 1), b[n - 1]);
    }
  }

  lemma FinishedBehind<T>(front: seq<seq<T>>, r: Scan<T>)
    ensures Finished(Behind(front, r)) == front + Finished(r)
  {
    Assoc(front, r.done, [r.current]);
  }

  lemma WordsConcat(a: string, b: string)
    requires Seam(IsSpace, a, b)
    ensures Words(a + b) == Words(a) + Words(b)
  {
    if b == "" {
      assert a + b == a;
    } else {
      ScanBehind(IsSpace, a, b, |b|);
      FinishedBehind(Words(a), ScanTo(IsSpace, b, |b|));
    }
  }

  lemma {:induction false} NothingRead<T>(space: T -> bool, s: seq<T>, n: nat)
    requires n <= |s|
    ensures Finished(ScanTo(space, s, n)) == [] <==> forall i | 0 <= i < n :: space(s[i])
  {
    if n > 0 {
      NothingRead(space, s, n - 1);
    }
  }

  lemma BlankIffNoWords(s: string)
    ensures Blank(s) <==> Words(s) == []
  {
    NothingRead(IsSpace, s, |s|);
  }

  /** Cutting a blank separator out of a text loses no word. */
  lemma WordsAcross(a: string, gap: string, b: string)
    requires gap != "" && Blank(gap)
    ensures Words(a + (gap + b)) == Words(a) + Words(b)
  {
    WordsConcat(a, gap + b);
    WordsConcat(gap, b);
    BlankIffNoWords(gap);
  }

  ghost predicate Plain<T>(space: T -> bool, w: seq<T>, longest: nat)
  {
    |w| <= longest && forall i | 0 <= i < |w| :: !space(w[i])
  }

  ghost predicate AllPlain<T>(space: T -> bool, r: Scan<T>, longest: nat)
  {
    Plain(space, r.current, longest) && forall i | 0 <= i < |r.done| :: r.done[i] != [] && Plain(space, r.done[i], longest)
  }

  lemma {:induction false} ScanIsPlain<T>(space: T -> bool, s: seq<T>, n: nat)
    requires n <= |s|
    ensures AllPlain(space, ScanTo(space, s, n), n)
  {
    if n > 0 {
      ScanIsPlain(space, s, n - 1);
    }
  }

  lemma WordsAreWords(s: string)
    ensures forall w | w in Words(s) :: IsWord(w) && |w| <= |s|
  {
    ScanIsPlain(IsSpace, s, |s|);
    forall w | w in Words(s) ensures IsWord(w) && |w| <= |s| {
      var i :| 0 <= i < |Words(s)| && Words(s)[i] == w;
      assert Plain(IsSpace, w, |s|);
    }
  }

  function TotalLength<T>(words: seq<seq<T>>, n: nat): nat
    requires n <= |words|
  {
    if n == 0 then 0 else TotalLength(words, n - 1) + |words[n - 1]|
  }

  lemma {:induction false} TotalPrefix<T>(words: seq<seq<T>>, w: seq<T>, n: nat)
    requires n <= |words|
    ensures TotalLength(words + [w], n) == TotalLength(words, n)
  {
    if n > 0 {
      TotalPrefix(words, w, n - 1);
    }
  }

  lemma {:induction false} ScanLength<T>(space: T -> bool, s: seq<T>, n: nat)
    requires n <= |s|
    ensures var r := ScanTo(space, s, n); TotalLength(r.done, |r.done|) + |r.current| <= n
  {
    if n > 0 {
      ScanLength(space, s, n - 1);
      var r := ScanTo(space, s, n - 1);
      TotalPrefix(r.done, r.current, |r.done|);
    }
  }

  /** The words of a text together are no longer than the text. */
  lemma WordsLength(s: string)
    ensures TotalLength(Words(s), |Words(s)|) <= |s|
  {
    ScanLength(IsSpace, s, |s|);
    var r := ScanTo(IsSpace, s, |s|);
    TotalPrefix(r.done, r.current, |r.done|);
  }

  lemma {:induction false} OneWord<T>(space: T -> bool, w: seq<T>, n: nat)
    requires n <= |w| && forall i | 0 <= i < |w| :: !space(w[i])
    ensures ScanTo(space, w, n) == Scan([], w[..n])
  {
    if n > 0 {
      OneWord(space, w, n - 1);
    }
  }

  lemma SingleWord(w: string)
    requires IsWord(w)
    ensures Words(w) == [w]
  {
    OneWord(IsSpace, w, |w|);
    assert w[..|w|] == w;
  }

  // ---- trimming ----

  /** The first character that is not white space. */
  function TextStart(s: string, i: nat): (a: nat)
    requires i <= |s|
    ensures i <= a <= |s| && (forall j | i <= j < a :: IsSpace(s[j])) && (a < |s| ==> !IsSpace(s[a]))
    decreases |s| - i
  {
    if i < |s| && IsSpace(s[i]) then TextStart(s, i + 1) else i
  }

  /** The end of the last character that is not white space. */
  function TextEnd(s: string, a: nat, b: nat): (e: nat)
    requires a <= b <= |s|
    ensures a <= e <= b && (forall j | e <= j < b :: IsSpace(s[j])) && (a < e ==> !IsSpace(s[e - 1]))
  {
    if a < b && IsSpace(s[b - 1]) then TextEnd(s, a, b - 1) else b
  }

  function Strip(s: string): string
  {
    var a := TextStart(s, 0);
    s[a..TextEnd(s, a, |s|)]
  }

  predicate Trimmed(s: string)
  {
    s != "" && !IsSpace(s[0]) && !IsSpace(s[|s| - 1])
  }

  lemma StripShape(s: string)
    ensures |Strip(s)| <= |s| && (Strip(s) != "" ==> Trimmed(Strip(s)))
    ensures Trimmed(s) ==> Strip(s) == s
  {
  }

  lemma WholeText<T>(s: seq<T>, a: nat, e: nat)
    requires a <= e <= |s|
    ensures s == s[..a] + (s[a..e] + s[e..])
  {
  }

  lemma StripFacts(s: string)
    ensures Words(Strip(s)) == Words(s) && |Strip(s)| <= |s|
    ensures if Blank(s) then Strip(s) == "" else Trimmed(Strip(s))
    ensures Trimmed(s) ==> Strip(s) == s
  {
    var a := TextStart(s, 0);
    var e := TextEnd(s, a, |s|);
    StripShape(s);
    StripKeepsWords(s[..a], s[a..e], s[e..]);
    WholeText(s, a, e);
    BlankIffNoWords(s);
    BlankIffNoWords(Strip(s));
  }

  lemma StripKeepsWords(front: string, s: string, back: string)
    requires Blank(front) && Blank(back)
    ensures Words(front + (s + back)) == Words(s)
  {
    WordsConcat(front, s + back);
    WordsConcat(s, back);
    BlankIffNoWords(front);
    BlankIffNoWords(back);
  }

  lemma TrimmedHasWords(s: string)
    requires s != "" && (!IsSpace(s[0]) || !IsSpace(s[|s| - 1]))
    ensures Words(s) != []
  {
    BlankIffNoWords(s);
  }

  /** A trimmed text of one word is that word. */
  lemma TrimmedSingle(s: string, w: string)
    requires Trimmed(s) && Words(s) == [w]
    ensures s == w
  {
    if i :| 0 < i < |s| - 1 && IsSpace(s[i]) {
      TwoWords(s, i);
    } else {
      SingleWord(s);
    }
  }

  lemma TwoWords(s: string, i: nat)
    requires Trimmed(s) && 0 < i < |s| - 1 && IsSpace(s[i])
    ensures |Words(s)| >= 2
  {
    WordsAcross(s[..i], s[i..i + 1], s[i + 1..]);
    assert s == s[..i] + (s[i..i + 1] + s[i + 1..]);
    TrimmedHasWords(s[..i]);
    TrimmedHasWords(s[i + 1..]);
  }

  // ---- several texts ----

  /** The words of the first `n` texts, one after the other. */
  function WordsOf(texts: seq<string>, n: nat): seq<string>
    requires n <= |texts|
  {
    Flat(Words, texts, n)
  }

  function AllWords(texts: seq<string>): seq<string>
  {
    WordsOf(texts, |texts|)
  }

  lemma AllWordsAppend(texts: seq<string>, s: string)
    ensures AllWords(texts + [s]) == AllWords(texts) + Words(s)
  {
    FlatPrefix(Words, texts, [s], |texts|);
  }

  lemma AllWordsConcat(a: seq<string>, b: seq<string>)
    ensures AllWords(a + b) == AllWords(a) + AllWords(b)
  {
    FlatConcat(Words, a, b, |b|);
  }

  /** Texts that are words are their own words. */
  lemma {:induction false} WordsOfWords(words: seq<string>, n: nat)
    requires n <= |words| && forall w | w in words :: IsWord(w)
    ensures WordsOf(words, n) == words[..n]
  {
    if n > 0 {
      WordsOfWords(words, n - 1);
      SingleWord(words[n - 1]);
    }
  }

  /** The first `n` texts with a one-character separator between them. */
  function JoinTo(texts: seq<string>, sep: char, n: nat): string
    requires n <= |texts|
  {
    if n == 0 then ""
    else if n == 1 then texts[0]
    else JoinTo(texts, sep, n - 1) + ([sep] + texts[n - 1])
  }

  function Join(texts: seq<string>, sep: char): string
  {
    JoinTo(texts, sep, |texts|)
  }

  function LengthTo(texts: seq<string>, n: nat): nat
    requires n <= |texts|
  {
    if n == 0 then 0 else LengthTo(texts, n - 1) + |texts[n - 1]|
  }

  lemma {:induction false} JoinPrefix(texts: seq<string>, s: string, sep: char, n: nat)
    requires n <= |texts|
    ensures JoinTo(texts + [s], sep, n) == JoinTo(texts, sep, n) && LengthTo(texts + [s], n) == LengthTo(texts, n)
  {
    if n > 0 {
      JoinPrefix(texts, s, sep, n - 1);
    }
  }

  lemma JoinAppend(texts: seq<string>, s: string, sep: char)
    ensures Join(texts + [s], sep) == if texts == [] then s else Join(texts, sep) + ([sep] + s)
    ensures LengthTo(texts + [s], |texts| + 1) == LengthTo(texts, |texts|) + |s|
  {
    JoinPrefix(texts, s, sep, |texts|);
  }

  /** Joining with a space character between keeps the words. */
  lemma {:induction false} JoinWords(texts: seq<string>, sep: char, n: nat)
    requires IsSpace(sep) && n <= |texts|
    ensures Words(JoinTo(texts, sep, n)) == WordsOf(texts, n)
  {
    if n == 1 {
      assert WordsOf(texts, 1) == WordsOf(texts, 0) + Words(texts[0]);
    } else if n > 1 {
      JoinWords(texts, sep, n - 1);
      WordsAcross(JoinTo(texts, sep, n - 1), [sep], texts[n - 1]);
    }
  }

  lemma {:induction false} JoinLength(texts: seq<string>, sep: char, n: nat)
    requires 0 < n <= |texts|
    ensures |JoinTo(texts, sep, n)| == LengthTo(texts, n) + n - 1
    ensures forall i | 0 <= i < n :: |texts[i]| <= |JoinTo(texts, sep, n)|
  {
    if n > 1 {
      JoinLength(texts, sep, n - 1);
    }
  }

  lemma {:induction false} JoinTrimmed(texts: seq<string>, sep: char, n: nat)
    requires 0 < n <= |texts| && forall s | s in texts :: Trimmed(s)
    ensures Trimmed(JoinTo(texts, sep, n))
  {
    if n > 1 {
      JoinTrimmed(texts, sep, n - 1);
      var init, last := JoinTo(texts, sep, n - 1), texts[n - 1];
      var joined := init + ([sep] + last);
      assert last in texts && joined[0] == init[0] && joined[|joined| - 1] == last[|last| - 1];
      assert JoinTo(texts, sep, n) == joined;
    }
  }
}
