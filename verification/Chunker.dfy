/** Splitting a document's text into overlapping chunks for the embedder. */
module Chunker {
  import opened Basics
  import opened TextWords

  const CHUNK_SIZE: nat := 1600
  const CHUNK_OVERLAP: nat := 200
  const EMBED_LIMIT: nat := 2000

  datatype Gap = NoGap | Gap(start: nat, end: nat)

  // ---- the two separators ----

  predicate EndsSentence(c: char)
  {
    c == '.' || c == '!' || c == '?'
  }

  function RunEnd(s: string, i: nat, newlines: bool): (j: nat)
    requires i <= |s|
    ensures i <= j <= |s|
    ensures forall k | i <= k < j :: if newlines then s[k] == '\n' else IsSpace(s[k])
    decreases |s| - i
  {
    if i < |s| && (if newlines then s[i] == '\n' else IsSpace(s[i])) then RunEnd(s, i + 1, newlines) else i
  }

  /** The leftmost run of two or more newlines from `i` on. */
  function ParagraphGap(s: string, i: nat): (g: Gap)
    requires i <= |s|
    ensures g.Gap? ==> i <= g.start < g.end <= |s| && Blank(s[g.start..g.end])
    decreases |s| - i
  {
    if i + 1 >= |s| then NoGap
    else if s[i] == '\n' && s[i + 1] == '\n' then Gap(i, RunEnd(s, i + 2, true))
    else ParagraphGap(s, i + 1)
  }

  /** The leftmost white space, from `i` on, that directly follows a sentence end. */
  function SentenceGap(s: string, i: nat): (g: Gap)
    requires i <= |s|
    ensures g.Gap? ==> i <= g.start < g.end <= |s| && Blank(s[g.start..g.end])
    decreases |s| - i
  {
    if i == |s| then NoGap
    else if i > 0 && EndsSentence(s[i - 1]) && IsSpace(s[i]) then Gap(i, RunEnd(s, i + 1, false))
    else SentenceGap(s, i + 1)
  }

  function NextGap(s: string, i: nat, paragraphs: bool): (g: Gap)
    requires i <= |s|
    ensures g.Gap? ==> i <= g.start < g.end <= |s| && Blank(s[g.start..g.end])
  {
    if paragraphs then ParagraphGap(s, i) else SentenceGap(s, i)
  }

  /** The text from `i` on, cut at every gap: `re.split` on the separator's pattern. */
  function Split(s: string, i: nat, paragraphs: bool): seq<string>
    requires i <= |s|
    decreases |s| - i
  {
    match NextGap(s, i, paragraphs)
    case NoGap => [s[i..]]
    case Gap(start, end) => [s[i..start]] + Split(s, end, paragraphs)
  }

  lemma {:induction false} SplitKeepsWords(s: string, i: nat, paragraphs: bool)
    requires i <= |s|
    ensures AllWords(Split(s, i, paragraphs)) == Words(s[i..])
    decreases |s| - i
  {
    match NextGap(s, i, paragraphs)
    case NoGap =>
      OneText(s[i..]);
    case Gap(start, end) =>
      SplitKeepsWords(s, end, paragraphs);
      FirstText(s[i..start], s[start..end], s[end..], Split(s, end, paragraphs));
      ThreeParts(s, i, start, end);
  }

  /** A separator may begin at `k`. */
  predicate GapAt(s: string, k: nat, paragraphs: bool)
    requires k < |s|
  {
    if paragraphs then k + 1 < |s| && s[k] == '\n' && s[k + 1] == '\n'
    else k > 0 && EndsSentence(s[k - 1]) && IsSpace(s[k])
  }

  lemma {:induction false} NextGapIsFirst(s: string, i: nat, paragraphs: bool)
    requires i <= |s|
    ensures var g := NextGap(s, i, paragraphs);
      && (g.Gap? ==> GapAt(s, g.start, paragraphs))
      && forall k | i <= k < (if g.Gap? then g.start else |s|) :: !GapAt(s, k, paragraphs)
    decreases |s| - i
  {
    if i < |s| && !GapAt(s, i, paragraphs) {
      NextGapIsFirst(s, i + 1, paragraphs);
    }
  }

  /** No piece of a split text holds a separator. */
  lemma {:induction false} SplitIsComplete(s: string, i: nat, paragraphs: bool, p: string)
    requires i <= |s| && p in Split(s, i, paragraphs)
    ensures forall k | 0 <= k < |p| :: !GapAt(p, k, paragraphs)
    decreases |s| - i
  {
    NextGapIsFirst(s, i, paragraphs);
    var g := NextGap(s, i, paragraphs);
    var end := if g.Gap? then g.start else |s|;
    if p == s[i..end] {
      forall k | 0 <= k < |p| ensures !GapAt(p, k, paragraphs) {
        assert p[k] == s[i + k] && (k > 0 ==> p[k - 1] == s[i + k - 1]) && (k + 1 < |p| ==> p[k + 1] == s[i + k + 1]);
        assert !GapAt(s, i + k, paragraphs);
      }
    } else {
      SplitIsComplete(s, g.end, paragraphs, p);
    }
  }

  lemma OneText(s: string)
    ensures AllWords([s]) == Words(s)
  {
    assert WordsOf([s], 1) == WordsOf([s], 0) + Words(s);
  }

  lemma FirstText(piece: string, gap: string, rest: string, texts: seq<string>)
    requires gap != "" && Blank(gap) && AllWords(texts) == Words(rest)
    ensures AllWords([piece] + texts) == Words(piece + (gap + rest))
  {
    AllWordsConcat([piece], texts);
    OneText(piece);
    WordsAcross(piece, gap, rest);
  }

  // ---- atomic units ----

  /** Units are trimmed, and no longer than the chunk size unless a single word is. */
  ghost predicate Units(units: seq<string>, longest: nat)
  {
    forall u | u in units :: Trimmed(u) && |u| <= longest
  }

  ghost predicate WordsWithin(words: seq<string>, longest: nat)
  {
    forall w | w in words :: |w| <= longest
  }

  /** Words waiting to become a unit: few enough to fit, or a single one. */
  ghost predicate Waiting(buf: seq<string>, longest: nat)
  {
    && (forall w | w in buf :: IsWord(w) && |w| <= longest)
    && (|buf| <= 1 || LengthTo(buf, |buf|) + |buf| <= CHUNK_SIZE)
  }

  /** The first `i` words: those in finished units, then those waiting. */
  ghost predicate Packing(words: seq<string>, i: nat, units: seq<string>, buf: seq<string>, len: nat, longest: nat)
  {
    && i <= |words| && |buf| <= i && Holding(units, words[..i - |buf|], longest)
    && buf == words[i - |buf|..i] && len == LengthTo(buf, |buf|) + |buf| && Waiting(buf, longest)
  }

  /** No unit could have taken the first word of the next one as well. */
  ghost predicate Tight(units: seq<string>)
  {
    forall j | 0 <= j < |units| - 1 :: TightPair(units[j], units[j + 1])
  }

  ghost predicate TightPair(unit: string, next: string)
  {
    Words(next) != [] && Full(unit, Words(next)[0])
  }

  predicate Full(unit: string, word: string)
  {
    |unit| + 2 + |word| > CHUNK_SIZE
  }

  ghost predicate TightSoFar(units: seq<string>, buf: seq<string>)
  {
    Tight(units) && (units != [] ==> buf != [] && Full(units[|units| - 1], buf[0]))
  }

  lemma StillTight(units: seq<string>, buf: seq<string>)
    requires TightSoFar(units, buf) && buf != [] && forall w | w in buf :: IsWord(w)
    ensures Tight(units + [Join(buf, ' ')])
  {
    JoinWords(buf, ' ', |buf|);
    WordsOfWords(buf, |buf|);
    assert buf[..|buf|] == buf;
    var units' := units + [Join(buf, ' ')];
    forall j | 0 <= j < |units'| - 1 ensures TightPair(units'[j], units'[j + 1]) {
      assert j + 1 < |units| ==> TightPair(units[j], units[j + 1]);
    }
  }

  lemma PackedLength(buf: seq<string>)
    requires buf != []
    ensures |Join(buf, ' ')| + 1 == LengthTo(buf, |buf|) + |buf|
  {
    JoinLength(buf, ' ', |buf|);
  }

  /** The finished units, the words waiting, and their length with a space after each. */
  datatype Pack = Pack(units: seq<string>, buf: seq<string>, len: nat)

  ghost predicate PackState(words: seq<string>, i: nat, p: Pack, longest: nat)
  {
    Packing(words, i, p.units, p.buf, p.len, longest) && TightSoFar(p.units, p.buf)
  }

  predicate Fits(p: Pack, word: string)
  {
    p.len + |word| + 1 <= CHUNK_SIZE || p.buf == []
  }

  function Taking(p: Pack, word: string): Pack
  {
    Pack(p.units, p.buf + [word], p.len + |word| + 1)
  }

  function Closing(p: Pack): Pack
  {
    Pack(p.units + [Join(p.buf, ' ')], [], 0)
  }

  lemma SameStart(units: seq<string>, buf: seq<string>, word: string)
    requires TightSoFar(units, buf)
    ensures TightSoFar(units, buf + [word])
  {
  }

  /** The next word fits. */
  lemma WordFits(words: seq<string>, i: nat, p: Pack, longest: nat)
    requires i < |words| && IsWord(words[i]) && |words[i]| <= longest && PackState(words, i, p, longest) && Fits(p, words[i])
    ensures PackState(words, i + 1, Taking(p, words[i]), longest)
  {
    Taken(words, i, p.units, p.buf, p.len, longest);
    SameStart(p.units, p.buf, words[i]);
  }

  lemma NewStart(units: seq<string>, word: string)
    requires Tight(units) && units != [] && Full(units[|units| - 1], word)
    ensures TightSoFar(units, [] + [word])
  {
  }

  lemma ClosedIsFull(units: seq<string>, buf: seq<string>, len: nat, word: string)
    requires buf != [] && len == LengthTo(buf, |buf|) + |buf| && len + |word| + 1 > CHUNK_SIZE
    requires TightSoFar(units, buf) && forall w | w in buf :: IsWord(w)
    ensures TightSoFar(units + [Join(buf, ' ')], [] + [word])
  {
    StillTight(units, buf);
    PackedLength(buf);
    assert Full(Join(buf, ' '), word);
    NewStart(units + [Join(buf, ' ')], word);
  }

  /** It does not: the buffer becomes a unit, and the word starts the next buffer. */
  lemma WordCloses(words: seq<string>, i: nat, p: Pack, longest: nat)
    requires i < |words| && IsWord(words[i]) && |words[i]| <= longest && longest >= CHUNK_SIZE
    requires PackState(words, i, p, longest) && !Fits(p, words[i])
    ensures PackState(words, i + 1, Taking(Closing(p), words[i]), longest)
  {
    Flushed(words, i, p.units, p.buf, p.len, longest);
    Taken(words, i, p.units + [Join(p.buf, ' ')], [], 0, longest);
    ClosedIsFull(p.units, p.buf, p.len, words[i]);
  }

  /** The words have run out. */
  lemma WordsEnd(words: seq<string>, p: Pack, longest: nat)
    requires longest >= CHUNK_SIZE && PackState(words, |words|, p, longest)
    ensures var units := if p.buf == [] then p.units else Closing(p).units; Holding(units, words, longest) && Tight(units)
  {
    assert words[..|words|] == words;
    if p.buf != [] {
      Flushed(words, |words|, p.units, p.buf, p.len, longest);
      StillTight(p.units, p.buf);
    }
  }

  lemma PackStarts(words: seq<string>, longest: nat)
    ensures PackState(words, 0, Pack([], [], 0), longest)
  {
  }

  /** Close the buffer if the word would make it grow past the size, then take the word. */
  method PackWord(p0: Pack, word: string) returns (p: Pack)
    ensures p == Taking(if Fits(p0, word) then p0 else Closing(p0), word)
  {
    p := p0;
    if p.len + |word| + 1 > CHUNK_SIZE && p.buf != [] {
      p := Pack(p.units + [Join(p.buf, ' ')], [], 0);
    }
    p := Pack(p.units, p.buf + [word], p.len + |word| + 1);
  }

  /** Pack words greedily, separated by single spaces. */
  method PackWords(words: seq<string>, ghost longest: nat) returns (units: seq<string>)
    requires forall w | w in words :: IsWord(w)
    requires longest >= CHUNK_SIZE && WordsWithin(words, longest)
    ensures Holding(units, words, longest) && Tight(units)
  {
    var p := Pack([], [], 0);
    PackStarts(words, longest);
    for i := 0 to |words|
      invariant PackState(words, i, p, longest)
    {
      NextWord(words, i, p, longest);
      p := PackWord(p, words[i]);
    }
    WordsEnd(words, p, longest);
    units := if p.buf != [] then p.units + [Join(p.buf, ' ')] else p.units;
  }

  lemma NextWord(words: seq<string>, i: nat, p: Pack, longest: nat)
    requires i < |words| && (forall w | w in words :: IsWord(w)) && longest >= CHUNK_SIZE && WordsWithin(words, longest)
    requires PackState(words, i, p, longest)
    ensures PackState(words, i + 1, Taking(if Fits(p, words[i]) then p else Closing(p), words[i]), longest)
  {
    if Fits(p, words[i]) {
      WordFits(words, i, p, longest);
    } else {
      WordCloses(words, i, p, longest);
    }
  }

  /** The units made so far and the words they hold. */
  ghost predicate Holding(units: seq<string>, words: seq<string>, longest: nat)
  {
    AllWords(units) == words && Units(units, longest)
  }

  lemma Taken(words: seq<string>, i: nat, units: seq<string>, buf: seq<string>, len: nat, longest: nat)
    requires Packing(words, i, units, buf, len, longest) && i < |words| && IsWord(words[i]) && |words[i]| <= longest
    requires buf == [] || len + |words[i]| + 1 <= CHUNK_SIZE
    ensures Packing(words, i + 1, units, buf + [words[i]], len + |words[i]| + 1, longest)
  {
    StillWaiting(buf, words[i], longest);
    NextSlice(words, i - |buf|, i);
  }

  lemma NextSlice<T>(all: seq<T>, c: nat, i: nat)
    requires c <= i < |all|
    ensures all[c..i + 1] == all[c..i] + [all[i]]
  {
  }

  lemma StillWaiting(buf: seq<string>, word: string, longest: nat)
    requires Waiting(buf, longest) && IsWord(word) && |word| <= longest
    requires buf == [] || LengthTo(buf, |buf|) + |buf| + |word| + 1 <= CHUNK_SIZE
    ensures Waiting(buf + [word], longest)
    ensures LengthTo(buf + [word], |buf| + 1) == LengthTo(buf, |buf|) + |word|
  {
    JoinAppend(buf, word, ' ');
  }

  lemma Flushed(words: seq<string>, i: nat, units: seq<string>, buf: seq<string>, len: nat, longest: nat)
    requires buf != [] && longest >= CHUNK_SIZE && Packing(words, i, units, buf, len, longest)
    ensures Packing(words, i, units + [Join(buf, ' ')], [], 0, longest)
  {
    UnitMade(units, words[..i - |buf|], buf, longest);
    assert words[..i - |buf|] + words[i - |buf|..i] == words[..i];
    assert words[i..i] == [];
  }

  lemma UnitMade(units: seq<string>, words: seq<string>, buf: seq<string>, longest: nat)
    requires buf != [] && Waiting(buf, longest) && longest >= CHUNK_SIZE && Holding(units, words, longest)
    ensures Holding(units + [Join(buf, ' ')], words + buf, longest)
  {
    AllWordsAppend(units, Join(buf, ' '));
    JoinWords(buf, ' ', |buf|);
    WordsOfWords(buf, |buf|);
    JoinTrimmed(buf, ' ', |buf|);
    JoinLength(buf, ' ', |buf|);
  }

  /** The pieces that fit a chunk are units, whole. */
  ghost predicate KeepsWhole(pieces: seq<string>, n: nat, units: seq<string>)
    requires n <= |pieces|
  {
    forall i | 0 <= i < n && 0 < |Strip(pieces[i])| <= CHUNK_SIZE :: Strip(pieces[i]) in units
  }

  /** Whether `units` hold exactly the words of `text`. */
  ghost predicate Holds(units: seq<string>, text: string, longest: nat)
  {
    AllWords(units) == Words(text) && Units(units, longest)
  }

  /** The units of the first `i` texts, one after the other. */
  ghost predicate Collecting(units: seq<string>, texts: seq<string>, i: nat, longest: nat)
  {
    i <= |texts| && AllWords(units) == WordsOf(texts, i) && Units(units, longest)
  }

  lemma Collected(units: seq<string>, texts: seq<string>, i: nat, more: seq<string>, longest: nat)
    requires i < |texts| && Collecting(units, texts, i, longest) && Holds(more, texts[i], longest)
    ensures Collecting(units + more, texts, i + 1, longest)
  {
    AllWordsConcat(units, more);
  }

  /** A stripped text as a single unit, if there is anything left of it. */
  lemma Whole(text: string, longest: nat)
    requires |Strip(text)| <= longest
    ensures Holds(if Strip(text) == "" then [] else [Strip(text)], text, longest)
  {
    StripFacts(text);
    if Strip(text) != "" {
      OneText(Strip(text));
    }
  }

  method SplitSentence(sentence: string, ghost longest: nat) returns (units: seq<string>)
    requires longest >= CHUNK_SIZE && WordsWithin(Words(sentence), longest)
    ensures Holds(units, sentence, longest)
    ensures 0 < |Strip(sentence)| <= CHUNK_SIZE ==> units == [Strip(sentence)]
    ensures |Strip(sentence)| > CHUNK_SIZE ==> Tight(units)
  {
    var sent := Strip(sentence);
    if |sent| <= CHUNK_SIZE {
      Whole(sentence, longest);
      units := if sent == "" then [] else [sent];
    } else {
      StripFacts(sentence);
      WordsAreWords(sent);
      units := PackWords(Words(sent), longest);
    }
  }

  method SplitParagraph(paragraph: string, ghost longest: nat) returns (units: seq<string>)
    requires longest >= CHUNK_SIZE && WordsWithin(Words(paragraph), longest)
    ensures Holds(units, paragraph, longest)
    ensures 0 < |Strip(paragraph)| <= CHUNK_SIZE ==> units == [Strip(paragraph)]
    ensures var sentences := Split(Strip(paragraph), 0, false);
      |Strip(paragraph)| > CHUNK_SIZE ==> KeepsWhole(sentences, |sentences|, units)
  {
    var para := Strip(paragraph);
    if |para| <= CHUNK_SIZE {
      Whole(paragraph, longest);
      units := if para == "" then [] else [para];
    } else {
      StripFacts(paragraph);
      units := SplitSentences(para, longest);
    }
  }

  method SplitSentences(para: string, ghost longest: nat) returns (units: seq<string>)
    requires longest >= CHUNK_SIZE && WordsWithin(Words(para), longest)
    ensures Holds(units, para, longest)
    ensures KeepsWhole(Split(para, 0, false), |Split(para, 0, false)|, units)
  {
    units := [];
    var sentences := Split(para, 0, false);
    SplitHolds(para, false);
    for i := 0 to |sentences|
      invariant Collecting(units, sentences, i, longest) && KeepsWhole(sentences, i, units)
    {
      FlatMember(Words, sentences, |sentences|, i);
      var more := SplitSentence(sentences[i], longest);
      Collected(units, sentences, i, more, longest);
      units := units + more;
    }
  }

  lemma SplitHolds(s: string, paragraphs: bool)
    ensures AllWords(Split(s, 0, paragraphs)) == Words(s)
  {
    SplitKeepsWords(s, 0, paragraphs);
    assert s[0..] == s;
  }

  /** Paragraphs, then sentences, then words: no word is lost, reordered or split. */
  method SplitSemantic(text: string, ghost longest: nat) returns (units: seq<string>)
    requires longest >= CHUNK_SIZE && WordsWithin(Words(text), longest)
    ensures Holds(units, text, longest)
    ensures KeepsWhole(Split(text, 0, true), |Split(text, 0, true)|, units)
  {
    units := [];
    var paragraphs := Split(text, 0, true);
    SplitHolds(text, true);
    for i := 0 to |paragraphs|
      invariant Collecting(units, paragraphs, i, longest) && KeepsWhole(paragraphs, i, units)
    {
      FlatMember(Words, paragraphs, |paragraphs|, i);
      var more := SplitParagraph(paragraphs[i], longest);
      Collected(units, paragraphs, i, more, longest);
      units := units + more;
    }
  }

  // ---- merging units into chunks ----

  predicate EndsPhrase(c: char)
  {
    EndsSentence(c) || c == '\n'
  }

  /** The first place from `i` on that follows a phrase end and has text at or after it; `|s|` if none. */
  function PhraseStart(s: string, i: nat): (p: nat)
    requires 1 <= i
    ensures p < |s| ==> i <= p && EndsPhrase(s[p - 1]) && !Blank(s[p..])
    decreases |s| - i
  {
    if i >= |s| then |s|
    else if EndsPhrase(s[i - 1]) && !Blank(s[i..]) then i
    else PhraseStart(s, i + 1)
  }

  /** The last `overlap` characters; all of them for an overlap of zero, as a slice from `-0` is. */
  function LastChars(chunk: string, overlap: nat): string
  {
    if 0 < overlap < |chunk| then chunk[|chunk| - overlap..] else chunk
  }

  /** What the next chunk repeats: the end of this one, from a phrase start if there is one. */
  function OverlapTail(chunk: string, overlap: nat): string
  {
    var tail := LastChars(chunk, overlap);
    var p := PhraseStart(tail, 1);
    if p < |tail| then Strip(tail[p..]) else Strip(tail)
  }

  /** Position `p` follows the end of a sentence or of a line, and there is text from it on. */
  predicate BeginsPhrase(s: string, p: nat)
    requires 1 <= p <= |s|
  {
    (s[p - 1] == '.' || s[p - 1] == '!' || s[p - 1] == '?' || s[p - 1] == '\n') && !Blank(s[p..])
  }

  lemma {:induction false} PhraseStartIsFirst(s: string, i: nat)
    requires 1 <= i
    ensures var p := PhraseStart(s, i); p <= |s| && (p < |s| ==> i <= p && BeginsPhrase(s, p))
    ensures forall q | i <= q < PhraseStart(s, i) :: !BeginsPhrase(s, q)
    decreases |s| - i
  {
    if i < |s| && !(EndsPhrase(s[i - 1]) && !Blank(s[i..])) {
      PhraseStartIsFirst(s, i + 1);
    }
  }

  /** The tail starts at the first phrase that begins in the last `overlap` characters, if one does. */
  lemma TailFromPhrase(chunk: string, overlap: nat)
    ensures var tail := if 0 < overlap < |chunk| then chunk[|chunk| - overlap..] else chunk;
      if exists p | 1 <= p < |tail| :: BeginsPhrase(tail, p) then
        exists p | 1 <= p < |tail| ::
          BeginsPhrase(tail, p) && (forall q | 1 <= q < p :: !BeginsPhrase(tail, q)) && OverlapTail(chunk, overlap) == Strip(tail[p..])
      else OverlapTail(chunk, overlap) == Strip(tail)
  {
    var tail := LastChars(chunk, overlap);
    PhraseStartIsFirst(tail, 1);
    var p := PhraseStart(tail, 1);
    if q :| 1 <= q < |tail| && BeginsPhrase(tail, q) {
      assert 1 <= p < |tail| && BeginsPhrase(tail, p);
    }
  }

  /** A tail is never empty, so the running length is always that of the joined buffer. */
  lemma OverlapTailFacts(chunk: string, overlap: nat)
    requires Trimmed(chunk)
    ensures Trimmed(OverlapTail(chunk, overlap))
    ensures overlap > 0 ==> |OverlapTail(chunk, overlap)| <= overlap
  {
    var tail := LastChars(chunk, overlap);
    assert tail[|tail| - 1] == chunk[|chunk| - 1];
    var p := PhraseStart(tail, 1);
    var piece := if p < |tail| then tail[p..] else tail;
    assert !Blank(piece);
    StripFacts(piece);
  }

  /** The buffer a chunk is joined from: the previous chunk's tail, then the units it consumes. */
  function Parts(chunks: seq<string>, k: nat, slice: seq<string>, overlap: nat): seq<string>
    requires k <= |chunks|
  {
    (if k == 0 then [] else [OverlapTail(chunks[k - 1], overlap)]) + slice
  }

  /** Chunk `k` is made of its predecessor's tail and units `cuts[k]` to `cuts[k + 1]`, at least one. */
  ghost predicate Consumes(units: seq<string>, cuts: seq<nat>, chunks: seq<string>, overlap: nat)
  {
    && |cuts| == |chunks| + 1 && cuts[0] == 0 && (forall k | 0 <= k < |cuts| :: cuts[k] <= |units|)
    && (forall k | 0 <= k < |chunks| :: Consumed(units, cuts, chunks, overlap, k))
  }

  ghost predicate Consumed(units: seq<string>, cuts: seq<nat>, chunks: seq<string>, overlap: nat, k: nat)
    requires k < |chunks| && |cuts| == |chunks| + 1
  {
    cuts[k] < cuts[k + 1] <= |units| && IsChunk(chunks, k, units[cuts[k]..cuts[k + 1]], overlap)
  }

  predicate IsChunk(chunks: seq<string>, k: nat, slice: seq<string>, overlap: nat)
    requires k < |chunks|
  {
    chunks[k] == Join(Parts(chunks, k, slice, overlap), '\n')
  }

  /** No chunk could have taken the unit after its last one as well. */
  ghost predicate Greedy(units: seq<string>, cuts: seq<nat>, chunks: seq<string>, size: nat)
    requires |cuts| == |chunks| + 1
  {
    forall k | 0 <= k < |chunks| && cuts[k + 1] < |units| :: |chunks[k]| + 1 + |units[cuts[k + 1]]| > size
  }

  /** The longest chunk: within the size, or one tail and one unit. */
  function ChunkBound(size: nat, overlap: nat, longest: nat): nat
  {
    if size >= overlap + 1 + longest then size else overlap + 1 + longest
  }

  /** Chunks that are trimmed and, with a positive overlap, within the bound. */
  ghost predicate Shaped(chunks: seq<string>, overlap: nat, bound: nat)
  {
    forall c | c in chunks :: Trimmed(c) && (overlap > 0 ==> |c| <= bound)
  }

  /** Trimmed pieces that join to `len` characters. */
  ghost predicate Buffer(buf: seq<string>, len: nat)
  {
    (forall s | s in buf :: Trimmed(s)) && len == |Join(buf, '\n')| && (buf != [] ==> Trimmed(Join(buf, '\n')))
  }

  /** One more unit in the buffer adds its length and, after the first, a newline. */
  lemma Added(buf: seq<string>, len: nat, unit: string)
    requires Buffer(buf, len) && Trimmed(unit)
    ensures Buffer(buf + [unit], len + |unit| + if buf == [] then 0 else 1)
  {
    JoinAppend(buf, unit, '\n');
    JoinTrimmed(buf + [unit], '\n', |buf| + 1);
  }

  /** Closing the buffer as a chunk. */
  lemma Closed(units: seq<string>, i: nat, cuts: seq<nat>, chunks: seq<string>, chunk: string, overlap: nat)
    requires Consumes(units, cuts, chunks, overlap) && cuts[|chunks|] < i <= |units|
    requires chunk == Join(Parts(chunks, |chunks|, units[cuts[|chunks|]..i], overlap), '\n')
    ensures Consumes(units, cuts + [i], chunks + [chunk], overlap)
  {
    forall k | 0 <= k < |chunks| + 1 ensures Consumed(units, cuts + [i], chunks + [chunk], overlap, k) {
      if k < |chunks| {
        assert Consumed(units, cuts, chunks, overlap, k);
        StillChunk(chunks, chunk, k, units[cuts[k]..cuts[k + 1]], overlap);
      } else {
        NewChunk(chunks, chunk, units[cuts[|chunks|]..i], overlap);
      }
    }
  }

  lemma StillChunk(chunks: seq<string>, chunk: string, k: nat, slice: seq<string>, overlap: nat)
    requires k < |chunks| && IsChunk(chunks, k, slice, overlap)
    ensures IsChunk(chunks + [chunk], k, slice, overlap)
  {
  }

  lemma NewChunk(chunks: seq<string>, chunk: string, slice: seq<string>, overlap: nat)
    requires chunk == Join(Parts(chunks, |chunks|, slice, overlap), '\n')
    ensures IsChunk(chunks + [chunk], |chunks|, slice, overlap)
  {
    assert Parts(chunks + [chunk], |chunks|, slice, overlap) == Parts(chunks, |chunks|, slice, overlap);
  }

  /** Everything promised of the chunks made so far. */
  ghost predicate Merged(units: seq<string>, cuts: seq<nat>, chunks: seq<string>, size: nat, overlap: nat, bound: nat)
  {
    && Consumes(units, cuts, chunks, overlap)
    && Greedy(units, cuts, chunks, size)
    && Shaped(chunks, overlap, bound)
  }

  /** The buffer: the last chunk's tail, then the units since the last cut. */
  ghost predicate Buffered(units: seq<string>, i: nat, cuts: seq<nat>, chunks: seq<string>, overlap: nat, buf: seq<string>)
    requires |cuts| == |chunks| + 1
  {
    && cuts[|chunks|] <= i <= |units|
    && buf == Parts(chunks, |chunks|, units[cuts[|chunks|]..i], overlap)
  }

  lemma Flush(units: seq<string>, i: nat, cuts: seq<nat>, chunks: seq<string>, buf: seq<string>, len: nat, size: nat, overlap: nat, bound: nat)
    requires Merged(units, cuts, chunks, size, overlap, bound) && Buffered(units, i, cuts, chunks, overlap, buf)
    requires Buffer(buf, len) && cuts[|chunks|] < i && (overlap > 0 ==> len <= bound)
    requires i < |units| ==> len + 1 + |units[i]| > size
    ensures Merged(units, cuts + [i], chunks + [Join(buf, '\n')], size, overlap, bound)
    ensures Buffered(units, i, cuts + [i], chunks + [Join(buf, '\n')], overlap, [OverlapTail(Join(buf, '\n'), overlap)])
  {
    Closed(units, i, cuts, chunks, Join(buf, '\n'), overlap);
  }

  lemma SliceGrows<T>(front: seq<T>, all: seq<T>, c: nat, i: nat)
    requires c <= i < |all|
    ensures front + all[c..i + 1] == (front + all[c..i]) + [all[i]]
  {
  }

  lemma PartsGrow(chunks: seq<string>, units: seq<string>, c: nat, i: nat, overlap: nat)
    requires c <= i < |units|
    ensures Parts(chunks, |chunks|, units[c..i + 1], overlap) == Parts(chunks, |chunks|, units[c..i], overlap) + [units[i]]
  {
    SliceGrows(if chunks == [] then [] else [OverlapTail(chunks[|chunks| - 1], overlap)], units, c, i);
  }

  lemma Push(units: seq<string>, i: nat, cuts: seq<nat>, chunks: seq<string>, buf: seq<string>, len: nat, overlap: nat)
    requires |cuts| == |chunks| + 1 && Buffered(units, i, cuts, chunks, overlap, buf)
    requires i < |units| && Trimmed(units[i]) && Buffer(buf, len)
    ensures Buffered(units, i + 1, cuts, chunks, overlap, buf + [units[i]])
    ensures Buffer(buf + [units[i]], len + |units[i]| + if buf == [] then 0 else 1)
  {
    Added(buf, len, units[i]);
    PartsGrow(chunks, units, cuts[|chunks|], i, overlap);
  }

  ghost predicate Merging(units: seq<string>, i: nat, cuts: seq<nat>, chunks: seq<string>, buf: seq<string>, len: nat,
                          size: nat, overlap: nat, longest: nat)
  {
    && Merged(units, cuts, chunks, size, overlap, ChunkBound(size, overlap, longest))
    && Buffered(units, i, cuts, chunks, overlap, buf)
    && Buffer(buf, len) && (overlap > 0 ==> len <= ChunkBound(size, overlap, longest))
    && (i == 0 <==> buf == []) && (i > 0 ==> cuts[|chunks|] < i)
  }

  /** Nothing read yet, or nothing to read. */
  lemma StepStarts(units: seq<string>, size: nat, overlap: nat, longest: nat)
    ensures Merging(units, 0, [0], [], [], 0, size, overlap, longest)
  {
  }

  /** The next unit fits. */
  lemma StepFits(units: seq<string>, i: nat, cuts: seq<nat>, chunks: seq<string>, buf: seq<string>, len: nat,
                 size: nat, overlap: nat, longest: nat)
    requires Merging(units, i, cuts, chunks, buf, len, size, overlap, longest)
    requires i < |units| && Units(units, longest)
    requires buf == [] || len + 1 + |units[i]| <= size
    ensures Merging(units, i + 1, cuts, chunks, buf + [units[i]], len + |units[i]| + if buf == [] then 0 else 1, size, overlap, longest)
  {
    Push(units, i, cuts, chunks, buf, len, overlap);
  }

  /** It does not: the buffer becomes a chunk, and its tail starts the next buffer. */
  lemma StepCloses(units: seq<string>, i: nat, cuts: seq<nat>, chunks: seq<string>, buf: seq<string>, len: nat,
                   size: nat, overlap: nat, longest: nat)
    requires Merging(units, i, cuts, chunks, buf, len, size, overlap, longest)
    requires i < |units| && Units(units, longest)
    requires buf != [] && len + 1 + |units[i]| > size
    ensures var tail := OverlapTail(Join(buf, '\n'), overlap);
      && tail != ""
      && Merging(units, i + 1, cuts + [i], chunks + [Join(buf, '\n')], [tail] + [units[i]], |tail| + 1 + |units[i]|, size, overlap, longest)
  {
    var chunk := Join(buf, '\n');
    Flush(units, i, cuts, chunks, buf, len, size, overlap, ChunkBound(size, overlap, longest));
    OverlapTailFacts(chunk, overlap);
    var tail := OverlapTail(chunk, overlap);
    assert Buffer([tail], |tail|);
    Push(units, i, cuts + [i], chunks + [chunk], [tail], |tail|, overlap);
  }

  /** The input has run out. */
  lemma StepEnds(units: seq<string>, cuts: seq<nat>, chunks: seq<string>, buf: seq<string>, len: nat,
                 size: nat, overlap: nat, longest: nat)
    requires Merging(units, |units|, cuts, chunks, buf, len, size, overlap, longest)
    ensures buf == [] ==> Chunked(units, cuts, chunks, size, overlap, longest)
    ensures buf != [] ==> Strip(Join(buf, '\n')) == Join(buf, '\n') != ""
    ensures buf != [] ==> Chunked(units, cuts + [|units|], chunks + [Join(buf, '\n')], size, overlap, longest)
  {
    if buf != [] {
      Flush(units, |units|, cuts, chunks, buf, len, size, overlap, ChunkBound(size, overlap, longest));
      StripShape(Join(buf, '\n'));
    }
  }

  /**
    * All units consumed, in consecutive non-empty slices, as many at a time as fit, into chunks
    * that begin with a tail of their predecessor and stay within the bound.
    */
  ghost predicate Chunked(units: seq<string>, cuts: seq<nat>, chunks: seq<string>, size: nat, overlap: nat, longest: nat)
  {
    Merged(units, cuts, chunks, size, overlap, ChunkBound(size, overlap, longest)) && cuts[|chunks|] == |units|
  }

  /** One unit: close the buffer first if it would grow past the size. */
  method MergeUnit(units: seq<string>, i: nat, chunks0: seq<string>, ghost cuts0: seq<nat>, buf0: seq<string>, len0: nat,
                   size: nat, overlap: nat, ghost longest: nat)
    returns (chunks: seq<string>, ghost cuts: seq<nat>, buf: seq<string>, len: nat)
    requires i < |units| && Units(units, longest)
    requires Merging(units, i, cuts0, chunks0, buf0, len0, size, overlap, longest)
    ensures Merging(units, i + 1, cuts, chunks, buf, len, size, overlap, longest)
  {
    var unit := units[i];
    chunks, cuts, buf, len := chunks0, cuts0, buf0, len0;
    var sep := if buf != [] then 1 else 0;
    if buf != [] && len + sep + |unit| > size {
      StepCloses(units, i, cuts, chunks, buf, len, size, overlap, longest);
      var chunk := Join(buf, '\n');
      chunks, cuts := chunks + [chunk], cuts + [i];
      var tail := OverlapTail(chunk, overlap);
      buf := if tail != "" then [tail] else [];
      len := |tail|;
    } else {
      StepFits(units, i, cuts, chunks, buf, len, size, overlap, longest);
    }
    buf, len := buf + [unit], len + sep + |unit|;
  }

  /** Merge units greedily, each chunk after the first beginning with its predecessor's tail. */
  method MergeWithOverlap(units: seq<string>, size: nat, overlap: nat, ghost longest: nat)
    returns (chunks: seq<string>, ghost cuts: seq<nat>)
    requires Units(units, longest)
    ensures Chunked(units, cuts, chunks, size, overlap, longest)
    ensures Shaped(chunks, overlap, ChunkBound(size, overlap, longest))
  {
    StepStarts(units, size, overlap, longest);
    chunks, cuts := [], [0];
    var buf: seq<string> := [];
    var bufLen: nat := 0;
    for i := 0 to |units|
      invariant Merging(units, i, cuts, chunks, buf, bufLen, size, overlap, longest)
    {
      chunks, cuts, buf, bufLen := MergeUnit(units, i, chunks, cuts, buf, bufLen, size, overlap, longest);
    }
    StepEnds(units, cuts, chunks, buf, bufLen, size, overlap, longest);
    if buf != [] {
      var chunk := Strip(Join(buf, '\n'));
      if chunk != "" {
        chunks, cuts := chunks + [chunk], cuts + [|units|];
      }
    }
  }

  // ---- the whole text ----

  /** What reaches the embedding model of a chunk. */
  function Embedded(chunk: string): string
  {
    if |chunk| > EMBED_LIMIT then chunk[..EMBED_LIMIT] else chunk
  }

  /**
    * The chunks of a text. Its words are those of the units, in order; chunks consume the
    * units in consecutive non-empty slices, as many at a time as fit; and with no word over
    * 1799 characters the embedder's cut drops nothing.
    */
  method ChunkText(text: string, ghost longest: nat)
    returns (chunks: seq<string>, ghost units: seq<string>, ghost cuts: seq<nat>)
    requires longest >= CHUNK_SIZE && WordsWithin(Words(text), longest)
    ensures Holds(units, text, longest)
    ensures Chunked(units, cuts, chunks, CHUNK_SIZE, CHUNK_OVERLAP, longest)
    ensures forall c | c in chunks :: |c| <= longest + CHUNK_OVERLAP + 1
    ensures longest + CHUNK_OVERLAP + 1 <= EMBED_LIMIT ==> forall c | c in chunks :: Embedded(c) == c
    ensures chunks == [] <==> Blank(text)
  {
    if Strip(text) == "" {
      chunks, units, cuts := [], [], [0];
      NoChunks(text, longest);
    } else {
      var split := SplitSemantic(text, longest);
      units := split;
      chunks, cuts := MergeWithOverlap(split, CHUNK_SIZE, CHUNK_OVERLAP, longest);
      ChunkFacts(text, units, cuts, chunks, longest);
    }
  }

  lemma NoChunks(text: string, longest: nat)
    requires Strip(text) == ""
    ensures Blank(text) && Holds([], text, longest) && Chunked([], [0], [], CHUNK_SIZE, CHUNK_OVERLAP, longest)
  {
    StripFacts(text);
    BlankIffNoWords(text);
  }

  lemma ChunkFacts(text: string, units: seq<string>, cuts: seq<nat>, chunks: seq<string>, longest: nat)
    requires Strip(text) != "" && longest >= CHUNK_SIZE && Holds(units, text, longest)
    requires Chunked(units, cuts, chunks, CHUNK_SIZE, CHUNK_OVERLAP, longest)
    ensures chunks != [] && !Blank(text)
    ensures forall c | c in chunks :: |c| <= longest + CHUNK_OVERLAP + 1
    ensures longest + CHUNK_OVERLAP + 1 <= EMBED_LIMIT ==> forall c | c in chunks :: Embedded(c) == c
  {
    StripFacts(text);
    BlankIffNoWords(text);
  }

  /**
    * Chunk by chunk: a chunk's words are those of the repeated tail followed by its own, and its
    * own words take up the text's exactly where the previous chunk left off.
    */
  lemma ChunkWords(units: seq<string>, cuts: seq<nat>, chunks: seq<string>, overlap: nat, k: nat)
    requires |cuts| == |chunks| + 1 && k < |chunks| && Consumed(units, cuts, chunks, overlap, k)
    ensures var own := AllWords(units[cuts[k]..cuts[k + 1]]);
      && Words(chunks[k]) == (if k == 0 then [] else Words(OverlapTail(chunks[k - 1], overlap))) + own
      && WordsOf(units, cuts[k + 1]) == WordsOf(units, cuts[k]) + own
  {
    var slice := units[cuts[k]..cuts[k + 1]];
    assert Consumed(units, cuts, chunks, overlap, k);
    PartsWords(chunks, k, slice, overlap);
    FlatSlice(Words, units, cuts[k], cuts[k + 1], |slice|);
  }

  lemma PartsWords(chunks: seq<string>, k: nat, slice: seq<string>, overlap: nat)
    requires k <= |chunks|
    ensures Words(Join(Parts(chunks, k, slice, overlap), '\n'))
         == (if k == 0 then [] else Words(OverlapTail(chunks[k - 1], overlap))) + AllWords(slice)
  {
    var parts := Parts(chunks, k, slice, overlap);
    JoinWords(parts, '\n', |parts|);
    if k == 0 {
      assert parts == slice;
    } else {
      var tail := OverlapTail(chunks[k - 1], overlap);
      AllWordsConcat([tail], slice);
      OneText(tail);
    }
  }

  lemma SliceOfSlice<T>(s: seq<T>, from: nat, a: nat, b: nat)
    requires from <= |s| && a <= b <= |s| - from
    ensures s[from..][a..b] == s[from + a..from + b]
  {
  }

  lemma ThreeParts<T>(s: seq<T>, i: nat, j: nat, k: nat)
    requires i <= j <= k <= |s|
    ensures s[i..] == s[i..j] + (s[j..k] + s[k..])
  {
  }

  /** What is repeated is a contiguous piece of the previous chunk's last `overlap` characters. */
  lemma TailIsPiece(chunk: string, overlap: nat)
    ensures exists a, b | 0 <= a <= b <= |LastChars(chunk, overlap)| ::
              OverlapTail(chunk, overlap) == LastChars(chunk, overlap)[a..b]
  {
    var tail := LastChars(chunk, overlap);
    var p := PhraseStart(tail, 1);
    var from := if p < |tail| then p else 0;
    var piece := tail[from..];
    var a := TextStart(piece, 0);
    var b := TextEnd(piece, a, |piece|);
    assert tail[0..] == tail;
    SliceOfSlice(tail, from, a, b);
  }

  /** A word beyond the embedder's limit is always cut: some chunk holding it is too long. */
  lemma LongWordCut(text: string, w: string, units: seq<string>, cuts: seq<nat>, chunks: seq<string>)
    requires w in Words(text) && |w| > EMBED_LIMIT
    requires AllWords(units) == Words(text)
    requires Consumes(units, cuts, chunks, CHUNK_OVERLAP) && cuts[|chunks|] == |units|
    ensures exists c | c in chunks :: Embedded(c) != c
  {
    FlatFrom(Words, units, |units|, w);
    var i :| 0 <= i < |units| && w in Words(units[i]);
    WordsAreWords(units[i]);
    UnitInChunk(units, cuts, chunks, i);
  }

  lemma UnitInChunk(units: seq<string>, cuts: seq<nat>, chunks: seq<string>, i: nat)
    requires Consumes(units, cuts, chunks, CHUNK_OVERLAP) && cuts[|chunks|] == |units| && i < |units|
    ensures exists c | c in chunks :: |c| >= |units[i]|
  {
    var k := ChunkOf(cuts, i, |chunks|);
    assert Consumed(units, cuts, chunks, CHUNK_OVERLAP, k);
    UnitInItsChunk(units, cuts, chunks, i, k);
  }

  lemma UnitInItsChunk(units: seq<string>, cuts: seq<nat>, chunks: seq<string>, i: nat, k: nat)
    requires |cuts| == |chunks| + 1 && k < |chunks| && Consumed(units, cuts, chunks, CHUNK_OVERLAP, k)
    requires cuts[k] <= i < cuts[k + 1]
    ensures chunks[k] in chunks && |chunks[k]| >= |units[i]|
  {
    PartInChunk(chunks, k, units[cuts[k]..cuts[k + 1]], i - cuts[k]);
  }

  lemma PartInChunk(chunks: seq<string>, k: nat, slice: seq<string>, j: nat)
    requires k < |chunks| && j < |slice| && IsChunk(chunks, k, slice, CHUNK_OVERLAP)
    ensures |chunks[k]| >= |slice[j]|
  {
    var parts := Parts(chunks, k, slice, CHUNK_OVERLAP);
    assert parts[|parts| - |slice| + j] == slice[j];
    JoinLength(parts, '\n', |parts|);
  }

  /** The slice that holds unit `i`. */
  function ChunkOf(cuts: seq<nat>, i: nat, n: nat): (k: nat)
    requires n < |cuts| && cuts[0] <= i < cuts[n]
    ensures k < n && cuts[k] <= i < cuts[k + 1]
  {
    if cuts[n - 1] <= i then n - 1 else ChunkOf(cuts, i, n - 1)
  }

  // ---- the longest word that is never cut ----

  /** Every chunking of every text whose words are at most `longest` long reaches the embedder whole. */
  ghost predicate AlwaysWhole(longest: nat)
  {
    forall text, units, cuts, chunks |
      WordsWithin(Words(text), longest) && Holds(units, text, longest) && Chunked(units, cuts, chunks, CHUNK_SIZE, CHUNK_OVERLAP, longest) ::
      AllWhole(chunks)
  }

  predicate AllWhole(chunks: seq<string>)
  {
    forall c | c in chunks :: Embedded(c) == c
  }

  /** A word of `n` equal letters. */
  function Repeated(c: char, n: nat): string
  {
    seq(n, i => c)
  }

  lemma RepeatedIsWord(c: char, n: nat)
    requires n > 0 && !IsSpace(c)
    ensures IsWord(Repeated(c, n)) && Trimmed(Repeated(c, n)) && |Repeated(c, n)| == n
  {
  }

  /** The tail of one long word is its end, cut anywhere. */
  lemma TailOfWord(w: string, overlap: nat)
    requires IsWord(w) && 0 < overlap < |w| && forall i | 0 <= i < |w| :: !EndsPhrase(w[i])
    ensures |OverlapTail(w, overlap)| == overlap
  {
    var tail := LastChars(w, overlap);
    assert forall i | 0 <= i < |tail| :: tail[i] == w[|w| - overlap + i];
    StripShape(tail);
  }

  lemma JoinPair(a: string, b: string)
    ensures Join([a, b], '\n') == a + (['\n'] + b)
  {
    assert JoinTo([a, b], '\n', 1) == a;
  }

  lemma FirstChunk(left: string, second: string, overlap: nat)
    ensures IsChunk([left, second], 0, [left], overlap)
  {
    assert Parts([left, second], 0, [left], overlap) == [left] && Join([left], '\n') == left;
  }

  lemma SecondChunk(left: string, second: string, right: string, overlap: nat)
    ensures IsChunk([left, second], 1, [right], overlap) <==> second == Join([OverlapTail(left, overlap), right], '\n')
  {
    assert Parts([left, second], 1, [right], overlap) == [OverlapTail(left, overlap), right];
  }

  lemma PairSlices<T>(a: T, b: T)
    ensures [a, b][0..1] == [a] && [a, b][1..2] == [b] && [a, b][0..2] == [a, b]
  {
  }

  lemma TwoConsumed(units: seq<string>, cuts: seq<nat>, chunks: seq<string>, overlap: nat)
    requires |chunks| == 2 && |cuts| == 3 && cuts[0] == 0 && forall k | 0 <= k < 3 :: cuts[k] <= |units|
    requires Consumed(units, cuts, chunks, overlap, 0) && Consumed(units, cuts, chunks, overlap, 1)
    ensures Consumes(units, cuts, chunks, overlap)
  {
    forall k | 0 <= k < |chunks| ensures Consumed(units, cuts, chunks, overlap, k) {
      assert k == 0 || k == 1;
    }
  }

  lemma PairSlice(left: string, right: string, chunks: seq<string>, overlap: nat, k: nat, unit: string)
    requires k <= 1 && |chunks| == 2 && unit == [left, right][k] && IsChunk(chunks, k, [unit], overlap)
    ensures Consumed([left, right], [0, 1, 2], chunks, overlap, k)
  {
    PairSlices(left, right);
  }

  /** Two units that do not fit together make two chunks, the second with the tail of the first. */
  lemma PairConsumed(left: string, right: string, second: string, overlap: nat)
    requires second == Join([OverlapTail(left, overlap), right], '\n')
    ensures Consumes([left, right], [0, 1, 2], [left, second], overlap)
  {
    FirstChunk(left, second, overlap);
    SecondChunk(left, second, right, overlap);
    PairSlice(left, right, [left, second], overlap, 0, left);
    PairSlice(left, right, [left, second], overlap, 1, right);
    TwoConsumed([left, right], [0, 1, 2], [left, second], overlap);
  }

  lemma PairChunked(left: string, right: string, second: string, longest: nat)
    requires second == Join([OverlapTail(left, CHUNK_OVERLAP), right], '\n') && Trimmed(left) && Trimmed(right)
    requires |left| <= longest && |right| <= longest && |left| + 1 + |right| > CHUNK_SIZE
    ensures Chunked([left, right], [0, 1, 2], [left, second], CHUNK_SIZE, CHUNK_OVERLAP, longest)
  {
    PairConsumed(left, right, second, CHUNK_OVERLAP);
    PairShaped(left, right, second, longest);
  }

  lemma PairShaped(left: string, right: string, second: string, longest: nat)
    requires second == Join([OverlapTail(left, CHUNK_OVERLAP), right], '\n') && Trimmed(left) && Trimmed(right)
    requires |left| <= longest && |right| <= longest
    ensures Shaped([left, second], CHUNK_OVERLAP, ChunkBound(CHUNK_SIZE, CHUNK_OVERLAP, longest))
  {
    OverlapTailFacts(left, CHUNK_OVERLAP);
    JoinPair(OverlapTail(left, CHUNK_OVERLAP), right);
    JoinTrimmed([OverlapTail(left, CHUNK_OVERLAP), right], '\n', 2);
  }

  lemma PairHeld(left: string, right: string, longest: nat)
    requires IsWord(left) && IsWord(right) && Trimmed(left) && Trimmed(right) && |left| <= longest && |right| <= longest
    ensures Words(left + ([' '] + right)) == [left, right]
    ensures Holds([left, right], left + ([' '] + right), longest)
  {
    SingleWord(left);
    SingleWord(right);
    WordsAcross(left, [' '], right);
    WordsOfWords([left, right], 2);
    assert [left, right][..2] == [left, right];
  }

  lemma NotAlwaysWhole(text: string, units: seq<string>, cuts: seq<nat>, chunks: seq<string>, longest: nat)
    requires WordsWithin(Words(text), longest) && Holds(units, text, longest)
    requires Chunked(units, cuts, chunks, CHUNK_SIZE, CHUNK_OVERLAP, longest) && !AllWhole(chunks)
    ensures !AlwaysWhole(longest)
  {
  }

  lemma TooLong(left: string, second: string)
    requires |second| > EMBED_LIMIT
    ensures !AllWhole([left, second])
  {
    assert [left, second][1] in [left, second];
  }

  /** A word of 1600 characters and one of 1800: the second chunk is one character too long. */
  lemma CutText(longest: nat)
    requires longest >= EMBED_LIMIT - CHUNK_OVERLAP
    ensures !AlwaysWhole(longest)
  {
    var left, right := Repeated('a', CHUNK_SIZE), Repeated('b', EMBED_LIMIT - CHUNK_OVERLAP);
    RepeatedIsWord('a', CHUNK_SIZE);
    RepeatedIsWord('b', EMBED_LIMIT - CHUNK_OVERLAP);
    PairCut(left, right, longest);
  }

  lemma PairCut(left: string, right: string, longest: nat)
    requires IsWord(left) && IsWord(right) && Trimmed(left) && Trimmed(right)
    requires |left| == CHUNK_SIZE <= longest && |right| == EMBED_LIMIT - CHUNK_OVERLAP <= longest
    requires forall i | 0 <= i < |left| :: !EndsPhrase(left[i])
    ensures !AlwaysWhole(longest)
  {
    var tail := OverlapTail(left, CHUNK_OVERLAP);
    var second := Join([tail, right], '\n');
    TailOfWord(left, CHUNK_OVERLAP);
    JoinPair(tail, right);
    PairHeld(left, right, longest);
    PairChunked(left, right, second, longest);
    TooLong(left, second);
    NotAlwaysWhole(left + ([' '] + right), [left, right], [0, 1, 2], [left, second], longest);
  }

  // ---- and no chunking of that text is whole ----

  lemma {:induction false} EachHasWords(units: seq<string>, longest: nat, n: nat)
    requires Units(units, longest) && n <= |units|
    ensures |WordsOf(units, n)| >= n
  {
    if n > 0 {
      EachHasWords(units, longest, n - 1);
      assert Trimmed(units[n - 1]);
      TrimmedHasWords(units[n - 1]);
    }
  }

  /** Two words too long for one unit are two units. */
  lemma TwoUnits(units: seq<string>, left: string, right: string, longest: nat)
    requires Units(units, longest) && AllWords(units) == [left, right] && |left| + |right| > longest
    ensures units == [left, right]
  {
    EachHasWords(units, longest, |units|);
    assert TotalLength([left, right], 1) == |left| && TotalLength([left, right], 2) == |left| + |right|;
    if |units| == 1 {
      OneText(units[0]);
      assert units == [units[0]];
      WordsLength(units[0]);
    } else if |units| == 2 {
      EachHasWords(units, longest, 1);
      assert Trimmed(units[0]) && Trimmed(units[1]);
      TrimmedHasWords(units[0]);
      TrimmedHasWords(units[1]);
      assert WordsOf(units, 1) == WordsOf(units, 0) + Words(units[0]);
      TwoSingles(Words(units[0]), Words(units[1]), left, right);
      TrimmedSingle(units[0], left);
      TrimmedSingle(units[1], right);
    }
  }

  lemma TwoSingles<T>(a: seq<T>, b: seq<T>, x: T, y: T)
    requires a != [] && b != [] && a + b == [x, y]
    ensures a == [x] && b == [y]
  {
    assert (a + b)[0] == a[0] && (a + b)[|a|] == b[0];
  }

  /** Whatever way two such words are chunked, some chunk is cut. */
  lemma NeverWhole(left: string, right: string, cuts: seq<nat>, chunks: seq<string>)
    requires IsWord(left) && |left| == CHUNK_SIZE && |right| == EMBED_LIMIT - CHUNK_OVERLAP
    requires forall i | 0 <= i < |left| :: !EndsPhrase(left[i])
    requires Consumes([left, right], cuts, chunks, CHUNK_OVERLAP) && cuts[|chunks|] == 2
    ensures !AllWhole(chunks)
  {
    assert |chunks| > 0 && Consumed([left, right], cuts, chunks, CHUNK_OVERLAP, 0);
    PairSlices(left, right);
    if cuts[1] == 2 {
      UnitInItsChunk([left, right], cuts, chunks, 0, 0);
      BothInOne(chunks, left, right);
    } else {
      assert Consumed([left, right], cuts, chunks, CHUNK_OVERLAP, 1);
      SecondTooLong(chunks, left, right);
    }
  }

  lemma BothInOne(chunks: seq<string>, left: string, right: string)
    requires chunks != [] && IsChunk(chunks, 0, [left, right], CHUNK_OVERLAP) && |left| + |right| > EMBED_LIMIT
    ensures !AllWhole(chunks)
  {
    assert Parts(chunks, 0, [left, right], CHUNK_OVERLAP) == [left, right];
    JoinPair(left, right);
    assert chunks[0] in chunks;
  }

  lemma SecondTooLong(chunks: seq<string>, left: string, right: string)
    requires IsWord(left) && |left| == CHUNK_SIZE && |right| == EMBED_LIMIT - CHUNK_OVERLAP && |chunks| > 1
    requires forall i | 0 <= i < |left| :: !EndsPhrase(left[i])
    requires IsChunk(chunks, 0, [left], CHUNK_OVERLAP) && IsChunk(chunks, 1, [right], CHUNK_OVERLAP)
    ensures !AllWhole(chunks)
  {
    assert Parts(chunks, 0, [left], CHUNK_OVERLAP) == [left] && Join([left], '\n') == left;
    var tail := OverlapTail(left, CHUNK_OVERLAP);
    assert Parts(chunks, 1, [right], CHUNK_OVERLAP) == [tail, right];
    TailOfWord(left, CHUNK_OVERLAP);
    JoinPair(tail, right);
    assert chunks[1] in chunks;
  }

  /** A word of 1600 characters followed by one of 1800 is cut by every chunking the text can get. */
  lemma Word1800Cut(units: seq<string>, cuts: seq<nat>, chunks: seq<string>)
    requires var text := Repeated('a', CHUNK_SIZE) + ([' '] + Repeated('b', EMBED_LIMIT - CHUNK_OVERLAP));
      Holds(units, text, EMBED_LIMIT - CHUNK_OVERLAP)
    requires Chunked(units, cuts, chunks, CHUNK_SIZE, CHUNK_OVERLAP, EMBED_LIMIT - CHUNK_OVERLAP)
    ensures !AllWhole(chunks)
  {
    var longest := EMBED_LIMIT - CHUNK_OVERLAP;
    RepeatedIsWord('a', CHUNK_SIZE);
    RepeatedIsWord('b', longest);
    WordThenWord(Repeated('a', CHUNK_SIZE), Repeated('b', longest), units, cuts, chunks);
  }

  lemma WordThenWord(left: string, right: string, units: seq<string>, cuts: seq<nat>, chunks: seq<string>)
    requires IsWord(left) && IsWord(right) && Trimmed(left) && Trimmed(right)
    requires |left| == CHUNK_SIZE && |right| == EMBED_LIMIT - CHUNK_OVERLAP && forall i | 0 <= i < |left| :: !EndsPhrase(left[i])
    requires Holds(units, left + ([' '] + right), EMBED_LIMIT - CHUNK_OVERLAP)
    requires Chunked(units, cuts, chunks, CHUNK_SIZE, CHUNK_OVERLAP, EMBED_LIMIT - CHUNK_OVERLAP)
    ensures !AllWhole(chunks)
  {
    PairHeld(left, right, EMBED_LIMIT - CHUNK_OVERLAP);
    TwoUnits(units, left, right, EMBED_LIMIT - CHUNK_OVERLAP);
    NeverWhole(left, right, cuts, chunks);
  }

  /** The embedder's cut never drops text if and only if no word may exceed 1799 characters. */
  lemma AlwaysWholeExactly(longest: nat)
    requires longest >= CHUNK_SIZE
    ensures AlwaysWhole(longest) <==> longest < EMBED_LIMIT - CHUNK_OVERLAP
  {
    if longest < EMBED_LIMIT - CHUNK_OVERLAP {
      forall text, units, cuts, chunks |
        WordsWithin(Words(text), longest) && Holds(units, text, longest) && Chunked(units, cuts, chunks, CHUNK_SIZE, CHUNK_OVERLAP, longest)
        ensures AllWhole(chunks)
      {
        ShortEnough(chunks, longest);
      }
    } else {
      CutText(longest);
    }
  }

  lemma ShortEnough(chunks: seq<string>, longest: nat)
    requires CHUNK_SIZE <= longest < EMBED_LIMIT - CHUNK_OVERLAP
    requires Shaped(chunks, CHUNK_OVERLAP, ChunkBound(CHUNK_SIZE, CHUNK_OVERLAP, longest))
    ensures AllWhole(chunks)
  {
  }
}
