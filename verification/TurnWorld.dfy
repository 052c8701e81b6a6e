/** The outside world of a streamed turn, and what a history must have taken from it: every token, tool
    execution, question and ending answers to the model output, tool replies and clock of the turn. */
module TurnWorld {
  import opened TurnHistory

  /** What decoding a call's arguments gave; undecodable text counts as the empty object. */
  datatype Arguments = Object(canonical: string) | NotAnObject

  datatype ToolCall = ToolCall(name: string, arguments: Arguments)

  datatype Chunk = Text(text: string) | Calls(calls: seq<ToolCall>) | Usage | CapExceeded

  /** One run of `call_stream`: the chunks it yields, and whether it then raises.
      `closeRaises` is what closing it early does. */
  datatype Stream = Stream(chunks: seq<Chunk>, raises: bool, closeRaises: bool)

  datatype Reply = Raises | Asks(question: string) | Remembers(fact: string) | Schedules(wellFormed: bool) | Plain

  /** The n-th model call, tool reply and clock reading of the turn. */
  datatype World = World(streams: nat -> Stream, replies: nat -> Reply, elapsed: nat -> real)

  // ---- what a stream says ----

  /** The texts among the first `n` chunks. */
  function Texts(chunks: seq<Chunk>, n: nat): seq<string>
    requires n <= |chunks|
  {
    if n == 0 then []
    else if chunks[n - 1].Text? then Texts(chunks, n - 1) + [chunks[n - 1].text]
    else Texts(chunks, n - 1)
  }

  /** The last tool calls among the first `n` chunks. */
  function LastCalls(chunks: seq<Chunk>, n: nat): seq<ToolCall>
    requires n <= |chunks|
  {
    if n == 0 then []
    else if chunks[n - 1].Calls? then chunks[n - 1].calls
    else LastCalls(chunks, n - 1)
  }

  /** The first chunk from `i` on that reports the connection's time cap, or the end. */
  function CapFrom(chunks: seq<Chunk>, i: nat): (r: nat)
    requires i <= |chunks|
    ensures i <= r <= |chunks| && (forall k | i <= k < r :: !chunks[k].CapExceeded?)
    ensures r < |chunks| ==> chunks[r].CapExceeded?
    decreases |chunks| - i
  {
    if i == |chunks| || chunks[i].CapExceeded? then i else CapFrom(chunks, i + 1)
  }

  function SaidTexts(s: Stream): seq<string>
  {
    Texts(s.chunks, CapFrom(s.chunks, 0))
  }

  function SaidCalls(s: Stream): seq<ToolCall>
  {
    LastCalls(s.chunks, CapFrom(s.chunks, 0))
  }

  predicate Capped(s: Stream)
  {
    CapFrom(s.chunks, 0) < |s.chunks|
  }

  /** The stream ends by itself, without a fault. */
  predicate Complete(s: Stream)
  {
    !Capped(s) && !s.raises
  }

  lemma {:induction false} TextsGrow(chunks: seq<Chunk>, i: nat, n: nat)
    requires i <= n <= |chunks|
    ensures Texts(chunks, i) <= Texts(chunks, n)
    decreases n - i
  {
    if i < n {
      TextsGrow(chunks, i, n - 1);
    }
  }

  /** Each text chunk stands in the texts where the texts before it end. */
  lemma TextAt(chunks: seq<Chunk>, i: nat, n: nat)
    requires i < n <= |chunks| && chunks[i].Text?
    ensures |Texts(chunks, i)| < |Texts(chunks, n)|
    ensures Texts(chunks, n)[|Texts(chunks, i)|] == chunks[i].text
  {
    TextsGrow(chunks, i + 1, n);
  }

  /** A stream of nothing but text says exactly its chunks. */
  lemma {:induction false} AllText(s: Stream, n: nat)
    requires n <= |s.chunks| && forall i | 0 <= i < |s.chunks| :: s.chunks[i].Text?
    ensures CapFrom(s.chunks, 0) == |s.chunks|
    ensures |Texts(s.chunks, n)| == n && forall i | 0 <= i < n :: Texts(s.chunks, n)[i] == s.chunks[i].text
    ensures LastCalls(s.chunks, n) == []
  {
    if n > 0 {
      AllText(s, n - 1);
    }
  }

  /** The last list of tool calls before the end, or the cap, is the one that counts. */
  lemma {:induction false} LastCallsAt(chunks: seq<Chunk>, i: nat, n: nat)
    requires i < n <= |chunks| && chunks[i].Calls? && forall k | i < k < n :: !chunks[k].Calls?
    ensures LastCalls(chunks, n) == chunks[i].calls
    decreases n - i
  {
    if i + 1 < n {
      LastCallsAt(chunks, i, n - 1);
    }
  }

  // ---- what a history takes from the world ----

  function StreamOf(w: World, d: Digest): Stream
  {
    if d.calls > 0 then w.streams(d.calls - 1) else Stream([], false, false)
  }

  function LastReply(w: World, d: Digest): Reply
  {
    if d.replies > 0 then w.replies(d.replies - 1) else Plain
  }

  /** The clock is read once before each call and once after each token. */
  function Reading(d: Digest): nat
  {
    d.calls + d.tokens
  }

  predicate Late(p: Plan, w: World, reading: nat)
  {
    p.turnBudget > 0 && w.elapsed(reading) > p.turnBudget as real
  }

  /** The last token of this call passed a bound of the turn. */
  predicate Over(p: Plan, w: World, d: Digest)
  {
    d.acc != [] && Reading(d) > 0 && (Late(p, w, Reading(d) - 1) || !WithinTokens(p, d.chars))
  }

  /** The current stream is over and nothing went wrong with it or after it. */
  predicate Heard(p: Plan, w: World, d: Digest)
  {
    d.acc == SaidTexts(StreamOf(w, d)) && Complete(StreamOf(w, d)) && !Over(p, w, d)
  }

  /** The next tool call to consider is this one: it is the next one requested, and every reply so far was plain. */
  predicate Wants(w: World, d: Digest, s: Signature)
  {
    var calls := SaidCalls(StreamOf(w, d));
    && Complete(StreamOf(w, d))
    && d.ran < |calls| && calls[d.ran] == ToolCall(s.name, Object(s.arguments))
    && (d.ran > 0 ==> LastReply(w, d).Plain?)
  }

  /** The latest execution was of a tool called `name`. */
  predicate JustRan(w: World, d: Digest, name: string)
  {
    var calls := SaidCalls(StreamOf(w, d));
    0 < d.ran <= |calls| && calls[d.ran - 1].name == name
  }

  /** The latest execution of this call, if any, has just been reported to the client. */
  predicate Reported(w: World, d: Digest)
  {
    d.ran > 0 ==> d.last.Yield? && d.last.event.ToolResult? && JustRan(w, d, d.last.event.name)
  }

  /** All requested calls were executed and reported, or the loop guard tripped. */
  predicate RoundOver(w: World, d: Digest)
  {
    var calls := SaidCalls(StreamOf(w, d));
    && calls != [] && Complete(StreamOf(w, d))
    && ((d.ran == |calls| && LastReply(w, d).Plain? && Reported(w, d)) || d.last.GuardTrip?)
  }

  /** The current stream gave no text, and broke or requested nothing either. */
  predicate GaveNothing(w: World, d: Digest)
  {
    var s := StreamOf(w, d);
    && d.callsHere > 0 && d.ran == 0 && d.acc == [] == SaidTexts(s)
    && if Capped(s) then s.closeRaises else s.raises || SaidCalls(s) == []
  }

  predicate SaysEvent(p: Plan, w: World, d: Digest, e: Event)
  {
    var s := StreamOf(w, d);
    match e
    case Token(t) => d.callsHere > 0 ==> |d.acc| < |SaidTexts(s)| && t == SaidTexts(s)[|d.acc|] && !Over(p, w, d)
    case PreambleDiscard => Heard(p, w, d) && SaidCalls(s) != []
    case ToolCalled(name) => d.ran < |SaidCalls(s)| && SaidCalls(s)[d.ran].name == name && Reported(w, d)
    case ToolResult(name) => JustRan(w, d, name) && LastReply(w, d).Plain?
    case AskUser(q) => d.ran > 0 && LastReply(w, d) == Asks(q)
    case ConfirmMemory(f) => d.ran > 0 && LastReply(w, d) == Remembers(f)
    case ConfirmCalendar => d.ran > 0 && LastReply(w, d) == Schedules(true)
    case Error(reason) => SaysError(p, w, d, reason)
    case _ => true
  }

  predicate SaysError(p: Plan, w: World, d: Digest, reason: ErrorReason)
  {
    var s := StreamOf(w, d);
    match reason
    case TimeBudget => if d.acc != [] then Reading(d) > 0 && Late(p, w, Reading(d) - 1) && !s.closeRaises else Late(p, w, Reading(d))
    case TokenBudget => if d.acc != [] then Reading(d) > 0 && !Late(p, w, Reading(d) - 1) && !s.closeRaises else !Late(p, w, Reading(d))
    case ConnectionCap => d.acc == SaidTexts(s) && Capped(s) && !Over(p, w, d) && !s.closeRaises
    case Interrupted =>
      if Over(p, w, d) then s.closeRaises else d.acc == SaidTexts(s) && if Capped(s) then s.closeRaises else s.raises
    case LoopLimit => RoundOver(w, d)
    case AllFailed => d.attempts > 0 ==> GaveNothing(w, d)
  }

  /** What the world must have said for a turn with digest `d` to do `a` next. */
  predicate Says(p: Plan, w: World, d: Digest, a: Action)
  {
    match a
    case Yield(e) => SaysEvent(p, w, d, e)
    case AttemptStart(_) => d.attempts > 0 ==> GaveNothing(w, d)
    case CallStart(_, _) => !Late(p, w, Reading(d)) && (d.callsHere > 0 ==> RoundOver(w, d))
    case Execute(s) => Wants(w, d, s)
    case GuardTrip(s) => Wants(w, d, s)
    case Answer(_) => Heard(p, w, d) && SaidCalls(StreamOf(w, d)) == []
    case _ => true
  }

  ghost predicate Relays(p: Plan, w: World, h: seq<Action>)
  {
    forall i | 0 <= i < |h| :: SaidAt(p, w, h, i)
  }

  ghost predicate SaidAt(p: Plan, w: World, h: seq<Action>, i: nat)
    requires i < |h|
  {
    Says(p, w, DigestOf(h[..i]), h[i])
  }

  lemma RelaysPrefix(p: Plan, w: World, h: seq<Action>, k: nat)
    requires Relays(p, w, h) && k <= |h|
    ensures Relays(p, w, h[..k])
  {
    forall i | 0 <= i < k ensures SaidAt(p, w, h[..k], i) {
      assert SaidAt(p, w, h, i);
      assert h[..k][..i] == h[..i];
    }
  }

  // ---- what every such history guarantees ----

  /** Calls of this attempt are calls of the turn. */
  lemma {:induction false} CallsInOrder(h: seq<Action>)
    ensures DigestOf(h).callsHere <= DigestOf(h).calls
    ensures DigestOf(h).ran <= DigestOf(h).replies
  {
    if h != [] {
      CallsInOrder(h[..|h| - 1]);
    }
  }

  /** The client has exactly the text of the current stream, which requested no tool and ended by itself. */
  ghost predicate SaidInFull(w: World, d: Digest)
  {
    && d.calls > 0 && d.acc == SaidTexts(w.streams(d.calls - 1))
    && SaidCalls(w.streams(d.calls - 1)) == [] && Complete(w.streams(d.calls - 1))
  }

  predicate WritesText(a: Action)
  {
    a.Answer? || a.CacheWrite?
  }

  lemma WrittenInFull(p: Plan, w: World, d: Digest, a: Action)
    requires Allowed(p, d, a) && Says(p, w, d, a) && WritesText(a) && d.callsHere <= d.calls
    requires WritesText(d.last) ==> SaidInFull(w, d)
    ensures SaidInFull(w, Next(d, a))
  {
  }

  lemma {:induction false} AnsweredInFull(p: Plan, w: World, h: seq<Action>)
    requires Conforms(p, h) && Relays(p, w, h) && h != [] && WritesText(h[|h| - 1])
    ensures SaidInFull(w, DigestOf(h))
    decreases |h|
  {
    var k := |h| - 1;
    assert Allowed(p, DigestOf(h[..k]), h[k]) && SaidAt(p, w, h, k);
    CallsInOrder(h[..k]);
    LastAction(h, k);
    if k > 0 && WritesText(h[k - 1]) {
      ConformsPrefix(p, h, k);
      RelaysPrefix(p, w, h, k);
      AnsweredInFull(p, w, h[..k]);
    }
    WrittenInFull(p, w, DigestOf(h[..k]), h[k]);
  }

  /** A text answer is announced when the client has exactly what the last stream said. */
  lemma AnswerIsStream(p: Plan, w: World, h: seq<Action>, i: nat)
    requires Conforms(p, h) && Relays(p, w, h) && i < |h| && h[i].Yield? && h[i].event.Done? && !h[i].event.cacheHit
    requires ClientText(h[..i]) != []
    ensures SaidInFull(w, DigestOf(h[..i])) && ClientText(h[..i]) == SaidTexts(w.streams(DigestOf(h[..i]).calls - 1))
  {
    TextAgreement(p, h, i);
    ConformsPrefix(p, h, i);
    RelaysPrefix(p, w, h, i);
    AnsweredInFull(p, w, h[..i]);
    ClientTextIsAcc(h[..i]);
  }

  /** The signatures executed by the actions from `i` up to `n`. */
  function Executed(h: seq<Action>, i: nat, n: nat): seq<Signature>
    requires i <= n <= |h|
    decreases n
  {
    if n == i then []
    else if h[n - 1].Execute? then Executed(h, i, n - 1) + [h[n - 1].signature]
    else Executed(h, i, n - 1)
  }

  /** Executed signatures are requested calls, in the order of the request. */
  predicate InOrder(calls: seq<ToolCall>, run: seq<Signature>)
  {
    |run| <= |calls| && forall k | 0 <= k < |run| :: calls[k] == ToolCall(run[k].name, Object(run[k].arguments))
  }

  /** The tools run since the current call started are those `run` lists. */
  ghost predicate Ran(w: World, d: Digest, calls: nat, run: seq<Signature>)
  {
    d.calls == calls + 1 && d.ran == |run| && InOrder(SaidCalls(w.streams(calls)), run)
  }

  lemma RanStep(p: Plan, w: World, d: Digest, a: Action, calls: nat, run: seq<Signature>)
    requires Ran(w, d, calls, run) && Says(p, w, d, a) && !a.CallStart?
    ensures Ran(w, Next(d, a), calls, if a.Execute? then run + [a.signature] else run)
  {
  }

  /** Between a model call and the next, the tools executed are the first of those its stream requested,
      in order. */
  lemma {:induction false} ExecutesRequested(p: Plan, w: World, h: seq<Action>, i: nat, n: nat)
    requires Relays(p, w, h) && i < n <= |h| && h[i].CallStart?
    requires forall k | i < k < n :: !h[k].CallStart?
    ensures Ran(w, DigestOf(h[..n]), DigestOf(h[..i]).calls, Executed(h, i, n))
    decreases n
  {
    if n == i + 1 {
      RanStart(w, h, i, n);
    } else {
      ExecutesRequested(p, w, h, i, n - 1);
      RanOn(p, w, h, i, n);
    }
  }

  lemma RanOn(p: Plan, w: World, h: seq<Action>, i: nat, n: nat)
    requires Relays(p, w, h) && i < n <= |h| && !h[n - 1].CallStart?
    requires Ran(w, DigestOf(h[..n - 1]), DigestOf(h[..i]).calls, Executed(h, i, n - 1))
    ensures Ran(w, DigestOf(h[..n]), DigestOf(h[..i]).calls, Executed(h, i, n))
  {
    RanNext(p, w, h, n, DigestOf(h[..i]).calls, Executed(h, i, n - 1));
  }

  lemma RanNext(p: Plan, w: World, h: seq<Action>, n: nat, calls: nat, run: seq<Signature>)
    requires Relays(p, w, h) && 0 < n <= |h| && !h[n - 1].CallStart? && Ran(w, DigestOf(h[..n - 1]), calls, run)
    ensures Ran(w, DigestOf(h[..n]), calls, if h[n - 1].Execute? then run + [h[n - 1].signature] else run)
  {
    DigestNext(h, n);
    assert SaidAt(p, w, h, n - 1);
    RanStep(p, w, DigestOf(h[..n - 1]), h[n - 1], calls, run);
  }

  lemma RanStart(w: World, h: seq<Action>, i: nat, n: nat)
    requires i < n == i + 1 <= |h| && h[i].CallStart?
    ensures Ran(w, DigestOf(h[..n]), DigestOf(h[..i]).calls, Executed(h, i, n))
  {
    assert h[..n][..i] == h[..i];
    assert Executed(h, i, n) == Executed(h, i, i) == [];
  }

  /** The next call of an attempt starts, or the loop limit is reported, only when all of them ran or the guard tripped. */
  lemma RoundsAreComplete(p: Plan, w: World, h: seq<Action>, i: nat, n: nat)
    requires Conforms(p, h) && Relays(p, w, h) && i < n < |h| && h[i].CallStart?
    requires forall k | i < k < n :: !h[k].CallStart? && !h[k].AttemptStart?
    requires h[n].CallStart? || h[n] == Yield(Error(LoopLimit))
    ensures var calls := SaidCalls(w.streams(DigestOf(h[..i]).calls));
      calls != [] && (|Executed(h, i, n)| == |calls| || h[n - 1].GuardTrip?)
  {
    ExecutesRequested(p, w, h, i, n);
    assert SaidAt(p, w, h, n);
    CallHere(h, i, n);
    LastAction(h, n);
    RoundStep(p, w, DigestOf(h[..n]), h[n], DigestOf(h[..i]).calls, Executed(h, i, n));
  }

  lemma RoundStep(p: Plan, w: World, d: Digest, a: Action, calls: nat, run: seq<Signature>)
    requires Ran(w, d, calls, run) && Says(p, w, d, a) && d.callsHere > 0
    requires a.CallStart? || a == Yield(Error(LoopLimit))
    ensures SaidCalls(w.streams(calls)) != [] && (|run| == |SaidCalls(w.streams(calls))| || d.last.GuardTrip?)
  {
  }

  lemma {:induction false} CallHere(h: seq<Action>, i: nat, n: nat)
    requires i < n <= |h| && h[i].CallStart? && forall k | i < k < n :: !h[k].AttemptStart?
    ensures DigestOf(h[..n]).callsHere > 0
    decreases n
  {
    assert h[..n][..n - 1] == h[..n - 1];
    if n > i + 1 {
      CallHere(h, i, n - 1);
    }
  }

  /** No token follows one that passed a bound, and no call starts late: the clock is obeyed at every reading. */
  lemma ClockObeyed(p: Plan, w: World, h: seq<Action>, i: nat)
    requires Conforms(p, h) && Relays(p, w, h) && i < |h| && p.turnBudget > 0
    ensures h[i].CallStart? ==> w.elapsed(Reading(DigestOf(h[..i]))) <= p.turnBudget as real
    ensures h[i].Yield? && h[i].event.Token? && DigestOf(h[..i]).callsHere > 0 && ClientText(h[..i]) != [] ==>
      Reading(DigestOf(h[..i])) > 0 && w.elapsed(Reading(DigestOf(h[..i])) - 1) <= p.turnBudget as real
  {
    assert SaidAt(p, w, h, i);
    ClientTextIsAcc(h[..i]);
    CallsInOrder(h[..i]);
  }
}
