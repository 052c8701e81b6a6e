/** The history specification of one streamed chat turn: which actions the turn
    engine may take, judged only from what it has done so far.

    A history is the list of everything `generate_stream` does that anybody can
    observe: the events it yields, the model calls and tool executions it starts,
    and its writes to the response cache. */
module TurnHistory {

  /** A tool call's identity for the loop guard: its name and its canonical arguments. */
  datatype Signature = Signature(name: string, arguments: string)

  datatype ErrorReason = TimeBudget | TokenBudget | ConnectionCap | Interrupted | LoopLimit | AllFailed

  datatype Event =
    | Status
    | Token(text: string)
    | PreambleDiscard
    | ToolCalled(name: string)
    | ToolResult(name: string)
    | AskUser(question: string)
    | ConfirmMemory(fact: string)
    | ConfirmCalendar
    | Done(model: string, cacheHit: bool, fallback: bool)
    | Error(reason: ErrorReason)

  datatype Action =
    | Begin
    | Yield(event: Event)
    | AttemptStart(model: string)
    | CallStart(model: string, withTools: bool)
    | Execute(signature: Signature)
    | GuardTrip(signature: Signature)
    | Answer(text: string)
    | CacheWrite(text: string)

  /** What the configuration fixes for a turn. A `turnBudget` (seconds) or `maxTokens` of
      zero or less switches that bound off; `cacheable` means the answer is to be stored and the store accepts it. */
  datatype Plan = Plan(chain: seq<string>, turnBudget: int, maxTokens: int, limit: string -> nat, cacheable: bool)

  const MAX_TOOL_ITERATIONS: nat := 60

  /** What a history amounts to. `acc` is the client-side text: tokens appended,
      a discarded preamble dropped. The `...Here` fields restart with each model attempt, and
      `ran` counts the tools executed since the last call; `replies` counts them all. */
  datatype Digest = Digest(
    acc: seq<string>,
    chars: nat,
    lastToken: nat,
    tokens: nat,
    calls: nat,
    ran: nat,
    replies: nat,
    attempts: nat,
    callsHere: nat,
    model: string,
    runsHere: map<Signature, nat>,
    trippedHere: bool,
    endings: nat,
    last: Action)

  const EMPTY := Digest([], 0, 0, 0, 0, 0, 0, 0, 0, "", map[], false, 0, Begin)

  function Concat(parts: seq<string>): string
  {
    if parts == [] then "" else Concat(parts[..|parts| - 1]) + parts[|parts| - 1]
  }

  /** Texts are joined in their order, with nothing between them. */
  lemma {:induction false} ConcatAppend(a: seq<string>, b: seq<string>)
    ensures Concat(a + b) == Concat(a) + Concat(b)
    decreases |b|
  {
    if b == [] {
      assert a + b == a;
    } else {
      var init := b[..|b| - 1];
      assert (a + b)[..|a + b| - 1] == a + init;
      ConcatAppend(a, init);
    }
  }

  lemma ConcatOne(t: string)
    ensures Concat([t]) == t
  {
    assert Concat([t]) == Concat([]) + t;
  }

  predicate IsEnding(a: Action)
  {
    a.Yield? && (a.event.Done? || a.event.Error?)
  }

  predicate IsQuestion(a: Action)
  {
    a.Yield? && (a.event.AskUser? || a.event.ConfirmMemory? || a.event.ConfirmCalendar?)
  }

  function Runs(d: Digest, s: Signature): nat
  {
    if s in d.runsHere then d.runsHere[s] else 0
  }

  function Next(d: Digest, a: Action): Digest
  {
    match a
    case Yield(Token(t)) => d.(acc := d.acc + [t], chars := d.chars + |t|, lastToken := |t|, tokens := d.tokens + 1, last := a)
    case Yield(PreambleDiscard) => d.(acc := [], last := a)
    case Yield(Done(_, _, _)) => d.(endings := d.endings + 1, last := a)
    case Yield(Error(_)) => d.(endings := d.endings + 1, last := a)
    case AttemptStart(m) =>
      d.(attempts := d.attempts + 1, callsHere := 0, model := m, runsHere := map[], trippedHere := false, last := a)
    case CallStart(_, _) => d.(calls := d.calls + 1, callsHere := d.callsHere + 1, ran := 0, last := a)
    case Execute(s) => d.(runsHere := d.runsHere[s := Runs(d, s) + 1], ran := d.ran + 1, replies := d.replies + 1, last := a)
    case GuardTrip(_) => d.(trippedHere := true, last := a)
    case _ => d.(last := a)
  }

  ghost function DigestOf(h: seq<Action>): Digest
  {
    if h == [] then EMPTY else Next(DigestOf(h[..|h| - 1]), h[|h| - 1])
  }

  /** The estimate `chars // 4` has not passed the token bound. */
  predicate WithinTokens(p: Plan, chars: nat)
  {
    p.maxTokens > 0 ==> chars / 4 <= p.maxTokens
  }

  predicate MayYield(p: Plan, d: Digest, e: Event)
  {
    match e
    case Status => true
    case Token(_) =>
      || (d.attempts == 0 && d.acc == [] && d.last == Yield(Status))
      || (d.callsHere > 0 && WithinTokens(p, d.chars))
    case PreambleDiscard => d.acc != [] && d.callsHere > 0
    case ToolCalled(_) => d.acc == [] && d.callsHere > 0
    case ToolResult(_) => d.acc == [] && d.callsHere > 0
    case AskUser(_) => d.acc == [] && d.callsHere > 0
    case ConfirmMemory(_) => d.acc == [] && d.callsHere > 0
    case ConfirmCalendar => d.acc == [] && d.callsHere > 0
    case Done(m, hit, fallback) =>
      if hit then d.attempts == 0 && |d.acc| == 1 && !fallback
      else
        && m == d.model && d.callsHere > 0 && fallback == (d.attempts > 1)
        && (|| (p.cacheable && d.last == CacheWrite(Concat(d.acc)))
            || (!p.cacheable && d.last == Answer(Concat(d.acc)))
            || (IsQuestion(d.last) && d.acc == []))
    case Error(reason) =>
      match reason
      case TimeBudget => p.turnBudget > 0 && d.attempts > 0
      case TokenBudget => !WithinTokens(p, d.chars)
      case ConnectionCap => d.callsHere > 0
      case Interrupted => d.acc != [] && d.callsHere > 0
      case LoopLimit => d.callsHere == MAX_TOOL_ITERATIONS && d.acc == []
      case AllFailed => d.attempts == |p.chain| && d.acc == []
  }

  /** Whether a turn with digest `d` may do `a` next. */
  predicate Allowed(p: Plan, d: Digest, a: Action)
  {
    && d.endings == 0
    && match a
       case Begin => false
       case Yield(e) => MayYield(p, d, e)
       case AttemptStart(m) => d.acc == [] && d.attempts < |p.chain| && m == p.chain[d.attempts]
       case CallStart(m, withTools) =>
         && d.acc == [] && d.attempts > 0 && m == d.model
         && d.callsHere < MAX_TOOL_ITERATIONS
         && withTools == !d.trippedHere
       case Execute(s) => d.acc == [] && d.callsHere > 0 && Runs(d, s) < p.limit(s.name)
       case GuardTrip(s) => d.acc == [] && d.callsHere > 0 && Runs(d, s) == p.limit(s.name)
       case Answer(t) => d.acc != [] && d.callsHere > 0 && t == Concat(d.acc)
       case CacheWrite(t) => p.cacheable && d.last == Answer(t) && t == Concat(d.acc)
  }

  ghost predicate Conforms(p: Plan, h: seq<Action>)
  {
    forall i | 0 <= i < |h| :: Allowed(p, DigestOf(h[..i]), h[i])
  }

  lemma DigestNext(h: seq<Action>, n: nat)
    requires 0 < n <= |h|
    ensures DigestOf(h[..n]) == Next(DigestOf(h[..n - 1]), h[n - 1])
  {
    assert h[..n][..n - 1] == h[..n - 1];
  }

  lemma ConformsPrefix(p: Plan, h: seq<Action>, k: nat)
    requires Conforms(p, h) && k <= |h|
    ensures Conforms(p, h[..k])
  {
    forall i | 0 <= i < k ensures Allowed(p, DigestOf(h[..k][..i]), h[..k][i]) {
      assert h[..k][..i] == h[..i];
    }
  }

  // ---- what every conforming history guarantees ----

  lemma NextEndings(d: Digest, a: Action)
    ensures Next(d, a).endings == d.endings + if IsEnding(a) then 1 else 0
  {
  }

  predicate NoEnding(h: seq<Action>, n: nat)
    requires n <= |h|
  {
    forall i | 0 <= i < n :: !IsEnding(h[i])
  }

  lemma {:induction false} EndingsUpTo(h: seq<Action>, n: nat)
    requires n <= |h|
    ensures DigestOf(h[..n]).endings == 0 <==> NoEnding(h, n)
  {
    if n > 0 {
      EndingsUpTo(h, n - 1);
      assert h[..n][..n - 1] == h[..n - 1] && h[..n][n - 1] == h[n - 1];
      NextEndings(DigestOf(h[..n - 1]), h[n - 1]);
    }
  }

  lemma EndingsCounted(h: seq<Action>)
    ensures DigestOf(h).endings == 0 <==> forall i | 0 <= i < |h| :: !IsEnding(h[i])
  {
    EndingsUpTo(h, |h|);
    assert h[..|h|] == h;
  }

  /** Nothing follows an ending, so a history holds at most one. */
  lemma EndingIsLast(p: Plan, h: seq<Action>, i: nat)
    requires Conforms(p, h) && i < |h| && IsEnding(h[i])
    ensures i == |h| - 1
    ensures forall j | 0 <= j < |h| && IsEnding(h[j]) :: j == i
  {
    var last := |h| - 1;
    assert h[last] == h[last] && Allowed(p, DigestOf(h[..last]), h[last]);
    EndingsCounted(h[..last]);
    assert forall j | 0 <= j < last :: h[..last][j] == h[j];
    forall j | 0 <= j < i ensures !IsEnding(h[j]) {
      EndingsCounted(h[..i]);
      assert h[..i][j] == h[j];
    }
  }

  /** The quantitative bounds, as a property of a digest. */
  ghost predicate Bounded(p: Plan, d: Digest)
  {
    && d.attempts <= |p.chain|
    && (d.attempts > 0 ==> d.model == p.chain[d.attempts - 1])
    && d.callsHere <= MAX_TOOL_ITERATIONS
    && (if d.attempts == 0 then d.calls == 0 && d.callsHere == 0
        else d.calls <= MAX_TOOL_ITERATIONS * (d.attempts - 1) + d.callsHere)
    && (if d.attempts == 0 then d.chars == d.lastToken && (d.acc == [] ==> d.chars == 0)
        else p.maxTokens > 0 ==> d.chars < 4 * (p.maxTokens + 1) + d.lastToken)
    && forall s | s in d.runsHere :: d.runsHere[s] <= p.limit(s.name)
  }

  lemma BoundedStep(p: Plan, d: Digest, a: Action)
    requires Bounded(p, d) && Allowed(p, d, a)
    ensures Bounded(p, Next(d, a))
  {
    match a {
      case Yield(Token(t)) =>
      case Yield(_) =>
      case AttemptStart(_) =>
        assert d.calls <= MAX_TOOL_ITERATIONS * d.attempts;
      case _ =>
    }
  }

  lemma {:induction false} ConformingIsBounded(p: Plan, h: seq<Action>)
    requires Conforms(p, h)
    ensures Bounded(p, DigestOf(h))
  {
    if h != [] {
      var init, a := h[..|h| - 1], h[|h| - 1];
      ConformsPrefix(p, h, |h| - 1);
      ConformingIsBounded(p, init);
      assert Allowed(p, DigestOf(init), a);
      BoundedStep(p, DigestOf(init), a);
    }
  }

  /** Model calls started by the first `n` actions. */
  function CallsTo(h: seq<Action>, n: nat): nat
    requires n <= |h|
  {
    if n == 0 then 0 else CallsTo(h, n - 1) + if h[n - 1].CallStart? then 1 else 0
  }

  /** Characters of text sent by the first `n` actions, discarded preambles included. */
  function CharsTo(h: seq<Action>, n: nat): nat
    requires n <= |h|
  {
    if n == 0 then 0
    else CharsTo(h, n - 1) + if h[n - 1].Yield? && h[n - 1].event.Token? then |h[n - 1].event.text| else 0
  }

  /** Executions of one call signature by the actions from `i` up to `n`. */
  function RunsFrom(h: seq<Action>, i: nat, n: nat, s: Signature): nat
    requires i <= n <= |h|
    decreases n
  {
    if n == i then 0 else RunsFrom(h, i, n - 1, s) + if h[n - 1] == Execute(s) then 1 else 0
  }

  lemma CountNext(d: Digest, a: Action)
    ensures Next(d, a).calls == d.calls + if a.CallStart? then 1 else 0
    ensures Next(d, a).chars == d.chars + if a.Yield? && a.event.Token? then |a.event.text| else 0
  {
  }

  lemma RunsNext(d: Digest, a: Action, s: Signature)
    ensures Runs(Next(d, a), s) == if a.AttemptStart? then 0 else if a == Execute(s) then Runs(d, s) + 1 else Runs(d, s)
  {
  }

  lemma {:induction false} CountsTo(h: seq<Action>, n: nat)
    requires n <= |h|
    ensures DigestOf(h[..n]).calls == CallsTo(h, n) && DigestOf(h[..n]).chars == CharsTo(h, n)
  {
    if n > 0 {
      CountsTo(h, n - 1);
      DigestNext(h, n);
      CountNext(DigestOf(h[..n - 1]), h[n - 1]);
    }
  }

  lemma {:induction false} RunsCounted(h: seq<Action>, i: nat, n: nat, s: Signature)
    requires i < n <= |h| && h[i].AttemptStart? && forall k | i < k < n :: !h[k].AttemptStart?
    ensures Runs(DigestOf(h[..n]), s) == RunsFrom(h, i, n, s)
    decreases n
  {
    DigestNext(h, n);
    RunsNext(DigestOf(h[..n - 1]), h[n - 1], s);
    if i + 1 < n {
      RunsCounted(h, i, n - 1, s);
    } else {
      assert RunsFrom(h, i, i, s) == 0;
    }
  }

  /** At most sixty model calls per model of the chain, which is walked in order. */
  lemma ModelCallBound(p: Plan, h: seq<Action>)
    requires Conforms(p, h)
    ensures DigestOf(h).calls == CallsTo(h, |h|) <= 60 * |p.chain|
    ensures DigestOf(h).attempts > 0 ==>
      DigestOf(h).attempts <= |p.chain| && DigestOf(h).model == p.chain[DigestOf(h).attempts - 1]
  {
    ConformingIsBounded(p, h);
    CountsTo(h, |h|);
    assert h[..|h|] == h;
  }

  /** Over all tool rounds and fallback models, the streamed text overshoots the
      bound by less than the last chunk. */
  lemma StreamedCharBound(p: Plan, h: seq<Action>)
    requires Conforms(p, h) && p.maxTokens > 0 && DigestOf(h).attempts > 0
    ensures DigestOf(h).chars == CharsTo(h, |h|) < 4 * (p.maxTokens + 1) + DigestOf(h).lastToken
  {
    ConformingIsBounded(p, h);
    CountsTo(h, |h|);
    assert h[..|h|] == h;
  }

  /** No token of a model's stream is sent once the text before it has passed the bound. */
  lemma TokenBound(p: Plan, h: seq<Action>, k: nat)
    requires Conforms(p, h) && p.maxTokens > 0 && k < |h| && h[k].Yield? && h[k].event.Token? && DigestOf(h[..k]).attempts > 0
    ensures CharsTo(h, k) < 4 * (p.maxTokens + 1)
  {
    assert Allowed(p, DigestOf(h[..k]), h[k]);
    CountsTo(h, k);
  }

  /** Within one model attempt no call signature runs more often than its limit. */
  lemma ExecutionBound(p: Plan, h: seq<Action>, i: nat, n: nat, s: Signature)
    requires Conforms(p, h) && i < n <= |h| && h[i].AttemptStart? && forall k | i < k < n :: !h[k].AttemptStart?
    ensures RunsFrom(h, i, n, s) <= p.limit(s.name)
  {
    RunsCounted(h, i, n, s);
    ConformsPrefix(p, h, n);
    ConformingIsBounded(p, h[..n]);
  }

  lemma {:induction false} TripPersists(h: seq<Action>, i: nat, j: nat)
    requires i < j <= |h| && h[i].GuardTrip?
    requires forall k | i < k < j :: !h[k].AttemptStart?
    ensures DigestOf(h[..j]).trippedHere
  {
    assert h[..j][..j - 1] == h[..j - 1];
    if i + 1 < j {
      TripPersists(h, i, j - 1);
    }
  }

  /** After the loop guard trips, every later call of the same attempt is made without tools. */
  lemma NoToolsAfterTrip(p: Plan, h: seq<Action>, i: nat, j: nat)
    requires Conforms(p, h) && i < j < |h| && h[i].GuardTrip? && h[j].CallStart?
    requires forall k | i < k < j :: !h[k].AttemptStart?
    ensures !h[j].withTools
  {
    TripPersists(h, i, j);
  }

  /** The text a client has assembled from the events alone. */
  function ClientText(h: seq<Action>): seq<string>
  {
    if h == [] then []
    else
      var before := ClientText(h[..|h| - 1]);
      match h[|h| - 1]
      case Yield(Token(t)) => before + [t]
      case Yield(PreambleDiscard) => []
      case _ => before
  }

  lemma {:induction false} ClientTextIsAcc(h: seq<Action>)
    ensures DigestOf(h).acc == ClientText(h)
  {
    if h != [] {
      ClientTextIsAcc(h[..|h| - 1]);
    }
  }

  /** Each model call starts with an empty client text. */
  lemma CallStartsEmpty(p: Plan, h: seq<Action>, i: nat)
    requires Conforms(p, h) && i < |h| && h[i].CallStart?
    ensures ClientText(h[..i]) == []
  {
    ClientTextIsAcc(h[..i]);
    assert Allowed(p, DigestOf(h[..i]), h[i]);
  }

  /** An answer, and the string stored in the response cache, is the client text at that moment. */
  lemma AnswerIsText(p: Plan, h: seq<Action>, i: nat)
    requires Conforms(p, h) && i < |h| && (h[i].Answer? || h[i].CacheWrite?)
    ensures h[i].text == Concat(ClientText(h[..i])) && ClientText(h[..i]) != []
  {
    ClientTextIsAcc(h[..i]);
    assert Allowed(p, DigestOf(h[..i]), h[i]);
    if h[i].CacheWrite? {
      LastAction(h, i);
      AnswerIsText(p, h, i - 1);
      ClientTextIsAcc(h[..i - 1]);
    }
  }

  /** A digest's last action is the last of the history, and an answer leaves the text alone. */
  lemma LastAction(h: seq<Action>, i: nat)
    requires i <= |h|
    ensures DigestOf(h[..i]).last == if i == 0 then Begin else h[i - 1]
    ensures i > 0 && h[i - 1].Answer? ==> DigestOf(h[..i]).acc == DigestOf(h[..i - 1]).acc
  {
    if i > 0 {
      assert h[..i][..i - 1] == h[..i - 1];
    }
  }

  /** A text answer is announced right after it, or its cache entry, was written down: the text of the turn is
      the text the client has, and the cached one. */
  lemma TextAgreement(p: Plan, h: seq<Action>, i: nat)
    requires Conforms(p, h) && i < |h| && h[i].Yield? && h[i].event.Done? && !h[i].event.cacheHit
    requires ClientText(h[..i]) != []
    ensures i > 0
    ensures h[i - 1] == (if p.cacheable then CacheWrite(Concat(ClientText(h[..i]))) else Answer(Concat(ClientText(h[..i]))))
  {
    ClientTextIsAcc(h[..i]);
    assert Allowed(p, DigestOf(h[..i]), h[i]);
    LastAction(h, i);
  }
}
