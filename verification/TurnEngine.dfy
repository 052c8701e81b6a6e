/** The streaming turn engine: a fallback chain of models, a tool loop per model and a
    token stream per call. Model output, tool results and the clock are arbitrary inputs. */
module TurnEngine {
  import opened Basics
  import opened TurnHistory
  import opened TurnWorld

  /** How the work before the fallback loop went. */
  datatype Preparation = Failed | CacheHit(model: string, response: string) | Ready

  datatype ToolsOutcome = Continue | Asked | ToolsRaised

  datatype CallOutcome = Proceed | Stopped | Broke

  datatype AttemptOutcome = Ended | NextModel | AttemptRaised

  function CheckTurnBudget(p: Plan, elapsed: real, chars: nat): (r: Option<ErrorReason>)
    ensures r == Some(TimeBudget) <==> p.turnBudget > 0 && elapsed > p.turnBudget as real
    ensures r == Some(TokenBudget) ==> !WithinTokens(p, chars)
    ensures r.None? ==> WithinTokens(p, chars)
    ensures r in {None, Some(TimeBudget), Some(TokenBudget)}
  {
    if p.turnBudget > 0 && elapsed > p.turnBudget as real then Some(TimeBudget)
    else if p.maxTokens > 0 && chars / 4 > p.maxTokens then Some(TokenBudget)
    else None
  }

  /** The step at `i` is one the turn may take, and one the world has called for; it leads from digest to digest. */
  ghost predicate StepFollows(p: Plan, w: World, h: seq<Action>, ds: seq<Digest>, i: nat)
    requires i < |h| && |ds| == |h| + 1
  {
    Allowed(p, ds[i], h[i]) && Says(p, w, ds[i], h[i]) && ds[i + 1] == Next(ds[i], h[i])
  }

  ghost predicate Trail(p: Plan, w: World, h: seq<Action>, ds: seq<Digest>)
  {
    |ds| == |h| + 1 && ds[0] == EMPTY && forall i | 0 <= i < |h| :: StepFollows(p, w, h, ds, i)
  }

  /** The history `h`, whose digest is `d`, does only what it may and only what the world said. */
  ghost predicate Follows(p: Plan, w: World, h: seq<Action>, d: Digest)
  {
    exists ds: seq<Digest> :: Trail(p, w, h, ds) && ds[|h|] == d
  }

  lemma FollowsNext(p: Plan, w: World, h: seq<Action>, d: Digest, a: Action)
    requires Follows(p, w, h, d) && Allowed(p, d, a) && Says(p, w, d, a)
    ensures Follows(p, w, h + [a], Next(d, a))
  {
    var ds :| Trail(p, w, h, ds) && ds[|h|] == d;
    var h', ds' := h + [a], ds + [Next(d, a)];
    forall i | 0 <= i < |h'| ensures StepFollows(p, w, h', ds', i) {
      if i < |h| {
        assert StepFollows(p, w, h, ds, i);
      }
    }
    assert Trail(p, w, h', ds');
  }

  lemma {:induction false} TrailDigests(p: Plan, w: World, h: seq<Action>, ds: seq<Digest>, n: nat)
    requires Trail(p, w, h, ds) && n <= |h|
    ensures ds[n] == DigestOf(h[..n])
  {
    if n > 0 {
      TrailDigests(p, w, h, ds, n - 1);
      DigestNext(h, n);
      assert StepFollows(p, w, h, ds, n - 1);
    }
  }

  /** The digest carried along is that of the history. */
  lemma FollowsDigest(p: Plan, w: World, h: seq<Action>, d: Digest)
    requires Follows(p, w, h, d)
    ensures Conforms(p, h) && Relays(p, w, h) && d == DigestOf(h)
  {
    var ds :| Trail(p, w, h, ds) && ds[|h|] == d;
    forall i | 0 <= i < |h| ensures Allowed(p, DigestOf(h[..i]), h[i]) && SaidAt(p, w, h, i) {
      TrailDigests(p, w, h, ds, i);
      assert StepFollows(p, w, h, ds, i);
    }
    TrailDigests(p, w, h, ds, |h|);
    assert h[..|h|] == h;
  }

  lemma FollowsUnique(p: Plan, w: World, h: seq<Action>, d: Digest, d': Digest)
    requires Follows(p, w, h, d) && Follows(p, w, h, d')
    ensures d == d'
  {
    FollowsDigest(p, w, h, d);
    FollowsDigest(p, w, h, d');
  }

  /** A history that does only what it may and only what the world said. */
  ghost predicate Sound(p: Plan, w: World, h: seq<Action>)
  {
    exists d: Digest :: Follows(p, w, h, d)
  }

  /** Its digest, as `FollowsDigest` shows. */
  ghost function Now(p: Plan, w: World, h: seq<Action>): (d: Digest)
    requires Sound(p, w, h)
    ensures Follows(p, w, h, d)
  {
    var d: Digest :| Follows(p, w, h, d);
    d
  }

  lemma NothingYet(p: Plan, w: World)
    ensures Sound(p, w, []) && Now(p, w, []) == EMPTY
  {
    assert Trail(p, w, [], [EMPTY]);
    assert Follows(p, w, [], EMPTY);
    FollowsUnique(p, w, [], Now(p, w, []), EMPTY);
  }

  /** Take one action. */
  method Emit(p: Plan, ghost w: World, h: seq<Action>, a: Action) returns (h': seq<Action>)
    requires Sound(p, w, h) && Allowed(p, Now(p, w, h), a) && Says(p, w, Now(p, w, h), a)
    ensures h' == h + [a] && Sound(p, w, h') && Now(p, w, h') == Next(Now(p, w, h), a)
  {
    h' := h + [a];
    FollowsNext(p, w, h, Now(p, w, h), a);
    FollowsUnique(p, w, h', Now(p, w, h'), Next(Now(p, w, h), a));
  }

  /** Where a token loop stands after `n` chunks, stopped or not. */
  ghost predicate Midstream(p: Plan, w: World, d: Digest, n: nat, stop: Option<ErrorReason>)
    requires n <= |StreamOf(w, d).chunks|
  {
    var chunks := StreamOf(w, d).chunks;
    && d.calls > 0 && d.acc == Texts(chunks, n)
    && match stop
       case None => n <= CapFrom(chunks, 0) && !Over(p, w, d) && WithinTokens(p, d.chars)
       case Some(ConnectionCap) => n == CapFrom(chunks, 0) + 1 && !Over(p, w, d)
       case Some(TimeBudget) => d.acc != [] && Late(p, w, Reading(d) - 1) && chunks[n - 1].Text?
       case Some(TokenBudget) => d.acc != [] && !Late(p, w, Reading(d) - 1) && !WithinTokens(p, d.chars) && chunks[n - 1].Text?
       case _ => false
  }

  /** Why a token loop is over. */
  ghost predicate Halted(p: Plan, w: World, d: Digest, stop: Option<ErrorReason>)
  {
    && d.calls > 0
    && match stop
       case None => d.acc == SaidTexts(StreamOf(w, d)) && !Capped(StreamOf(w, d)) && !Over(p, w, d) && WithinTokens(p, d.chars)
       case Some(ConnectionCap) => d.acc == SaidTexts(StreamOf(w, d)) && Capped(StreamOf(w, d)) && !Over(p, w, d)
       case Some(TimeBudget) => d.acc != [] && Late(p, w, Reading(d) - 1)
       case Some(TokenBudget) => d.acc != [] && !Late(p, w, Reading(d) - 1) && !WithinTokens(p, d.chars)
       case _ => false
  }

  /** The token loop over one `call_stream` run. `chars` is the turn's own count of characters,
      carried from call to call and from model to model. It reads the whole stream, or up to and including the
      chunk that stopped it, and keeps every text and the last tool calls of what it read. */
  method ConsumeStream(p: Plan, w: World, stream: Stream, h0: seq<Action>, tick0: nat, chars0: nat)
    returns (h: seq<Action>, accumulated: seq<string>, requested: seq<ToolCall>,
             stop: Option<ErrorReason>, tick: nat, chars: nat, read: nat)
    requires Sound(p, w, h0)
    requires var d0 := Now(p, w, h0);
      && d0.endings == 0 && d0.acc == [] && d0.callsHere > 0 && d0.calls > 0 && d0.chars == chars0 && WithinTokens(p, chars0)
      && tick0 == Reading(d0) && stream == StreamOf(w, d0)
    ensures Sound(p, w, h)
    ensures var d0, d := Now(p, w, h0), Now(p, w, h);
      && d == d0.(acc := accumulated, chars := chars, lastToken := d.lastToken, tokens := d.tokens, last := d.last)
      && tick == Reading(d) && Halted(p, w, d, stop)
    ensures read <= |stream.chunks| && accumulated == Texts(stream.chunks, read) && requested == LastCalls(stream.chunks, read)
    ensures match stop
      case None => read == |stream.chunks| && requested == SaidCalls(stream)
      case Some(reason) =>
        0 < read && if reason == ConnectionCap then stream.chunks[read - 1].CapExceeded? else stream.chunks[read - 1].Text?
  {
    h, accumulated, requested, stop, tick, chars, read := h0, [], [], None, tick0, chars0, 0;
    while read < |stream.chunks| && stop.None?
      invariant 0 <= read <= |stream.chunks|
      invariant Sound(p, w, h)
      invariant var d0, d := Now(p, w, h0), Now(p, w, h);
        && d == d0.(acc := accumulated, chars := chars, lastToken := d.lastToken, tokens := d.tokens, last := d.last)
        && tick == Reading(d) && Midstream(p, w, d, read, stop)
      invariant requested == LastCalls(stream.chunks, read)
    {
      match stream.chunks[read] {
        case CapExceeded =>
          stop := Some(ConnectionCap);
        case Calls(calls) =>
          requested := calls;
        case Usage =>
        case Text(t) =>
          accumulated := accumulated + [t];
          chars := chars + |t|;
          h, stop := RelayText(p, w, stream, read, h, tick, chars);
          tick := tick + 1;
      }
      read := read + 1;
    }
  }

  /** Pass on the text of chunk `i` and see whether the turn may go on. */
  method RelayText(p: Plan, w: World, stream: Stream, i: nat, h0: seq<Action>, tick: nat, chars: nat)
    returns (h: seq<Action>, stop: Option<ErrorReason>)
    requires Sound(p, w, h0) && i < |stream.chunks| && stream.chunks[i].Text?
    requires var d0 := Now(p, w, h0);
      && d0.endings == 0 && d0.callsHere > 0 && stream == StreamOf(w, d0) && Midstream(p, w, d0, i, None)
      && tick == Reading(d0) && chars == d0.chars + |stream.chunks[i].text|
    ensures Sound(p, w, h)
    ensures var d0, d := Now(p, w, h0), Now(p, w, h);
      && d == Next(d0, Yield(Token(stream.chunks[i].text)))
      && Midstream(p, w, d, i + 1, stop)
  {
    TextAt(stream.chunks, i, CapFrom(stream.chunks, 0));
    h := Emit(p, w, h0, Yield(Token(stream.chunks[i].text)));
    stop := CheckTurnBudget(p, w.elapsed(tick), chars);
  }

  function Count(counts: map<Signature, nat>, s: Signature): nat
  {
    if s in counts then counts[s] else 0
  }

  /** The loop guard's counters agree with the executions of this attempt. */
  ghost predicate CountsAgree(p: Plan, d: Digest, counts: map<Signature, nat>)
  {
    forall s: Signature :: Runs(d, s) == Least(Count(counts, s), p.limit(s.name))
  }

  lemma CountedRun(p: Plan, d: Digest, d': Digest, s: Signature, counts: map<Signature, nat>)
    requires CountsAgree(p, d, counts)
    requires forall x: Signature ::
      Runs(d', x) == if x == s && Count(counts, s) < p.limit(s.name) then Runs(d, s) + 1 else Runs(d, x)
    ensures CountsAgree(p, d', counts[s := Count(counts, s) + 1])
  {
    forall x: Signature
      ensures Runs(d', x) == Least(Count(counts[s := Count(counts, s) + 1], x), p.limit(x.name))
    {
      assert Runs(d, x) == Least(Count(counts, x), p.limit(x.name));
    }
  }

  /** The loop guard: count the call, then either trip or start executing it. */
  method GuardCall(p: Plan, ghost w: World, s: Signature, h0: seq<Action>, counts0: map<Signature, nat>)
    returns (h: seq<Action>, counts: map<Signature, nat>, tripped: bool)
    requires Sound(p, w, h0)
    requires var d0 := Now(p, w, h0);
      && d0.endings == 0 && d0.acc == [] && d0.callsHere > 0 && Wants(w, d0, s) && Reported(w, d0)
      && CountsAgree(p, d0, counts0)
    ensures Sound(p, w, h)
    ensures var d0, d := Now(p, w, h0), Now(p, w, h);
      var ran := if tripped then 0 else 1;
      && d == d0.(runsHere := d.runsHere, ran := d0.ran + ran, replies := d0.replies + ran,
                  trippedHere := d0.trippedHere || tripped, last := d.last)
      && CountsAgree(p, d, counts)
      && d.last == if tripped then GuardTrip(s) else Execute(s)
    ensures tripped <==> Count(counts0, s) >= p.limit(s.name)
  {
    counts := counts0[s := Count(counts0, s) + 1];
    tripped := counts[s] > p.limit(s.name);
    assert Runs(Now(p, w, h0), s) == Least(Count(counts0, s), p.limit(s.name));
    if tripped {
      h := Emit(p, w, h0, Yield(Status));
      h := Emit(p, w, h, GuardTrip(s));
    } else {
      h := StartTool(p, w, s, h0);
    }
    CountedRun(p, Now(p, w, h0), Now(p, w, h), s, counts0);
  }

  method StartTool(p: Plan, ghost w: World, s: Signature, h0: seq<Action>) returns (h: seq<Action>)
    requires Sound(p, w, h0)
    requires var d0 := Now(p, w, h0);
      d0.endings == 0 && d0.acc == [] && d0.callsHere > 0 && Runs(d0, s) < p.limit(s.name) && Wants(w, d0, s) && Reported(w, d0)
    ensures Sound(p, w, h)
    ensures var d0, d := Now(p, w, h0), Now(p, w, h);
      d == Next(d0.(last := Yield(Status)), Execute(s))
  {
    h := Emit(p, w, h0, Yield(ToolCalled(s.name)));
    h := Emit(p, w, h, Yield(Status));
    h := Emit(p, w, h, Execute(s));
  }

  /** Running the requested tools raises: arguments that are no object, or the last tool's own fault. */
  ghost predicate ToolFault(w: World, d: Digest)
  {
    var calls := SaidCalls(StreamOf(w, d));
    || (d.ran < |calls| && calls[d.ran].arguments.NotAnObject? && (d.ran > 0 ==> LastReply(w, d).Plain?))
    || (d.ran > 0 && (LastReply(w, d).Raises? || LastReply(w, d) == Schedules(false)))
  }

  /** Pass on a tool's reply; a question to the user ends the turn. */
  method Relay(p: Plan, ghost w: World, model: string, fallback: bool, name: string, answer: Reply, h0: seq<Action>,
               ghost counts: map<Signature, nat>)
    returns (h: seq<Action>, outcome: ToolsOutcome)
    requires Sound(p, w, h0)
    requires var d0 := Now(p, w, h0);
      && d0.endings == 0 && d0.acc == [] && d0.callsHere > 0 && d0.model == model && fallback == (d0.attempts > 1)
      && JustRan(w, d0, name) && answer == LastReply(w, d0) && CountsAgree(p, d0, counts)
    ensures Sound(p, w, h)
    ensures var d0, d := Now(p, w, h0), Now(p, w, h);
      && CountsAgree(p, d, counts)
      && (d.endings == if outcome.Asked? then 1 else 0)
      && d == d0.(last := d.last, endings := d.endings)
      && (if outcome.Continue? then answer.Plain? && d.last == Yield(ToolResult(name)) else !answer.Plain?)
    ensures outcome.Asked? <==> !answer.Plain? && !answer.Raises? && (answer.Schedules? ==> answer.wellFormed)
  {
    h, outcome := h0, Continue;
    if answer.Raises? {
      outcome := ToolsRaised;
      return;
    }
    h := Emit(p, w, h, Yield(Status));
    if answer.Schedules? && !answer.wellFormed {
      outcome := ToolsRaised;
      return;
    }
    if answer.Plain? {
      h := Emit(p, w, h, Yield(ToolResult(name)));
    } else {
      var question :=
        match answer
        case Asks(q) => AskUser(q)
        case Remembers(f) => ConfirmMemory(f)
        case _ => ConfirmCalendar;
      h := Ask(p, w, model, fallback, question, h);
      outcome := Asked;
    }
    assert forall x: Signature :: Runs(Now(p, w, h), x) == Runs(Now(p, w, h0), x);
  }

  /** Put a question to the user and end the turn. */
  method Ask(p: Plan, ghost w: World, model: string, fallback: bool, question: Event, h0: seq<Action>)
    returns (h: seq<Action>)
    requires Sound(p, w, h0)
    requires var d0 := Now(p, w, h0);
      && IsQuestion(Yield(question)) && SaysEvent(p, w, d0, question)
      && d0.endings == 0 && d0.acc == [] && d0.callsHere > 0 && d0.model == model && fallback == (d0.attempts > 1)
    ensures Sound(p, w, h)
    ensures var d0, d := Now(p, w, h0), Now(p, w, h);
      d == d0.(last := Yield(Done(model, false, fallback)), endings := 1)
  {
    h := Emit(p, w, h0, Yield(question));
    h := Emit(p, w, h, Yield(Done(model, false, fallback)));
  }

  /** Where the loop over a response's tool calls stands after `n` of them. */
  ghost predicate MidRound(p: Plan, w: World, d0: Digest, d: Digest, calls: seq<ToolCall>, n: nat,
                           counts: map<Signature, nat>, forced: bool, reply: nat)
  {
    && d == d0.(runsHere := d.runsHere, ran := n, replies := reply, trippedHere := forced, last := d.last)
    && Complete(StreamOf(w, d)) && calls == SaidCalls(StreamOf(w, d))
    && CountsAgree(p, d, counts)
    && (n > 0 ==> reply > 0 && LastReply(w, d).Plain?) && Reported(w, d)
  }

  /** The loop over the tool calls one model response requested. */
  method RunTools(p: Plan, w: World, model: string, fallback: bool, calls: seq<ToolCall>, h0: seq<Action>,
                  counts0: map<Signature, nat>, forced0: bool, reply0: nat)
    returns (h: seq<Action>, counts: map<Signature, nat>, forced: bool, reply: nat, outcome: ToolsOutcome)
    requires Sound(p, w, h0) && calls != []
    requires var d0 := Now(p, w, h0);
      && d0.endings == 0 && d0.acc == [] && d0.callsHere > 0 && d0.model == model && fallback == (d0.attempts > 1)
      && MidRound(p, w, d0, d0, calls, 0, counts0, forced0, reply0)
    ensures Sound(p, w, h)
    ensures var d0, d := Now(p, w, h0), Now(p, w, h);
      && (d.endings == (if outcome.Asked? then 1 else 0) && d.attempts == d0.attempts)
      && (outcome.Continue? ==>
           && d == d0.(runsHere := d.runsHere, ran := d.ran, replies := reply, trippedHere := forced, last := d.last)
           && CountsAgree(p, d, counts) && RoundOver(w, d))
      && (outcome.ToolsRaised? ==> d.callsHere > 0 && ToolFault(w, d))
  {
    h, counts, forced, reply, outcome := h0, counts0, forced0, reply0, Continue;
    for i := 0 to |calls|
      invariant Sound(p, w, h) && outcome == Continue && forced == forced0
      invariant MidRound(p, w, Now(p, w, h0), Now(p, w, h), calls, i, counts, forced, reply)
    {
      var tripped;
      h, counts, tripped, reply, outcome := RunTool(p, w, model, fallback, calls[i], h, counts, reply, calls, i);
      if tripped || outcome != Continue {
        forced := forced || tripped;
        return;
      }
    }
  }

  /** One requested tool call. */
  method RunTool(p: Plan, w: World, model: string, fallback: bool, call: ToolCall, h0: seq<Action>,
                 counts0: map<Signature, nat>, reply0: nat, ghost calls: seq<ToolCall>, ghost n: nat)
    returns (h: seq<Action>, counts: map<Signature, nat>, tripped: bool, reply: nat, outcome: ToolsOutcome)
    requires Sound(p, w, h0) && n < |calls| && call == calls[n]
    requires var d0 := Now(p, w, h0);
      && d0.endings == 0 && d0.acc == [] && d0.callsHere > 0 && d0.model == model && fallback == (d0.attempts > 1)
      && MidRound(p, w, d0, d0, calls, n, counts0, d0.trippedHere, reply0)
    ensures Sound(p, w, h)
    ensures var d0, d := Now(p, w, h0), Now(p, w, h);
      && d.attempts == d0.attempts
      && (d.endings == if outcome.Asked? then 1 else 0)
      && (outcome.Continue? && !tripped ==> MidRound(p, w, d0, d, calls, n + 1, counts, d0.trippedHere, reply))
      && (tripped ==>
           && outcome.Continue? && d.last.GuardTrip? && CountsAgree(p, d, counts)
           && d == d0.(runsHere := d.runsHere, trippedHere := true, last := d.last) && reply == d.replies)
      && (outcome.ToolsRaised? ==> d.callsHere > 0 && ToolFault(w, d))
  {
    h, counts, tripped, reply, outcome := h0, counts0, false, reply0, Continue;
    if call.arguments.NotAnObject? {
      outcome := ToolsRaised;
      return;
    }
    h, counts, tripped := GuardCall(p, w, Signature(call.name, call.arguments.canonical), h, counts);
    if !tripped {
      h, outcome := Relay(p, w, model, fallback, call.name, w.replies(reply), h, counts);
      reply := reply + 1;
    }
  }

  /** Say that a bound was passed, and end the turn. */
  method Abort(p: Plan, ghost w: World, reason: ErrorReason, h0: seq<Action>)
    returns (h: seq<Action>)
    requires Sound(p, w, h0) && reason in {TimeBudget, TokenBudget, ConnectionCap}
    requires var d0 := Now(p, w, h0);
      Allowed(p, d0, Yield(Error(reason))) && SaysError(p, w, d0, reason)
    ensures Sound(p, w, h)
    ensures var d0, d := Now(p, w, h0), Now(p, w, h);
      d.endings == 1 && d.attempts == d0.attempts
  {
    h := Emit(p, w, h0, Yield(Status));
    h := Emit(p, w, h, Yield(Error(reason)));
  }

  /** One model call up to its last chunk: the budget check, the call, the token loop and
      what follows a stream that broke. */
  method CallModel(p: Plan, w: World, model: string, forced: bool, h0: seq<Action>, tick0: nat, call: nat, chars0: nat)
    returns (h: seq<Action>, accumulated: seq<string>, requested: seq<ToolCall>, tick: nat, chars: nat, outcome: CallOutcome)
    requires Sound(p, w, h0)
    requires var d0 := Now(p, w, h0);
      && d0.endings == 0 && d0.acc == [] && d0.callsHere < MAX_TOOL_ITERATIONS && d0.attempts > 0
      && d0.model == model && d0.trippedHere == forced && d0.chars == chars0
      && tick0 == Reading(d0) && call == d0.calls && (d0.callsHere > 0 ==> RoundOver(w, d0))
    ensures Sound(p, w, h)
    ensures var d0, d := Now(p, w, h0), Now(p, w, h);
      match outcome
      case Proceed =>
        && d == d0.(acc := accumulated, chars := chars, lastToken := d.lastToken, tokens := d.tokens, last := d.last,
                    calls := d0.calls + 1, callsHere := d0.callsHere + 1, ran := 0)
        && tick == Reading(d) && Heard(p, w, d) && requested == SaidCalls(StreamOf(w, d))
      case Broke =>
        && d.endings == 0 && d.acc == [] && d.attempts == d0.attempts && d.chars == chars && d.replies == d0.replies
        && tick == Reading(d) && d.calls == call + 1 && GaveNothing(w, d)
      case Stopped => d.endings == 1 && d.attempts == d0.attempts
  {
    accumulated, requested, chars := [], [], chars0;
    var late := CheckTurnBudget(p, w.elapsed(tick0), chars);
    tick := tick0 + 1;
    if late.Some? {
      h := Abort(p, w, late.value, h0);
      outcome := Stopped;
    } else {
      h := Emit(p, w, h0, CallStart(model, !forced));
      h, accumulated, requested, tick, chars, outcome := Listen(p, w, w.streams(call), h, tick, chars);
    }
  }

  /** The stream of a call that has started. */
  method Listen(p: Plan, w: World, stream: Stream, h0: seq<Action>, tick0: nat, chars0: nat)
    returns (h: seq<Action>, accumulated: seq<string>, requested: seq<ToolCall>, tick: nat, chars: nat, outcome: CallOutcome)
    requires Sound(p, w, h0)
    requires var d0 := Now(p, w, h0);
      && d0.endings == 0 && d0.acc == [] && d0.callsHere > 0 && d0.calls > 0 && d0.attempts > 0 && d0.ran == 0
      && d0.chars == chars0 && WithinTokens(p, chars0) && tick0 == Reading(d0) && stream == StreamOf(w, d0)
    ensures Sound(p, w, h)
    ensures var d0, d := Now(p, w, h0), Now(p, w, h);
      match outcome
      case Stopped => d.endings == 1 && d.attempts == d0.attempts
      case _ =>
        && d == d0.(acc := accumulated, chars := chars, lastToken := d.lastToken, tokens := d.tokens, last := d.last)
        && tick == Reading(d)
        && if outcome.Broke? then GaveNothing(w, d) else Heard(p, w, d) && requested == SaidCalls(stream)
  {
    var stop;
    var read;
    h, accumulated, requested, stop, tick, chars, read := ConsumeStream(p, w, stream, h0, tick0, chars0);
    h, outcome := AfterStream(p, w, stream, stop, accumulated, h);
  }

  /** A stream that raises breaks off the attempt, or the turn if it had begun to answer; a bound that was
      passed ends the turn. */
  method AfterStream(p: Plan, ghost w: World, stream: Stream, stop: Option<ErrorReason>, accumulated: seq<string>,
                     h0: seq<Action>)
    returns (h: seq<Action>, outcome: CallOutcome)
    requires Sound(p, w, h0)
    requires var d0 := Now(p, w, h0);
      && Halted(p, w, d0, stop)
      && d0.endings == 0 && d0.acc == accumulated && d0.callsHere > 0 && d0.attempts > 0 && d0.ran == 0
      && stream == StreamOf(w, d0)
    ensures Sound(p, w, h)
    ensures var d0, d := Now(p, w, h0), Now(p, w, h);
      match outcome
      case Proceed => stop.None? && Heard(p, w, d0) && d == d0.(last := d.last)
      case Broke => GaveNothing(w, d0) && d == d0
      case Stopped => d.endings == 1 && d.attempts == d0.attempts
  {
    h, outcome := h0, Broke;
    if (if stop.Some? then stream.closeRaises else stream.raises) {
      if accumulated != [] {
        h := Emit(p, w, h, Yield(Error(Interrupted)));
        outcome := Stopped;
      }
    } else if stop.Some? {
      h := Abort(p, w, stop.value, h);
      outcome := Stopped;
    } else {
      h := Emit(p, w, h, Yield(Status));
      outcome := Proceed;
    }
  }

  /** A stream that ended with text and no tool call answers the turn. */
  method Finish(p: Plan, ghost w: World, model: string, accumulated: seq<string>, fallback: bool, h0: seq<Action>)
    returns (h: seq<Action>)
    requires Sound(p, w, h0) && accumulated != []
    requires var d0 := Now(p, w, h0);
      && d0.endings == 0 && d0.acc == accumulated && d0.callsHere > 0 && d0.model == model && fallback == (d0.attempts > 1)
      && Heard(p, w, d0) && SaidCalls(StreamOf(w, d0)) == []
    ensures Sound(p, w, h)
    ensures var d0, d := Now(p, w, h0), Now(p, w, h);
      d.endings == 1 && d.acc == accumulated && d.attempts == d0.attempts
  {
    var full := Concat(accumulated);
    h := Emit(p, w, h0, Answer(full));
    if p.cacheable {
      h := Emit(p, w, h, CacheWrite(full));
    }
    h := Emit(p, w, h, Yield(Done(model, false, fallback)));
  }

  /** What holds between two model calls of an attempt. */
  ghost predicate Between(p: Plan, d: Digest, model: string, fallback: bool, iter: nat, chars: nat, forced: bool,
                          counts: map<Signature, nat>)
  {
    && d.endings == 0 && d.acc == [] && d.callsHere == iter && d.chars == chars
    && d.model == model && fallback == (d.attempts > 1)
    && d.trippedHere == forced && CountsAgree(p, d, counts)
  }

  /** How far the attempt's own counters have come is how far the history has. */
  ghost predicate InStep(d: Digest, tick: nat, call: nat, reply: nat)
  {
    tick == Reading(d) && call == d.calls && reply == d.replies
  }

  /** After a model call that ended normally: drop a preamble, run the tools, or finish. */
  method AfterCall(p: Plan, w: World, model: string, fallback: bool, accumulated: seq<string>, requested: seq<ToolCall>,
                   h0: seq<Action>, counts0: map<Signature, nat>, forced0: bool, reply0: nat, ghost iter: nat, ghost chars: nat)
    returns (h: seq<Action>, counts: map<Signature, nat>, forced: bool, reply: nat, more: bool, outcome: AttemptOutcome)
    requires Sound(p, w, h0) && iter > 0
    requires var d0 := Now(p, w, h0);
      && d0.acc == accumulated && Between(p, d0.(acc := []), model, fallback, iter, chars, forced0, counts0)
      && Heard(p, w, d0) && requested == SaidCalls(StreamOf(w, d0)) && d0.ran == 0 && d0.replies == reply0
    ensures Sound(p, w, h)
    ensures var d0, d := Now(p, w, h0), Now(p, w, h);
      && d.attempts == d0.attempts
      && (more ==>
            && Between(p, d, model, fallback, iter, chars, forced, counts) && RoundOver(w, d)
            && d.calls == d0.calls && d.tokens == d0.tokens && d.replies == reply)
      && (!more ==> d.endings == if outcome.Ended? then 1 else 0)
      && (!more && outcome.NextModel? ==> d == d0 && d.acc == [] && reply == reply0 && GaveNothing(w, d))
      && (!more && outcome.AttemptRaised? ==> d.callsHere > 0 && ToolFault(w, d))
  {
    h, counts, forced, reply, more, outcome := h0, counts0, forced0, reply0, false, NextModel;
    if requested == [] {
      if accumulated != [] {
        h := Finish(p, w, model, accumulated, fallback, h);
        outcome := Ended;
      }
      return;
    }
    if accumulated != [] {
      h := Emit(p, w, h, Yield(PreambleDiscard));
    }
    assert forall x: Signature :: Runs(Now(p, w, h), x) == Runs(Now(p, w, h0), x);
    var result;
    h, counts, forced, reply, result := RunTools(p, w, model, fallback, requested, h, counts, forced, reply);
    more := result.Continue?;
    outcome := if result.Asked? then Ended else AttemptRaised;
  }

  /** One call of an attempt and what follows it. */
  method Round(p: Plan, w: World, model: string, fallback: bool, h0: seq<Action>, counts0: map<Signature, nat>, forced0: bool,
               tick0: nat, call: nat, reply0: nat, chars0: nat, ghost iter: nat)
    returns (h: seq<Action>, counts: map<Signature, nat>, forced: bool, tick: nat, reply: nat, chars: nat,
             more: bool, outcome: AttemptOutcome)
    requires Sound(p, w, h0) && iter < MAX_TOOL_ITERATIONS
    requires var d0 := Now(p, w, h0);
      && d0.attempts > 0 && Between(p, d0, model, fallback, iter, chars0, forced0, counts0)
      && InStep(d0, tick0, call, reply0) && (iter > 0 ==> RoundOver(w, d0))
    ensures Sound(p, w, h)
    ensures var d0, d := Now(p, w, h0), Now(p, w, h);
      && d.attempts == d0.attempts
      && (more ==>
            && Between(p, d, model, fallback, iter + 1, chars, forced, counts)
            && InStep(d, tick, call + 1, reply) && RoundOver(w, d))
      && (!more ==> d.endings == if outcome.Ended? then 1 else 0)
      && (!more && outcome.NextModel? ==> d.acc == [] && d.chars == chars && GaveNothing(w, d) && InStep(d, tick, call + 1, reply))
      && (!more && outcome.AttemptRaised? ==> d.callsHere > 0 && ToolFault(w, d))
  {
    counts, forced, reply, more := counts0, forced0, reply0, false;
    var accumulated, requested, result;
    h, accumulated, requested, tick, chars, result := CallModel(p, w, model, forced, h0, tick0, call, chars0);
    if !result.Proceed? {
      outcome := if result.Stopped? then Ended else NextModel;
      return;
    }
    assert forall x: Signature :: Runs(Now(p, w, h), x) == Runs(Now(p, w, h0), x);
    h, counts, forced, reply, more, outcome :=
      AfterCall(p, w, model, fallback, accumulated, requested, h, counts, forced, reply, iter + 1, chars);
  }

  /** One model of the chain: up to sixty calls, with tools in between. */
  method Attempt(p: Plan, w: World, model: string, fallback: bool, h0: seq<Action>,
                 tick0: nat, call0: nat, reply0: nat, chars0: nat)
    returns (h: seq<Action>, tick: nat, call: nat, reply: nat, chars: nat, outcome: AttemptOutcome)
    requires Sound(p, w, h0)
    requires var d0 := Now(p, w, h0);
      && d0.endings == 0 && d0.acc == [] && d0.attempts < |p.chain| && d0.chars == chars0
      && model == p.chain[d0.attempts] && fallback == (d0.attempts > 0)
      && (d0.attempts > 0 ==> GaveNothing(w, d0)) && InStep(d0, tick0, call0, reply0)
    ensures Sound(p, w, h)
    ensures var d0, d := Now(p, w, h0), Now(p, w, h);
      && d.endings == (if outcome.Ended? then 1 else 0) && d.attempts == d0.attempts + 1
      && (outcome.NextModel? ==>
            && d.acc == [] && d.chars == chars
            && GaveNothing(w, d) && InStep(d, tick, call, reply))
      && (outcome.AttemptRaised? ==> d.callsHere > 0 && ToolFault(w, d))
  {
    tick, call, reply, chars, outcome := tick0, call0, reply0, chars0, NextModel;
    h := Emit(p, w, h0, AttemptStart(model));
    ghost var attempts := Now(p, w, h).attempts;
    var counts: map<Signature, nat> := map[];
    var forced := false;
    for iter := 0 to MAX_TOOL_ITERATIONS
      invariant Sound(p, w, h) && Now(p, w, h).attempts == attempts
      invariant Between(p, Now(p, w, h), model, fallback, iter, chars, forced, counts)
      invariant InStep(Now(p, w, h), tick, call, reply) && (iter > 0 ==> RoundOver(w, Now(p, w, h)))
    {
      var more;
      h, counts, forced, tick, reply, chars, more, outcome :=
        Round(p, w, model, fallback, h, counts, forced, tick, call, reply, chars, iter);
      call := call + 1;
      if !more {
        return;
      }
    }
    h := Emit(p, w, h, Yield(Error(LoopLimit)));
    outcome := Ended;
  }

  /** One whole turn. Every action it takes conforms to the history specification and answers to what the world said;
      it ends with exactly one `done` or `error`, unless it raises and emits neither. A text answer is what its last stream said. */
  method GenerateStream(p: Plan, w: World, preparation: Preparation)
    returns (h: seq<Action>, raised: bool)
    ensures Conforms(p, h) && Relays(p, w, h)
    ensures DigestOf(h).endings == if raised then 0 else 1
    ensures !raised ==> h != [] && IsEnding(h[|h| - 1]) && forall i | 0 <= i < |h| - 1 :: !IsEnding(h[i])
    ensures raised ==> forall i | 0 <= i < |h| :: !IsEnding(h[i])
    ensures raised <==> preparation.Failed? || (DigestOf(h).endings == 0 && DigestOf(h).callsHere > 0 && ToolFault(w, DigestOf(h)))
    ensures CallsTo(h, |h|) <= 60 * |p.chain|
    ensures p.maxTokens > 0 && DigestOf(h).attempts > 0 ==> CharsTo(h, |h|) < 4 * (p.maxTokens + 1) + DigestOf(h).lastToken
    ensures preparation.CacheHit? ==> !raised && ClientText(h) == [preparation.response] && DigestOf(h).calls == 0
    ensures EndsDone(h) ==> (h[|h| - 1].event.cacheHit <==> preparation.CacheHit?)
    ensures EndsDone(h) && ClientText(h) != [] && !h[|h| - 1].event.cacheHit ==>
      var n := DigestOf(h).calls;
      n > 0 && ClientText(h) == SaidTexts(w.streams(n - 1)) && SaidCalls(w.streams(n - 1)) == [] && Complete(w.streams(n - 1))
  {
    h, raised := Generate(p, w, preparation);
    FollowsDigest(p, w, h, Now(p, w, h));
    Bounds(p, h);
    OneEnding(p, h);
    ClientTextIsAcc(h);
    if EndsDone(h) {
      HitBeforeAttempts(p, h);
      if ClientText(h) != [] && !h[|h| - 1].event.cacheHit {
        AnswerSaid(p, w, h);
      }
    }
  }

  lemma Bounds(p: Plan, h: seq<Action>)
    requires Conforms(p, h)
    ensures CallsTo(h, |h|) <= 60 * |p.chain|
    ensures p.maxTokens > 0 && DigestOf(h).attempts > 0 ==> CharsTo(h, |h|) < 4 * (p.maxTokens + 1) + DigestOf(h).lastToken
  {
    ModelCallBound(p, h);
    if p.maxTokens > 0 && DigestOf(h).attempts > 0 {
      StreamedCharBound(p, h);
    }
  }

  lemma OneEnding(p: Plan, h: seq<Action>)
    requires Conforms(p, h)
    ensures DigestOf(h).endings == 0 ==> forall i | 0 <= i < |h| :: !IsEnding(h[i])
    ensures DigestOf(h).endings > 0 ==> h != [] && IsEnding(h[|h| - 1]) && forall i | 0 <= i < |h| - 1 :: !IsEnding(h[i])
  {
    EndingsCounted(h);
    if DigestOf(h).endings > 0 {
      var k :| 0 <= k < |h| && IsEnding(h[k]);
      EndingIsLast(p, h, k);
    }
  }

  /** The turn ends with `done`. */
  ghost predicate EndsDone(h: seq<Action>)
  {
    h != [] && h[|h| - 1].Yield? && h[|h| - 1].event.Done?
  }

  lemma AnswerSaid(p: Plan, w: World, h: seq<Action>)
    requires Conforms(p, h) && Relays(p, w, h) && EndsDone(h) && ClientText(h) != [] && !h[|h| - 1].event.cacheHit
    ensures SaidInFull(w, DigestOf(h))
  {
    var k := |h| - 1;
    DoneLast(h);
    AnswerIsStream(p, w, h, k);
    DoneKeeps(w, DigestOf(h[..k]), h[k]);
  }

  lemma DoneLast(h: seq<Action>)
    requires EndsDone(h)
    ensures var k := |h| - 1; DigestOf(h) == Next(DigestOf(h[..k]), h[k]) && ClientText(h) == ClientText(h[..k])
  {
  }

  lemma DoneKeeps(w: World, d: Digest, a: Action)
    requires SaidInFull(w, d) && a.Yield? && a.event.Done?
    ensures SaidInFull(w, Next(d, a))
  {
  }

  lemma HitBeforeAttempts(p: Plan, h: seq<Action>)
    requires Conforms(p, h) && EndsDone(h)
    ensures h[|h| - 1].event.cacheHit ==> DigestOf(h).attempts == 0
    ensures !h[|h| - 1].event.cacheHit ==> DigestOf(h).callsHere > 0
  {
    assert Allowed(p, DigestOf(h[..|h| - 1]), h[|h| - 1]);
  }

  method Generate(p: Plan, w: World, preparation: Preparation) returns (h: seq<Action>, raised: bool)
    ensures Sound(p, w, h)
    ensures preparation.Failed? ==> raised
    ensures var d := Now(p, w, h);
      && (d.endings == if raised then 0 else 1)
      && (raised && !preparation.Failed? ==> d.callsHere > 0 && ToolFault(w, d))
      && (preparation.CacheHit? ==> !raised && d.acc == [preparation.response] && d.calls == 0)
      && (preparation.Ready? ==> d.attempts > 0 || d.last == Yield(Error(AllFailed)))
  {
    h, raised := [], false;
    NothingYet(p, w);
    if preparation.Failed? {
      raised := true;
      return;
    }
    h := Emit(p, w, h, Yield(Status));
    if preparation.CacheHit? {
      h := Emit(p, w, h, Yield(Token(preparation.response)));
      h := Emit(p, w, h, Yield(Done(preparation.model, true, false)));
      return;
    }
    h, raised := WalkChain(p, w, h);
  }

  /** The fallback chain, model by model. */
  method WalkChain(p: Plan, w: World, h0: seq<Action>) returns (h: seq<Action>, raised: bool)
    requires Sound(p, w, h0)
    requires var d0 := Now(p, w, h0);
      d0 == EMPTY.(last := Yield(Status))
    ensures Sound(p, w, h)
    ensures var d := Now(p, w, h);
      && (d.endings == if raised then 0 else 1)
      && (raised ==> d.callsHere > 0 && ToolFault(w, d))
      && (d.attempts > 0 || d.last == Yield(Error(AllFailed)))
  {
    h, raised := h0, false;
    var tick, call, reply, chars := 0, 0, 0, 0;
    for idx := 0 to |p.chain|
      invariant Sound(p, w, h) && !raised
      invariant var d := Now(p, w, h);
        && d.endings == 0 && d.acc == [] && d.attempts == idx && d.chars == chars
        && (idx > 0 ==> GaveNothing(w, d)) && InStep(d, tick, call, reply)
    {
      if idx > 0 {
        h := Emit(p, w, h, Yield(Status));
      }
      var outcome;
      h, tick, call, reply, chars, outcome := Attempt(p, w, p.chain[idx], idx > 0, h, tick, call, reply, chars);
      if !outcome.NextModel? {
        raised := outcome.AttemptRaised?;
        return;
      }
    }
    h := Emit(p, w, h, Yield(Error(AllFailed)));
  }
}
