/**
  * The retry loops of the model client: which attempts are made, which of them the model's
  * breaker hears about, and which are the primary endpoint's own fault.
  */
module Failover {
  import opened Basics
  import opened CircuitBreaker

  /** What one request to an endpoint comes to. */
  datatype Outcome =
    | Refused(status: int)   // any status but 200
    | Useful                 // 200 with tool calls, with text, or a stream read to its end
    | Empty                  // 200 with nothing usable in it (a plain call only)
    | OverBudget             // 200, cut off by the stream's wall clock (a stream only)
    | Unreachable            // time-out or connection error, before or during the body
    | Broken                 // any other exception

  /** One attempt: whether the endpoint picked was the primary, and the time its outcome is known. */
  datatype Attempt = Attempt(primary: bool, outcome: Outcome, at: real)

  datatype Reply = CircuitOpen | Answered | HttpError(status: int) | BadFormat | GaveUp | Stopped | Raised

  /** The primary answered with another status than 200, or could not be reached. */
  predicate PrimaryFault(a: Attempt)
  {
    a.primary && (a.outcome.Refused? || a.outcome.Unreachable?)
  }

  /** What happens to the breaker: a call begins, or an attempt of one ends. */
  datatype Step =
    | Begin(model: string, at: real)
    | Try(model: string, streaming: bool, attempt: Attempt, last: bool)

  /** The breaker event an attempt causes, if any. */
  function Blame(streaming: bool, a: Attempt, last: bool): (k: seq<Kind>)
    ensures PrimaryFault(a) ==> k == []
    ensures a.outcome.Useful? <==> k == [Succeeded]
    ensures |k| <= 1 && forall e | e in k :: e == Succeeded || e == Failed
  {
    match a.outcome
    case Useful => [Succeeded]
    case Empty => [Failed]
    case OverBudget => []
    case Broken => if streaming then [] else [Failed]
    case Unreachable => if a.primary || (streaming && !last) then [] else [Failed]
    case Refused(status) =>
      if a.primary then []
      else if streaming then (if (status == 429 || status == 503) && !last then [] else [Failed])
      else if status >= 500 then [Failed] else []
  }

  function EventsOf(step: Step): Log
  {
    match step
    case Begin(model, at) => [Event(Checked, model, at)]
    case Try(model, streaming, a, last) =>
      var k := Blame(streaming, a, last);
      if k == [] then [] else [Event(k[0], model, a.at)]
  }

  /** Everything the breaker hears during the first `n` steps, of however many calls, in any interleaving. */
  function LogOf(run: seq<Step>, n: nat): Log
    requires n <= |run|
  {
    Flat(EventsOf, run, n)
  }

  // ---- isolation of the breaker from the primary ----

  /** The run without the attempts that failed through the primary's fault. */
  function WithoutPrimaryFaults(run: seq<Step>, n: nat): seq<Step>
    requires n <= |run|
  {
    if n == 0 then []
    else if run[n - 1].Try? && PrimaryFault(run[n - 1].attempt) then WithoutPrimaryFaults(run, n - 1)
    else WithoutPrimaryFaults(run, n - 1) + [run[n - 1]]
  }

  lemma LogOfAppend(run: seq<Step>, step: Step)
    ensures LogOf(run + [step], |run| + 1) == LogOf(run, |run|) + EventsOf(step)
  {
    FlatPrefix(EventsOf, run, [step], |run|);
  }

  ghost predicate SameLog(run: seq<Step>, n: nat, kept: seq<Step>)
    requires n <= |run|
  {
    LogOf(kept, |kept|) == LogOf(run, n)
  }

  lemma FaultUnheard(run: seq<Step>, n: nat, kept: seq<Step>)
    requires n < |run| && run[n].Try? && PrimaryFault(run[n].attempt) && SameLog(run, n, kept)
    ensures SameLog(run, n + 1, kept)
  {
    assert EventsOf(run[n]) == [];
  }

  lemma OthersHeard(run: seq<Step>, n: nat, kept: seq<Step>)
    requires n < |run| && SameLog(run, n, kept)
    ensures SameLog(run, n + 1, kept + [run[n]])
  {
    LogOfAppend(kept, run[n]);
  }

  /** The breaker cannot tell a run from the same run without any of the primary's faults. */
  lemma {:induction false} Isolation(run: seq<Step>, n: nat)
    requires n <= |run|
    ensures SameLog(run, n, WithoutPrimaryFaults(run, n))
  {
    if n > 0 {
      Isolation(run, n - 1);
      if run[n - 1].Try? && PrimaryFault(run[n - 1].attempt) {
        FaultUnheard(run, n - 1, WithoutPrimaryFaults(run, n - 1));
      } else {
        OthersHeard(run, n - 1, WithoutPrimaryFaults(run, n - 1));
      }
    }
  }

  /** Every attempt was of use or failed through the primary's fault. */
  ghost predicate OnlyPrimaryFaults(run: seq<Step>)
  {
    forall k | 0 <= k < |run| && run[k].Try? :: PrimaryFault(run[k].attempt) || run[k].attempt.outcome.Useful?
  }

  lemma NothingCounted(run: seq<Step>, n: nat)
    requires OnlyPrimaryFaults(run) && n <= |run|
    ensures forall i | 0 <= i < |LogOf(run, n)| :: LogOf(run, n)[i].kind == Checked || LogOf(run, n)[i].kind == Succeeded
  {
    var log := LogOf(run, n);
    forall i | 0 <= i < |log| ensures log[i].kind == Checked || log[i].kind == Succeeded {
      FlatFrom(EventsOf, run, n, log[i]);
      var k :| 0 <= k < n && log[i] in EventsOf(run[k]);
    }
  }

  lemma {:induction false} NoFailuresSince(h: Log, n: nat, model: string)
    requires n <= |h| && forall i | 0 <= i < |h| :: h[i].kind != Failed
    ensures FailuresSince(h, n, model) == 0
  {
    if n > 0 {
      NoFailuresSince(h, n - 1, model);
    }
  }

  /** An outage of the primary alone, over any interleaving of calls, counts against no model and opens no breaker. */
  lemma PrimaryOutageOpensNothing(run: seq<Step>, model: string, now: real)
    requires OnlyPrimaryFaults(run)
    ensures var log := LogOf(run, |run|); FailuresSince(log, |log|, model) == 0 && !Tripped(log, model, now)
  {
    NothingCounted(run, |run|);
    var log := LogOf(run, |run|);
    NoFailuresSince(log, |log|, model);
  }

  /** Nothing but an attempt's own outcome at NIM, or an unusable answer, ever counts as a failure. */
  lemma {:induction false} FailuresHaveCause(run: seq<Step>, n: nat, i: nat)
    requires n <= |run| && i < |LogOf(run, n)| && LogOf(run, n)[i].kind == Failed
    ensures exists k | 0 <= k < n ::
      run[k].Try? && run[k].model == LogOf(run, n)[i].model && !PrimaryFault(run[k].attempt) && !run[k].attempt.outcome.Useful?
  {
    if i < |LogOf(run, n - 1)| {
      FailuresHaveCause(run, n - 1, i);
    } else {
      assert run[n - 1].Try?;
    }
  }

  // ---- which answers count ----

  /** At the primary, exactly an answer of 200 with nothing usable in it, and any other exception in a plain call, counts. */
  lemma PrimaryBlamedExactly(streaming: bool, a: Attempt, last: bool)
    requires a.primary
    ensures Failed in Blame(streaming, a, last) <==> a.outcome.Empty? || (a.outcome.Broken? && !streaming)
  {
  }

  /** At NIM, a plain call counts every answer it can use for nothing, a status of 500 or above, and every exception;
      a stream counts only what makes it give up, and no other exception. */
  lemma NimBlamedExactly(streaming: bool, a: Attempt, last: bool)
    requires !a.primary
    ensures Failed in Blame(streaming, a, last) <==>
      || a.outcome.Empty?
      || (!streaming && (a.outcome.Broken? || a.outcome.Unreachable? || (a.outcome.Refused? && a.outcome.status >= 500)))
      || (streaming && a.outcome.Unreachable? && last)
      || (streaming && a.outcome.Refused? && (last || (a.outcome.status != 429 && a.outcome.status != 503)))
  {
  }

  predicate Counted(step: Step, model: string)
  {
    step.Try? && step.model == model && Failed in Blame(step.streaming, step.attempt, step.last)
  }

  function CountedSteps(run: seq<Step>, n: nat, model: string): nat
    requires n <= |run|
  {
    Count((step: Step) => Counted(step, model), run, n)
  }

  function FailedEvents(h: Log, n: nat, model: string): nat
    requires n <= |h|
  {
    Count((e: Event) => e.kind == Failed && e.model == model, h, n)
  }

  lemma EventCounted(step: Step, model: string)
    ensures |EventsOf(step)| <= 1
    ensures Counted(step, model) <==> |EventsOf(step)| == 1 && Is(EventsOf(step), 0, Failed, model)
  {
  }

  /** Over any interleaving, the breaker hears exactly the counted attempts as failures. */
  lemma FailuresAreCounted(run: seq<Step>, n: nat, model: string)
    requires n <= |run|
    ensures FailedEvents(LogOf(run, n), |LogOf(run, n)|, model) == CountedSteps(run, n, model)
  {
    forall step: Step ensures |EventsOf(step)| <= 1
      && (Counted(step, model) <==> |EventsOf(step)| == 1 && Is(EventsOf(step), 0, Failed, model))
    {
      EventCounted(step, model);
    }
    CountFlat(EventsOf, (e: Event) => e.kind == Failed && e.model == model, (step: Step) => Counted(step, model), run, n);
  }

  /** Nothing good, and no restart, happened to the model. */
  ghost predicate OnlyChecksAndFailures(h: Log, model: string)
  {
    forall i | 0 <= i < |h| && h[i].model == model :: h[i].kind == Checked || h[i].kind == Failed
  }

  /** Fewer failures than the threshold, and no success: nothing has tripped and nothing was reset. */
  lemma {:induction false} NothingTripped(h: Log, n: nat, model: string)
    requires n <= |h| && FailedEvents(h, n, model) < THRESHOLD && OnlyChecksAndFailures(h, model)
    ensures FailuresSince(h, n, model) == FailedEvents(h, n, model)
    ensures forall i | 0 <= i < n :: !Trip(h, i, model) && !Reset(h, i, model)
  {
    if n > 0 {
      NothingTripped(h, n - 1, model);
      NothingToReset(h, n - 1, model);
    }
  }

  lemma FifthFailureTrips(h: Log, model: string, now: real)
    requires h != [] && Is(h, |h| - 1, Failed, model) && FailedEvents(h, |h| - 1, model) == THRESHOLD - 1
    requires OnlyChecksAndFailures(h, model)
    ensures Tripped(h, model, now) <==> now - h[|h| - 1].at <= COOLDOWN
  {
    NothingTripped(h, |h| - 1, model);
    assert Trip(h, |h| - 1, model);
  }

  /** No attempt of this model was of use. */
  ghost predicate NoSuccess(run: seq<Step>, model: string)
  {
    forall k | 0 <= k < |run| && run[k].Try? && run[k].model == model :: !run[k].attempt.outcome.Useful?
  }

  lemma NoSuccessHeard(run: seq<Step>, n: nat, model: string)
    requires NoSuccess(run, model) && n <= |run|
    ensures OnlyChecksAndFailures(LogOf(run, n), model)
  {
    var log := LogOf(run, n);
    forall i | 0 <= i < |log| && log[i].model == model ensures log[i].kind == Checked || log[i].kind == Failed {
      FlatFrom(EventsOf, run, n, log[i]);
      var k :| 0 <= k < n && log[i] in EventsOf(run[k]);
    }
  }

  /** The fifth counted failure without a success between them opens the breaker for exactly the cooldown, whatever
      other models' calls do meanwhile. */
  lemma FifthCountedOpens(run: seq<Step>, model: string, now: real)
    requires NoSuccess(run, model) && run != [] && Counted(run[|run| - 1], model)
    requires CountedSteps(run, |run|, model) == 5
    ensures Tripped(LogOf(run, |run|), model, now) <==> now - run[|run| - 1].attempt.at <= 90.0
  {
    var log, n := LogOf(run, |run|), |run| - 1;
    EventCounted(run[n], model);
    assert log == LogOf(run, n) + EventsOf(run[n]);
    FailuresAreCounted(run, |run|, model);
    NoSuccessHeard(run, |run|, model);
    assert Is(log, |log| - 1, Failed, model) && log[|log| - 1].at == run[n].attempt.at;
    FifthFailureTrips(log, model, now);
  }

  /** Attempts of this model. */
  function Tries(run: seq<Step>, n: nat, model: string): nat
    requires n <= |run|
  {
    if n == 0 then 0 else Tries(run, n - 1, model) + if run[n - 1].Try? && run[n - 1].model == model then 1 else 0
  }

  lemma {:induction false} AllTriesCounted(run: seq<Step>, n: nat, model: string)
    requires n <= |run| && forall k | 0 <= k < |run| && run[k].Try? && run[k].model == model :: Counted(run[k], model)
    ensures CountedSteps(run, n, model) == Tries(run, n, model)
  {
    if n > 0 {
      AllTriesCounted(run, n - 1, model);
    }
  }

  /** NIM, asked by a plain call, answers with a status of 500 or above, or not at all. */
  predicate NimFails(step: Step)
  {
    && step.Try? && !step.streaming && !step.attempt.primary
    && (step.attempt.outcome.Unreachable? || (step.attempt.outcome.Refused? && step.attempt.outcome.status >= 500))
  }

  /** Five such attempts open the model's breaker until the cooldown is over. */
  lemma NimFailuresOpen(run: seq<Step>, model: string, now: real)
    requires forall k | 0 <= k < |run| && run[k].Try? && run[k].model == model :: NimFails(run[k])
    requires run != [] && run[|run| - 1].Try? && run[|run| - 1].model == model && Tries(run, |run|, model) == 5
    ensures Tripped(LogOf(run, |run|), model, now) <==> now - run[|run| - 1].attempt.at <= 90.0
  {
    forall k | 0 <= k < |run| && run[k].Try? && run[k].model == model
      ensures Counted(run[k], model) && !run[k].attempt.outcome.Useful?
    {
      NimBlamedExactly(run[k].streaming, run[k].attempt, run[k].last);
    }
    AllTriesCounted(run, |run|, model);
    FifthCountedOpens(run, model, now);
  }

  /** The primary, asked by a plain call, answers with nothing usable, or with something that cannot be read at all. */
  predicate UnusableAtPrimary(step: Step)
  {
    step.Try? && !step.streaming && step.attempt.primary && (step.attempt.outcome.Empty? || step.attempt.outcome.Broken?)
  }

  /** Five unusable answers of the primary open the model's breaker, for NIM as well, until the cooldown is over. */
  lemma UnusableAnswersOpen(run: seq<Step>, model: string, now: real)
    requires forall k | 0 <= k < |run| && run[k].Try? && run[k].model == model :: UnusableAtPrimary(run[k])
    requires run != [] && run[|run| - 1].Try? && run[|run| - 1].model == model && Tries(run, |run|, model) == 5
    ensures Tripped(LogOf(run, |run|), model, now) <==> now - run[|run| - 1].attempt.at <= 90.0
  {
    forall k | 0 <= k < |run| && run[k].Try? && run[k].model == model
      ensures Counted(run[k], model) && !run[k].attempt.outcome.Useful?
    {
      PrimaryBlamedExactly(run[k].streaming, run[k].attempt, run[k].last);
    }
    AllTriesCounted(run, |run|, model);
    FifthCountedOpens(run, model, now);
  }

  // ---- the loops ----

  /** A call's own steps, the check and then its attempts in order, with the steps of other calls in between. */
  function Woven(model: string, streaming: bool, now: real, world: seq<Attempt>, between: seq<seq<Step>>, retries: nat, n: nat): seq<Step>
    requires n <= |world| == |between|
  {
    if n == 0 then [Begin(model, now)]
    else
      Woven(model, streaming, now, world, between, retries, n - 1)
      + between[n - 1] + [Try(model, streaming, world[n - 1], n - 1 == retries)]
  }

  /** Whether another attempt follows, if one is left. */
  predicate TryAgain(streaming: bool, a: Attempt)
  {
    match a.outcome
    case Useful => false
    case Empty => false
    case OverBudget => false
    case Broken => !streaming
    case Unreachable => true
    case Refused(status) => a.primary || (if streaming then status == 429 || status == 503 else status >= 500)
  }

  /** Attempts go on while they can be retried and any are left, and no longer. */
  ghost predicate Persisted(streaming: bool, world: seq<Attempt>, n: nat, retries: nat)
  {
    && 1 <= n <= retries + 1 && n <= |world|
    && (forall i | 0 <= i < n - 1 :: TryAgain(streaming, world[i]))
    && (n == retries + 1 || !TryAgain(streaming, world[n - 1]))
  }

  /** The world of a plain call and of a stream. */
  predicate Answers(streaming: bool, world: seq<Attempt>)
  {
    forall a | a in world :: (a.outcome.Refused? ==> a.outcome.status != 200) && !(if streaming then a.outcome.Empty? else a.outcome.OverBudget?)
  }

  /** The reply to a plain call, from its last attempt. */
  function CallReply(a: Attempt): Reply
  {
    match a.outcome
    case Useful => Answered
    case Empty => BadFormat
    case Refused(status) => if a.primary || status >= 500 then GaveUp else HttpError(status)
    case _ => GaveUp
  }

  /** How a stream ends, from its last attempt. */
  function StreamReply(a: Attempt): Reply
  {
    match a.outcome
    case Useful => Answered
    case Unreachable => Raised
    case Broken => Raised
    case _ => Stopped
  }

  /** One attempt of a plain call. */
  method TryCall(b: Breaker, model: string, a: Attempt, last: bool) returns (done: bool, reply: Reply, marked: bool)
    requires b.Valid() && Answers(false, [a])
    modifies b
    ensures b.Valid() && b.log == old(b.log) + EventsOf(Try(model, false, a, last))
    ensures done == !TryAgain(false, a) && reply == CallReply(a)
    ensures marked == PrimaryFault(a)
    ensures
      var failed := a.outcome.Empty? || a.outcome.Broken?
                    || (!a.primary && (a.outcome.Unreachable? || (a.outcome.Refused? && a.outcome.status >= 500)));
      b.FailureCount(model) == if a.outcome.Useful? then 0 else if failed then old(b.FailureCount(model)) + 1 else old(b.FailureCount(model))
    ensures forall m | m != model :: b.FailureCount(m) == old(b.FailureCount(m))
    ensures done <==> a.outcome.Useful? || a.outcome.Empty? || (!a.primary && a.outcome.Refused? && a.outcome.status < 500)
    ensures match a.outcome
      case Useful => reply == Answered
      case Empty => reply == BadFormat
      case Refused(status) => reply == if done then HttpError(status) else GaveUp
      case _ => reply == GaveUp
  {
    assert a in [a];
    done, reply, marked := false, GaveUp, false;
    match a.outcome
    case Refused(status) =>
      if a.primary {
        marked := true;
      } else if status >= 500 {
        b.RecordFailure(model, a.at);
      } else {
        done, reply := true, HttpError(status);
      }
    case Useful =>
      b.RecordSuccess(model, a.at);
      done, reply := true, Answered;
    case Empty =>
      b.RecordFailure(model, a.at);
      done, reply := true, BadFormat;
    case Unreachable =>
      if a.primary {
        marked := true;
      } else {
        b.RecordFailure(model, a.at);
      }
    case Broken =>
      b.RecordFailure(model, a.at);
  }

  /** One attempt of a stream. */
  method TryStream(b: Breaker, model: string, a: Attempt, last: bool) returns (done: bool, reply: Reply, marked: bool)
    requires b.Valid() && Answers(true, [a])
    modifies b
    ensures b.Valid() && b.log == old(b.log) + EventsOf(Try(model, true, a, last))
    ensures done == (last || !TryAgain(true, a)) && (done ==> reply == StreamReply(a))
    ensures marked == PrimaryFault(a)
    ensures
      var failed := !a.primary && ((a.outcome.Unreachable? && last)
                                   || (a.outcome.Refused? && (last || (a.outcome.status != 429 && a.outcome.status != 503))));
      b.FailureCount(model) == if a.outcome.Useful? then 0 else if failed then old(b.FailureCount(model)) + 1 else old(b.FailureCount(model))
    ensures forall m | m != model :: b.FailureCount(m) == old(b.FailureCount(m))
    ensures done <==>
      || last || a.outcome.Useful? || a.outcome.OverBudget? || a.outcome.Broken?
      || (!a.primary && a.outcome.Refused? && a.outcome.status != 429 && a.outcome.status != 503)
    ensures done ==>
      match a.outcome
      case Useful => reply == Answered
      case Unreachable => reply == Raised
      case Broken => reply == Raised
      case _ => reply == Stopped
  {
    assert a in [a];
    done, reply, marked := true, Stopped, false;
    match a.outcome
    case Refused(status) =>
      marked := a.primary;
      if marked && !last {
        done := false;
      } else if (status == 429 || status == 503) && !last {
        done := false;
      } else if !marked {
        b.RecordFailure(model, a.at);
      }
    case Useful =>
      b.RecordSuccess(model, a.at);
      reply := Answered;
    case OverBudget =>
    case Unreachable =>
      marked, reply := a.primary, Raised;
      if !last {
        done := false;
      } else if !marked {
        b.RecordFailure(model, a.at);
      }
    case Broken =>
      reply := Raised;
  }

  /** The reply a finished request gives, from its last attempt. */
  function Final(streaming: bool, a: Attempt): Reply
  {
    if streaming then StreamReply(a) else CallReply(a)
  }

  method TryOne(b: Breaker, model: string, streaming: bool, a: Attempt, last: bool) returns (done: bool, reply: Reply)
    requires b.Valid() && Answers(streaming, [a])
    modifies b
    ensures b.Valid() && b.log == old(b.log) + EventsOf(Try(model, streaming, a, last))
    ensures !TryAgain(streaming, a) ==> done
    ensures done && TryAgain(streaming, a) ==> last
    ensures done || last ==> reply == Final(streaming, a)
  {
    var marked;
    if streaming {
      done, reply, marked := TryStream(b, model, a, last);
    } else {
      done, reply, marked := TryCall(b, model, a, last);
    }
  }

  /** The breaker's log is what it was, then what the run told it. */
  ghost predicate Logged(log: Log, was: Log, run: seq<Step>)
  {
    log == was + LogOf(run, |run|)
  }

  lemma LoggedStep(log: Log, was: Log, run: seq<Step>, step: Step)
    requires Logged(log, was, run)
    ensures Logged(log + EventsOf(step), was, run + [step])
  {
    LogOfAppend(run, step);
  }

  lemma LoggedMore(log: Log, was: Log, run: seq<Step>, more: seq<Step>)
    requires Logged(log, was, run)
    ensures Logged(log + LogOf(more, |more|), was, run + more)
  {
    FlatConcat(EventsOf, run, more, |more|);
    Assoc(was, LogOf(run, |run|), LogOf(more, |more|));
  }

  lemma LoggedBegin(was: Log, model: string, now: real)
    ensures Logged(was + [Event(Checked, model, now)], was, [Begin(model, now)])
  {
    assert LogOf([Begin(model, now)], 1) == LogOf([Begin(model, now)], 0) + [Event(Checked, model, now)];
  }

  /** Other calls run while this one awaits. */
  method Interleave(b: Breaker, steps: seq<Step>)
    requires b.Valid()
    modifies b
    ensures b.Valid() && b.log == old(b.log) + LogOf(steps, |steps|)
  {
    for i := 0 to |steps|
      invariant b.Valid() && b.log == old(b.log) + LogOf(steps, i)
    {
      Perform(b, steps[i]);
    }
  }

  method Perform(b: Breaker, step: Step)
    requires b.Valid()
    modifies b
    ensures b.Valid() && b.log == old(b.log) + EventsOf(step)
  {
    if step.Begin? {
      var _ := b.IsOpen(step.model, step.at);
    } else {
      var k := Blame(step.streaming, step.attempt, step.last);
      if k == [Succeeded] {
        b.RecordSuccess(step.model, step.attempt.at);
      } else if k == [Failed] {
        b.RecordFailure(step.model, step.attempt.at);
      }
    }
  }

  /** The retry loop, entered once the breaker has let the call through. */
  method Attempts(b: Breaker, model: string, streaming: bool, now: real, world: seq<Attempt>, between: seq<seq<Step>>,
                  retries: nat, ghost was: Log)
    returns (reply: Reply, n: nat)
    requires b.Valid() && Answers(streaming, world) && |between| == |world| > retries
    requires Logged(b.log, was, [Begin(model, now)])
    modifies b
    ensures b.Valid() && Persisted(streaming, world, n, retries) && reply == Final(streaming, world[n - 1])
    ensures Logged(b.log, was, Woven(model, streaming, now, world, between, retries, n))
  {
    n := 0;
    var done := false;
    reply := GaveUp;
    while n <= retries && !done
      invariant n <= retries + 1 && (n == 0 ==> !done)
      invariant b.Valid() && Logged(b.log, was, Woven(model, streaming, now, world, between, retries, n))
      invariant forall i | 0 <= i < n - 1 :: TryAgain(streaming, world[i])
      invariant n > 0 && !done ==> TryAgain(streaming, world[n - 1])
      invariant done ==> !TryAgain(streaming, world[n - 1]) || n == retries + 1
      invariant done || n == retries + 1 ==> reply == Final(streaming, world[n - 1])
      decreases retries + 1 - n
    {
      ghost var run := Woven(model, streaming, now, world, between, retries, n);
      done, reply := TryNext(b, model, streaming, world[n], between[n], n == retries, was, run);
      n := n + 1;
    }
  }

  /** Whatever happens meanwhile, then one more attempt. */
  method TryNext(b: Breaker, model: string, streaming: bool, a: Attempt, meanwhile: seq<Step>, last: bool,
                 ghost was: Log, ghost run: seq<Step>)
    returns (done: bool, reply: Reply)
    requires b.Valid() && Answers(streaming, [a]) && Logged(b.log, was, run)
    modifies b
    ensures b.Valid() && Logged(b.log, was, run + meanwhile + [Try(model, streaming, a, last)])
    ensures !TryAgain(streaming, a) ==> done
    ensures done && TryAgain(streaming, a) ==> last
    ensures done || last ==> reply == Final(streaming, a)
  {
    ghost var log := b.log;
    Interleave(b, meanwhile);
    LoggedMore(log, was, run, meanwhile);
    log := b.log;
    done, reply := TryOne(b, model, streaming, a, last);
    LoggedStep(log, was, run + meanwhile, Try(model, streaming, a, last));
  }

  /**
    * A plain call or a stream, with any steps of other calls between its attempts: refused
    * without contacting any endpoint while the breaker is open, otherwise attempted for as
    * long as the attempts can be retried.
    */
  method Request(b: Breaker, model: string, streaming: bool, now: real, world: seq<Attempt>, between: seq<seq<Step>>, retries: nat)
    returns (reply: Reply, n: nat)
    requires b.Valid() && Answers(streaming, world) && |between| == |world| > retries
    modifies b
    ensures b.Valid() && n <= retries + 1
    ensures Logged(b.log, old(b.log), Woven(model, streaming, now, world, between, retries, n))
    ensures n == 0 ==> reply == CircuitOpen
    ensures n > 0 ==> Persisted(streaming, world, n, retries) && reply == Final(streaming, world[n - 1])
    ensures Monotone(old(b.log) + [Event(Checked, model, now)]) ==> (n == 0 <==> Tripped(old(b.log), model, now))
  {
    ghost var was := b.log;
    LoggedBegin(was, model, now);
    var refused := b.IsOpen(model, now);
    if refused {
      return CircuitOpen, 0;
    }
    reply, n := Attempts(b, model, streaming, now, world, between, retries, was);
  }
}
