/**
  * The per-model circuit breaker, and what its dictionaries mean in terms of everything that
  * happened to it. The clock is an input of each operation.
  */
module CircuitBreaker {

  const THRESHOLD: nat := 5
  const COOLDOWN: real := 90.0

  datatype Kind = Failed | Succeeded | Checked | Restored

  datatype Event = Event(kind: Kind, model: string, at: real)

  type Log = seq<Event>

  predicate Is(h: Log, i: nat, kind: Kind, model: string)
    requires i < |h|
  {
    h[i].kind == kind && h[i].model == model
  }

  // ---- the history specification ----

  /** Failures since the last reset before `n`. */
  ghost function FailuresSince(h: Log, n: nat, model: string): nat
    requires n <= |h|
    decreases n, 0
  {
    if n == 0 || Reset(h, n - 1, model) then 0
    else FailuresSince(h, n - 1, model) + if Is(h, n - 1, Failed, model) then 1 else 0
  }

  /** A trip: a failure that brings the count to the threshold or beyond, or a restore at startup. */
  ghost predicate Trip(h: Log, i: nat, model: string)
    requires i < |h|
    decreases i, 1
  {
    || Is(h, i, Restored, model)
    || (Is(h, i, Failed, model) && FailuresSince(h, i, model) + 1 >= THRESHOLD)
  }

  /** A reset: a success, or a check that finds the standing trip past its cooldown. */
  ghost predicate Reset(h: Log, i: nat, model: string)
    requires i < |h|
    decreases i, 3
  {
    || Is(h, i, Succeeded, model)
    || (Is(h, i, Checked, model) && exists j | 0 <= j < i :: Standing(h, j, i, model) && h[i].at - h[j].at > COOLDOWN)
  }

  /** `j` is the latest trip before `n` and nothing has reset it since. */
  ghost predicate Standing(h: Log, j: nat, n: nat, model: string)
    requires j < n <= |h|
    decreases n, 2
  {
    Trip(h, j, model) && forall k | j < k < n :: !Trip(h, k, model) && !Reset(h, k, model)
  }

  /** The latest trip, if it has seen no success since and is still within its cooldown. */
  ghost predicate Tripped(h: Log, model: string, now: real)
  {
    exists j | 0 <= j < |h| ::
      && Trip(h, j, model)
      && (forall k | j < k < |h| :: !Trip(h, k, model) && !Is(h, k, Succeeded, model))
      && now - h[j].at <= COOLDOWN
  }

  ghost predicate Monotone(h: Log)
  {
    forall i, j | 0 <= i < j < |h| :: h[i].at <= h[j].at
  }

  /** The two logs agree on trips and resets before `n`. */
  ghost predicate SameTo(h: Log, h': Log, n: nat, model: string)
    requires n <= |h| && n <= |h'|
  {
    forall i | 0 <= i < n :: Trip(h', i, model) == Trip(h, i, model) && Reset(h', i, model) == Reset(h, i, model)
  }

  lemma SameStanding(h: Log, h': Log, j: nat, n: nat, model: string)
    requires j < n <= |h| && n <= |h'| && SameTo(h, h', n, model)
    ensures Standing(h', j, n, model) == Standing(h, j, n, model)
  {
  }

  /** History up to `n` does not depend on what comes after. */
  lemma {:induction false} Stable(h: Log, e: Event, n: nat, model: string)
    requires n <= |h|
    ensures FailuresSince(h + [e], n, model) == FailuresSince(h, n, model)
    ensures SameTo(h, h + [e], n, model)
  {
    if n > 0 {
      var h', i := h + [e], n - 1;
      Stable(h, e, i, model);
      assert h'[i] == h[i];
      assert Trip(h', i, model) == Trip(h, i, model);
      forall j | 0 <= j < i ensures Standing(h', j, i, model) == Standing(h, j, i, model) && h'[j] == h[j] {
        SameStanding(h, h', j, i, model);
      }
      assert Reset(h', i, model) == Reset(h, i, model);
    }
  }

  /** With a clock that never runs back, a standing trip in time is exactly a latest trip in time without success. */
  lemma StandingIsLatest(h: Log, model: string, now: real)
    requires Monotone(h) && forall i | 0 <= i < |h| :: h[i].at <= now
    ensures Tripped(h, model, now) <==> exists j | 0 <= j < |h| :: Standing(h, j, |h|, model) && now - h[j].at <= COOLDOWN
  {
    if Tripped(h, model, now) {
      var j :| 0 <= j < |h| && Trip(h, j, model) && now - h[j].at <= COOLDOWN
        && (forall k | j < k < |h| :: !Trip(h, k, model) && !Is(h, k, Succeeded, model));
      forall k | j < k < |h| ensures !Reset(h, k, model) {
        if Reset(h, k, model) {
          var t :| 0 <= t < k && Standing(h, t, k, model) && h[k].at - h[t].at > COOLDOWN;
          assert false;
        }
      }
      assert Standing(h, j, |h|, model);
    }
  }

  /** Without a success or a trip to clear, nothing is reset. */
  lemma NothingToReset(h: Log, i: nat, model: string)
    requires i < |h| && !Is(h, i, Succeeded, model) && forall j | 0 <= j < i :: !Trip(h, j, model)
    ensures !Reset(h, i, model)
  {
    if Reset(h, i, model) {
      var j :| 0 <= j < i && Standing(h, j, i, model) && h[i].at - h[j].at > COOLDOWN;
      StandingTrips(h, j, i, model);
      assert false;
    }
  }

  lemma StandingTrips(h: Log, j: nat, n: nat, model: string)
    requires j < n <= |h| && Standing(h, j, n, model)
    ensures Trip(h, j, model)
  {
  }

  lemma ClockSoFar(h: Log, e: Event)
    requires Monotone(h + [e])
    ensures Monotone(h) && forall i | 0 <= i < |h| :: h[i].at <= e.at
  {
    forall i | 0 <= i < |h| ensures h[i].at <= e.at {
      assert (h + [e])[i].at <= (h + [e])[|h|].at;
    }
    forall i, j | 0 <= i < j < |h| ensures h[i].at <= h[j].at {
      assert (h + [e])[i].at <= (h + [e])[j].at;
    }
  }

  /** The failure count, openness and open time of one model agree with its history. */
  ghost predicate Agrees(h: Log, model: string, failures: nat, open: bool, since: real)
  {
    && failures == FailuresSince(h, |h|, model)
    && (if open then exists j | 0 <= j < |h| :: Standing(h, j, |h|, model) && since == h[j].at
        else forall j | 0 <= j < |h| :: !Standing(h, j, |h|, model))
  }

  /** A standing trip survives an event that neither trips nor resets. */
  lemma Uneventful(h: Log, e: Event, model: string, failures: nat, open: bool, since: real)
    requires Agrees(h, model, failures, open, since)
    requires !Trip(h + [e], |h|, model) && !Reset(h + [e], |h|, model)
    ensures Agrees(h + [e], model, failures + (if e.kind == Failed && e.model == model then 1 else 0), open, since)
  {
    var h', n := h + [e], |h|;
    Stable(h, e, n, model);
    forall j | 0 <= j < n ensures Standing(h', j, n + 1, model) == Standing(h, j, n, model) && h'[j] == h[j] {
      SameStanding(h, h', j, n, model);
    }
  }

  /** A trip becomes the standing one. */
  lemma Trips(h: Log, e: Event, model: string, failures: nat, open: bool, since: real)
    requires Agrees(h, model, failures, open, since) && e.model == model
    requires e.kind == Restored || (e.kind == Failed && failures + 1 >= THRESHOLD)
    ensures Agrees(h + [e], model, failures + (if e.kind == Failed then 1 else 0), true, e.at)
  {
    Stable(h, e, |h|, model);
    assert Standing(h + [e], |h|, |h| + 1, model);
  }

  /** A reset leaves nothing standing and nothing counted. */
  lemma Resets(h: Log, e: Event, model: string)
    requires Reset(h + [e], |h|, model)
    ensures Agrees(h + [e], model, 0, false, 0.0)
  {
  }

  /** Only a check of the model itself that finds its trip past the cooldown resets it. */
  lemma CheckResets(h: Log, e: Event, model: string, failures: nat, open: bool, since: real)
    requires Agrees(h, model, failures, open, since) && e.kind == Checked
    ensures Reset(h + [e], |h|, model) <==> e.model == model && open && e.at - since > COOLDOWN
    ensures open ==> forall j | 0 <= j < |h| && Standing(h, j, |h|, model) :: since == h[j].at
  {
    var h', n := h + [e], |h|;
    Stable(h, e, n, model);
    forall j | 0 <= j < n ensures Standing(h', j, n, model) == Standing(h, j, n, model) && h'[j] == h[j] {
      SameStanding(h, h', j, n, model);
    }
  }

  // ---- the breaker ----

  class Breaker {
    var failures: map<string, nat>
    var open: set<string>
    var openTime: map<string, real>
    ghost var log: Log

    function FailureCount(model: string): nat
      reads this
    {
      if model in failures then failures[model] else 0
    }

    /** An open model has an open time, and the dictionaries say of every model what its history says. */
    ghost predicate Valid()
      reads this
    {
      && open <= openTime.Keys
      && forall model: string :: AgreesOn(model)
    }

    ghost predicate AgreesOn(model: string)
      reads this
    {
      Agrees(log, model, FailureCount(model), model in open, if model in openTime then openTime[model] else 0.0)
    }

    constructor ()
      ensures Valid() && log == [] && open == {}
    {
      failures, open, openTime, log := map[], {}, map[], [];
    }

    /** An event of another model changes nothing for this one. */
    lemma Others(e: Event)
      requires Valid()
      ensures forall model: string | model != e.model ::
        Agrees(log + [e], model, FailureCount(model), model in open, if model in openTime then openTime[model] else 0.0)
    {
      forall model: string | model != e.model
        ensures Agrees(log + [e], model, FailureCount(model), model in open, if model in openTime then openTime[model] else 0.0)
      {
        assert AgreesOn(model);
        Uneventful(log, e, model, FailureCount(model), model in open, if model in openTime then openTime[model] else 0.0);
      }
    }

    /** Whether calls to the model are refused; a trip past its cooldown is cleared on the way. */
    method IsOpen(model: string, now: real) returns (r: bool)
      requires Valid()
      modifies this
      ensures Valid() && log == old(log) + [Event(Checked, model, now)]
      ensures Monotone(log) ==> r == Tripped(old(log), model, now)
    {
      ghost var e, was := Event(Checked, model, now), log;
      Others(e);
      assert AgreesOn(model);
      CheckResets(log, e, model, FailureCount(model), model in open, if model in openTime then openTime[model] else 0.0);
      if Monotone(log + [e]) {
        ClockSoFar(log, e);
        StandingIsLatest(log, model, now);
      }
      log := log + [e];
      if model !in open {
        Uneventful(was, e, model, FailureCount(model), false, if model in openTime then openTime[model] else 0.0);
        return false;
      }
      if now - openTime[model] > COOLDOWN {
        Resets(was, e, model);
        open, failures := open - {model}, failures[model := 0];
        return false;
      }
      Uneventful(was, e, model, FailureCount(model), true, openTime[model]);
      return true;
    }

    method RecordFailure(model: string, now: real)
      requires Valid()
      modifies this
      ensures Valid() && log == old(log) + [Event(Failed, model, now)]
      ensures FailureCount(model) == old(FailureCount(model)) + 1
      ensures forall m | m != model :: FailureCount(m) == old(FailureCount(m))
      ensures open == if FailureCount(model) >= THRESHOLD then old(open) + {model} else old(open)
    {
      ghost var e := Event(Failed, model, now);
      Others(e);
      assert AgreesOn(model);
      ghost var n, o, t := FailureCount(model), model in open, if model in openTime then openTime[model] else 0.0;
      failures := failures[model := FailureCount(model) + 1];
      if failures[model] >= THRESHOLD {
        Trips(log, e, model, n, o, t);
        open, openTime := open + {model}, openTime[model := now];
      } else {
        Stable(log, e, |log|, model);
        Uneventful(log, e, model, n, o, t);
      }
      log := log + [e];
    }

    method RecordSuccess(model: string, ghost now: real)
      requires Valid()
      modifies this
      ensures Valid() && log == old(log) + [Event(Succeeded, model, now)]
      ensures FailureCount(model) == 0 && open == old(open) - {model}
      ensures forall m | m != model :: FailureCount(m) == old(FailureCount(m))
    {
      ghost var e := Event(Succeeded, model, now);
      Others(e);
      Resets(log, e, model);
      failures, open := failures[model := 0], open - {model};
      log := log + [e];
    }

    /** Startup found the model's key in Redis. */
    method RestoreOpen(model: string, now: real)
      requires Valid()
      modifies this
      ensures Valid() && log == old(log) + [Event(Restored, model, now)]
      ensures open == old(open) + {model} && failures == old(failures)
    {
      ghost var e := Event(Restored, model, now);
      Others(e);
      assert AgreesOn(model);
      Trips(log, e, model, FailureCount(model), model in open, if model in openTime then openTime[model] else 0.0);
      open, openTime := open + {model}, openTime[model := now];
      log := log + [e];
    }
  }
}
