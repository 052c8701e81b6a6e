/**
  * The per-user write lock kept in Redis: set-if-absent with an expiry, and a release that
  * deletes the key only while it still holds the releasing task's own token.
  */
module LeaseLock {

  /** Tokens are freshly generated, so a task stands for its token. */
  type Task = nat

  datatype Key = Absent | Held(owner: Task, until: real)

  /**
    * `inside` maps each task between its acquisition and its release to the end of its lease;
    * `past` holds the tasks that have had the lock and given it back.
    */
  datatype State = State(now: real, key: Key, inside: map<Task, real>, past: set<Task>)

  /** `RequestLost` is a request whose reply is lost, so that its task gives up whether or not it was granted;
      `ReleaseLost` a release whose script does not run. Either may leave the key to its expiry. */
  datatype Step =
    | Wait(seconds: real)
    | Request(task: Task)
    | RequestLost(task: Task)
    | Release(task: Task)
    | ReleaseLost(task: Task)

  function Initial(now: real): State
  {
    State(now, Absent, map[], {})
  }

  /** The key as Redis sees it: gone once its time is up. */
  function Live(s: State): Key
  {
    if s.key.Held? && s.key.until > s.now then s.key else Absent
  }

  predicate Enabled(s: State, step: Step)
  {
    match step
    case Wait(d) => d >= 0.0
    case Request(t) => t !in s.inside && t !in s.past
    case RequestLost(t) => t !in s.inside && t !in s.past
    case Release(t) => t in s.inside
    case ReleaseLost(t) => t in s.inside
  }

  function Do(ttl: real, s: State, step: Step): State
  {
    match step
    case Wait(d) => s.(now := s.now + d)
    case Request(t) =>
      if Live(s).Absent? then s.(key := Held(t, s.now + ttl), inside := s.inside[t := s.now + ttl]) else s
    case RequestLost(t) =>
      var gone := s.(past := s.past + {t});
      if Live(s).Absent? then gone.(key := Held(t, s.now + ttl)) else gone
    case ReleaseLost(t) => s.(inside := s.inside - {t}, past := s.past + {t})
    case Release(t) =>
      var left := s.(inside := s.inside - {t}, past := s.past + {t});
      if Live(s).Held? && Live(s).owner == t then left.(key := Absent) else left
  }

  function After(ttl: real, s: State, run: seq<Step>, n: nat): State
    requires n <= |run|
  {
    if n == 0 then s else Do(ttl, After(ttl, s, run, n - 1), run[n - 1])
  }

  predicate Possible(ttl: real, s: State, run: seq<Step>)
  {
    forall i | 0 <= i < |run| :: Enabled(After(ttl, s, run, i), run[i])
  }

  /** The task is inside and its lease has not run out. */
  predicate Leased(s: State, t: Task)
  {
    t in s.inside && s.inside[t] > s.now
  }

  // ---- safety ----

  /** Whoever holds a running lease owns the key, to the end of the lease. */
  predicate Inv(s: State)
  {
    forall t | t in s.inside && s.inside[t] > s.now :: s.key == Held(t, s.inside[t])
  }

  lemma InvStep(ttl: real, s: State, step: Step)
    requires Inv(s) && Enabled(s, step)
    ensures Inv(Do(ttl, s, step))
  {
  }

  lemma {:induction false} InvRun(ttl: real, now: real, run: seq<Step>, n: nat)
    requires Possible(ttl, Initial(now), run) && n <= |run|
    ensures Inv(After(ttl, Initial(now), run, n))
  {
    if n > 0 {
      InvRun(ttl, now, run, n - 1);
      InvStep(ttl, After(ttl, Initial(now), run, n - 1), run[n - 1]);
    }
  }

  /** At every point of every run, at most one task holds a lease that has not run out. */
  lemma AtMostOneLease(ttl: real, now: real, run: seq<Step>, n: nat, t: Task, u: Task)
    requires Possible(ttl, Initial(now), run) && n <= |run|
    requires var s := After(ttl, Initial(now), run, n); Leased(s, t) && Leased(s, u)
    ensures t == u
  {
    InvRun(ttl, now, run, n);
  }

  /** A release, however late, leaves every other task's running lease and its key in place. */
  lemma ReleaseIsOwn(ttl: real, now: real, run: seq<Step>, n: nat, t: Task, u: Task)
    requires Possible(ttl, Initial(now), run) && n < |run| && (run[n] == Release(t) || run[n] == ReleaseLost(t)) && u != t
    requires Leased(After(ttl, Initial(now), run, n), u)
    ensures var s, s' := After(ttl, Initial(now), run, n), After(ttl, Initial(now), run, n + 1);
      Leased(s', u) && Live(s') == Live(s) == Held(u, s.inside[u])
  {
    InvRun(ttl, now, run, n);
  }

  /** While a lease runs, no request is granted. */
  lemma NoGrantDuringLease(ttl: real, now: real, run: seq<Step>, n: nat, t: Task, u: Task)
    requires Possible(ttl, Initial(now), run) && n < |run| && (run[n] == Request(u) || run[n] == RequestLost(u))
    requires Leased(After(ttl, Initial(now), run, n), t)
    ensures u !in After(ttl, Initial(now), run, n + 1).inside
    ensures After(ttl, Initial(now), run, n + 1).key == After(ttl, Initial(now), run, n).key
  {
    InvRun(ttl, now, run, n);
  }

  /** A request is granted exactly when the key is absent or its time is up, and the key is then the task's own. */
  lemma GrantedExactly(ttl: real, s: State, t: Task)
    requires Enabled(s, Request(t))
    ensures var s' := Do(ttl, s, Request(t));
      if s.key.Absent? || s.key.until <= s.now then s' == s.(key := Held(t, s.now + ttl), inside := s.inside[t := s.now + ttl])
      else s' == s
  {
  }

  /** A release before the lease runs out frees the lock: whoever asks next gets it. */
  lemma ReleaseFrees(ttl: real, now: real, run: seq<Step>, n: nat, t: Task, u: Task)
    requires Possible(ttl, Initial(now), run) && n < |run| && run[n] == Release(t)
    requires Leased(After(ttl, Initial(now), run, n), t)
    requires Enabled(After(ttl, Initial(now), run, n + 1), Request(u))
    ensures var s' := After(ttl, Initial(now), run, n + 1);
      s'.key.Absent? && Do(ttl, s', Request(u)).key == Held(u, s'.now + ttl) && u in Do(ttl, s', Request(u)).inside
  {
    InvRun(ttl, now, run, n);
    GrantedExactly(ttl, After(ttl, Initial(now), run, n + 1), u);
  }

  // ---- how long a task may stay inside ----

  /** Every section has lasted at most `d` so far, from the grant on. */
  predicate Brief(ttl: real, s: State, d: real)
  {
    forall t | t in s.inside :: s.now - (s.inside[t] - ttl) <= d
  }

  /** A run in which every section lasts at most `d`. */
  predicate BriefRun(ttl: real, s: State, run: seq<Step>, d: real)
  {
    forall n | 0 <= n <= |run| :: Brief(ttl, After(ttl, s, run, n), d)
  }

  /** Never are two tasks inside at once. */
  predicate Exclusive(ttl: real, s: State, run: seq<Step>)
  {
    forall n | 0 <= n <= |run| :: Alone(After(ttl, s, run, n))
  }

  predicate Alone(s: State)
  {
    forall t, u | t in s.inside && u in s.inside :: t == u
  }

  lemma BriefIsExclusive(ttl: real, now: real, run: seq<Step>, d: real)
    requires d < ttl && Possible(ttl, Initial(now), run) && BriefRun(ttl, Initial(now), run, d)
    ensures Exclusive(ttl, Initial(now), run)
  {
    forall n | 0 <= n <= |run| ensures Alone(After(ttl, Initial(now), run, n)) {
      var s := After(ttl, Initial(now), run, n);
      assert Brief(ttl, s, d);
      forall t, u | t in s.inside && u in s.inside ensures t == u {
        AtMostOneLease(ttl, now, run, n, t, u);
      }
    }
  }

  /** One task stays for its whole lease, and the next is let in. */
  function Overrun(ttl: real): seq<Step>
  {
    [Request(1), Wait(ttl), Request(2)]
  }

  lemma OverrunIsNotExclusive(ttl: real, now: real, d: real)
    requires 0.0 < ttl <= d
    ensures var run := Overrun(ttl);
      Possible(ttl, Initial(now), run) && BriefRun(ttl, Initial(now), run, d) && !Exclusive(ttl, Initial(now), run)
  {
    var run, s := Overrun(ttl), Initial(now);
    assert After(ttl, s, run, 0) == s;
    assert After(ttl, s, run, 1) == State(now, Held(1, now + ttl), map[1 := now + ttl], {});
    assert After(ttl, s, run, 2) == State(now + ttl, Held(1, now + ttl), map[1 := now + ttl], {});
    var last := After(ttl, s, run, 3);
    assert last.inside == map[1 := now + ttl, 2 := now + ttl + ttl];
    assert 1 in last.inside && 2 in last.inside && !Alone(last);
  }

  ghost predicate AlwaysExclusive(ttl: real, now: real, d: real)
  {
    forall run | Possible(ttl, Initial(now), run) && BriefRun(ttl, Initial(now), run, d) :: Exclusive(ttl, Initial(now), run)
  }

  /** Sections of at most `d` seconds always exclude each other if and only if `d` is below the lease. */
  lemma ExclusionExactly(ttl: real, now: real, d: real)
    requires ttl > 0.0
    ensures AlwaysExclusive(ttl, now, d) <==> d < ttl
  {
    if d < ttl {
      forall run | Possible(ttl, Initial(now), run) && BriefRun(ttl, Initial(now), run, d)
        ensures Exclusive(ttl, Initial(now), run)
      {
        BriefIsExclusive(ttl, now, run, d);
      }
    } else {
      OverrunIsNotExclusive(ttl, now, d);
      var run := Overrun(ttl);
      assert Possible(ttl, Initial(now), run) && BriefRun(ttl, Initial(now), run, d) && !Exclusive(ttl, Initial(now), run);
    }
  }

  // ---- the acquisition loop ----

  const FIRST_DELAY: real := 0.05
  const LONGEST_DELAY: real := 0.5

  /** The sleep after the `k`th refused request. */
  function Delay(k: nat): (d: real)
    ensures FIRST_DELAY <= d <= LONGEST_DELAY
  {
    if k == 0 then FIRST_DELAY
    else if Delay(k - 1) * 2.0 < LONGEST_DELAY then Delay(k - 1) * 2.0 else LONGEST_DELAY
  }

  /** When the `k`th request is made, counting from the first. */
  function RequestTime(k: nat): real
  {
    if k == 0 then 0.0 else RequestTime(k - 1) + Delay(k - 1)
  }

  /**
    * Ask until granted or out of time; `granted(k)` is Redis's answer to the `k`th request and
    * time passes only in the sleeps. The lock is given up only after the whole wait, and the
    * answer comes no later than one back-off after it.
    */
  method Acquire(wait: real, granted: nat -> bool) returns (ok: bool, k: nat, elapsed: real)
    ensures ok == granted(k) && forall i | 0 <= i < k :: !granted(i)
    ensures elapsed == RequestTime(k)
    ensures !ok ==> elapsed >= wait
    ensures k > 0 ==> RequestTime(k - 1) < wait
    ensures elapsed <= (if wait > 0.0 then wait else 0.0) + 0.5
  {
    var delay := FIRST_DELAY;
    k, elapsed := 0, 0.0;
    ghost var before := wait - 1.0;
    while true
      invariant elapsed == RequestTime(k) && delay == Delay(k)
      invariant forall i | 0 <= i < k :: !granted(i)
      invariant before < wait && (if k == 0 then elapsed == 0.0 else before == RequestTime(k - 1) && elapsed <= before + LONGEST_DELAY)
      decreases ((if wait > 0.0 then wait else 0.0) + LONGEST_DELAY - elapsed) * 20.0
    {
      if granted(k) {
        return true, k, elapsed;
      }
      if elapsed >= wait {
        return false, k, elapsed;
      }
      before := elapsed;
      elapsed := elapsed + delay;
      delay := if delay * 2.0 < LONGEST_DELAY then delay * 2.0 else LONGEST_DELAY;
      k := k + 1;
    }
  }
}
