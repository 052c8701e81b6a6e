/**
  * The sliding-window limiter of one key: a sorted set of request times in Redis, trimmed,
  * extended and counted by every request, admitted or not.
  *
  * A request carries the time its worker read and the time on the server's clock, which the
  * expiry of the key goes by. A member of the set is a time, so requests at the same instant
  * share one.
  */
module SlidingWindow {

  datatype Entry = Entry(at: real, server: real, admitted: bool)

  type History = seq<Entry>

  // ---- what the set holds, by history, for any clocks ----

  /** Request `k` removes the time `x`: it has left the window, or the key expired before. */
  predicate Removes(h: History, window: real, k: nat, x: real)
    requires 0 < k < |h|
  {
    0.0 <= x <= h[k].at - window || h[k].server >= h[k - 1].server + window
  }

  predicate Stays(h: History, window: real, j: nat, n: nat)
    requires j < n <= |h|
  {
    forall k | j < k < n :: !Removes(h, window, k, h[j].at)
  }

  /** The times in the set after the first `n` requests. */
  ghost function Standing(h: History, window: real, n: nat): set<real>
    requires n <= |h|
  {
    set j | 0 <= j < n && Stays(h, window, j, n) :: h[j].at
  }

  /** Each request is admitted exactly when the set, with its own time in it, holds at most `limit` times. */
  ghost predicate Ruled(h: History, limit: nat, window: real)
  {
    forall i | 0 <= i < |h| :: RuledAt(h, limit, window, i)
  }

  ghost predicate RuledAt(h: History, limit: nat, window: real, i: nat)
    requires i < |h|
  {
    h[i].admitted <==> |Standing(h, window, i + 1)| <= limit
  }

  lemma StaysInPrefix(h: History, e: Entry, window: real, j: nat, n: nat)
    requires j < n <= |h|
    ensures Stays(h + [e], window, j, n) == Stays(h, window, j, n)
  {
    forall k | j < k < n ensures Removes(h + [e], window, k, (h + [e])[j].at) == Removes(h, window, k, h[j].at) {
    }
  }

  lemma StandingInPrefix(h: History, e: Entry, window: real, n: nat)
    requires n <= |h|
    ensures Standing(h + [e], window, n) == Standing(h, window, n)
  {
    forall j | 0 <= j < n ensures Stays(h + [e], window, j, n) == Stays(h, window, j, n) && (h + [e])[j] == h[j] {
      StaysInPrefix(h, e, window, j, n);
    }
  }

  /** The set without what has left the window, or empty if the key has expired. */
  function Trimmed(scores: set<real>, expired: bool, bound: real): set<real>
  {
    if expired then {} else set x | x in scores && !(0.0 <= x <= bound)
  }

  lemma OneMoreStays(h: History, e: Entry, window: real, j: nat)
    requires j < |h|
    ensures Stays(h + [e], window, j, |h| + 1) <==> Stays(h, window, j, |h|) && !Removes(h + [e], window, |h|, h[j].at)
  {
    StaysInPrefix(h, e, window, j, |h|);
    assert (h + [e])[j] == h[j];
  }

  predicate ExpiredBy(h: History, e: Entry, window: real)
  {
    h != [] && e.server >= h[|h| - 1].server + window
  }

  lemma StandingNext(h: History, e: Entry, window: real, x: real)
    requires x in Standing(h + [e], window, |h| + 1)
    ensures x in Trimmed(Standing(h, window, |h|), ExpiredBy(h, e, window), e.at - window) + {e.at}
  {
    var j :| 0 <= j < |h| + 1 && Stays(h + [e], window, j, |h| + 1) && (h + [e])[j].at == x;
    if j < |h| {
      OneMoreStays(h, e, window, j);
    }
  }

  lemma StandingStill(h: History, e: Entry, window: real, x: real)
    requires x in Trimmed(Standing(h, window, |h|), ExpiredBy(h, e, window), e.at - window)
    ensures x in Standing(h + [e], window, |h| + 1)
  {
    var j :| 0 <= j < |h| && Stays(h, window, j, |h|) && h[j].at == x;
    OneMoreStays(h, e, window, j);
    assert (h + [e])[j].at == x;
  }

  lemma StandingOwn(h: History, e: Entry, window: real)
    ensures e.at in Standing(h + [e], window, |h| + 1)
  {
    assert Stays(h + [e], window, |h|, |h| + 1) && (h + [e])[|h|].at == e.at;
  }

  /** One more request drops what it removes and adds its own time. */
  lemma StandingGrows(h: History, e: Entry, window: real)
    ensures Standing(h + [e], window, |h| + 1)
         == Trimmed(Standing(h, window, |h|), ExpiredBy(h, e, window), e.at - window) + {e.at}
  {
    var next := Trimmed(Standing(h, window, |h|), ExpiredBy(h, e, window), e.at - window);
    forall x | x in Standing(h + [e], window, |h| + 1) ensures x in next + {e.at} {
      StandingNext(h, e, window, x);
    }
    forall x | x in next ensures x in Standing(h + [e], window, |h| + 1) {
      StandingStill(h, e, window, x);
    }
    StandingOwn(h, e, window);
  }

  // ---- the limiter ----

  /** What every request keeps. */
  ghost predicate Sound(h: History, scores: set<real>, expiresAt: real, limit: nat, window: real)
  {
    && Ruled(h, limit, window) && scores == Standing(h, window, |h|)
    && (h != [] ==> expiresAt == h[|h| - 1].server + window)
  }

  class Limiter {
    const limit: nat
    const window: real
    var scores: set<real>
    var expiresAt: real
    ghost var history: History

    ghost predicate Valid()
      reads this
    {
      Sound(history, scores, expiresAt, limit, window)
    }

    constructor (limit: nat, window: real)
      ensures Valid() && this.limit == limit && this.window == window && history == []
    {
      this.limit, this.window := limit, window;
      scores, expiresAt, history := {}, 0.0, [];
    }

    /** One request: drop what has left the window, add this one, count, renew the key. The history it
        extends stays ruled: admitted exactly when the set then holds at most `limit` times. */
    method Allow(now: real, server: real) returns (admitted: bool)
      requires Valid()
      modifies this
      ensures Sound(history, scores, expiresAt, limit, window)
      ensures history == old(history) + [Entry(now, server, admitted)]
      ensures admitted <==> |scores| <= limit
    {
      NextSound(history, scores, expiresAt, limit, window, now, server);
      scores := Pipeline(scores, expiresAt, now, server, window);
      expiresAt := server + window;
      admitted := |scores| <= limit;
      history := history + [Entry(now, server, admitted)];
    }
  }

  /** The commands of one request, run as a transaction: a key past its expiry is gone before they start. */
  method Pipeline(scores0: set<real>, expiresAt: real, now: real, server: real, window: real) returns (scores: set<real>)
    ensures scores == Next(scores0, now, server, expiresAt, window)
  {
    var expired := scores0 != {} && server >= expiresAt;
    scores := Trimmed(scores0, expired, now - window);
    scores := scores + {now};
  }

  lemma RuledGrows(h: History, e: Entry, limit: nat, window: real)
    requires Ruled(h, limit, window)
    requires e.admitted <==> |Standing(h + [e], window, |h| + 1)| <= limit
    ensures Ruled(h + [e], limit, window)
  {
    var h' := h + [e];
    forall i | 0 <= i < |h'| ensures RuledAt(h', limit, window, i) {
      if i < |h| {
        assert RuledAt(h, limit, window, i);
        StandingInPrefix(h, e, window, i + 1);
      }
    }
  }

  /** The set after a request, computed from the set before it. */
  function Next(scores: set<real>, now: real, server: real, expiresAt: real, window: real): set<real>
  {
    Trimmed(scores, scores != {} && server >= expiresAt, now - window) + {now}
  }

  lemma NextStands(h: History, window: real, e: Entry, scores: set<real>, expiresAt: real)
    requires scores == Standing(h, window, |h|) && (h != [] ==> expiresAt == h[|h| - 1].server + window)
    ensures Standing(h + [e], window, |h| + 1) == Next(scores, e.at, e.server, expiresAt, window)
  {
    StandingGrows(h, e, window);
    if h == [] {
      assert scores == {};
    }
  }

  lemma NextSound(h: History, scores: set<real>, expiresAt: real, limit: nat, window: real, now: real, server: real)
    requires Sound(h, scores, expiresAt, limit, window)
    ensures var next := Next(scores, now, server, expiresAt, window);
      var h' := h + [Entry(now, server, |next| <= limit)];
      Sound(h', next, server + window, limit, window) && Standing(h', window, |h'|) == next
  {
    var e := Entry(now, server, |Next(scores, now, server, expiresAt, window)| <= limit);
    NextStands(h, window, e, scores, expiresAt);
    RuledGrows(h, e, limit, window);
  }

  // ---- one clock ----

  /** One clock serves workers and server, and it never runs back. */
  predicate OneClock(h: History)
  {
    (forall i | 0 <= i < |h| :: h[i].server == h[i].at >= 0.0) && forall i, j | 0 <= i < j < |h| :: h[i].at <= h[j].at
  }

  predicate Increasing(h: History)
  {
    forall i, j | 0 <= i < j < |h| :: h[i].at < h[j].at
  }

  /** With one clock the set holds exactly the times in the window that ends with the last request:
      the expiry of the key makes no difference. */
  lemma StandingIsWindow(h: History, window: real, n: nat, j: nat)
    requires OneClock(h) && window > 0.0 && j < n <= |h|
    ensures Stays(h, window, j, n) <==> h[j].at > h[n - 1].at - window
  {
    if h[j].at > h[n - 1].at - window {
      forall k | j < k < n ensures !Removes(h, window, k, h[j].at) {
        assert h[j].at <= h[k - 1].at <= h[k].at <= h[n - 1].at;
      }
    } else if Stays(h, window, j, n) {
      assert j < n - 1 && Removes(h, window, n - 1, h[j].at);
    }
  }

  predicate Inside(e: Entry, start: real, window: real)
  {
    e.admitted && start <= e.at < start + window
  }

  /** The instants of the admitted requests among the first `n` in the half-open interval from `start` on. */
  ghost function Instants(h: History, n: nat, start: real, window: real): set<real>
    requires n <= |h|
  {
    set j | 0 <= j < n && Inside(h[j], start, window) :: h[j].at
  }

  lemma Subset<T>(a: set<T>, b: set<T>)
    requires a <= b
    ensures |a| <= |b|
  {
    assert b == a + (b - a);
  }

  /** No interval of one window holds admitted requests at more instants than the limit. */
  lemma {:induction false} InstantBound(h: History, n: nat, limit: nat, window: real, start: real)
    requires OneClock(h) && window > 0.0 && Ruled(h, limit, window) && n <= |h|
    ensures |Instants(h, n, start, window)| <= limit
  {
    if n == 0 {
      assert Instants(h, n, start, window) == {};
    } else if Inside(h[n - 1], start, window) {
      forall x | x in Instants(h, n, start, window) ensures x in Standing(h, window, n) {
        var j :| 0 <= j < n && Inside(h[j], start, window) && h[j].at == x;
        StandingIsWindow(h, window, n, j);
      }
      Subset(Instants(h, n, start, window), Standing(h, window, n));
      assert RuledAt(h, limit, window, n - 1);
    } else {
      InstantBound(h, n - 1, limit, window, start);
      forall x | x in Instants(h, n, start, window) ensures x in Instants(h, n - 1, start, window) {
        var j :| 0 <= j < n && Inside(h[j], start, window) && h[j].at == x;
        assert j < n - 1;
      }
      Subset(Instants(h, n, start, window), Instants(h, n - 1, start, window));
    }
  }

  /** Admitted requests among the first `n` in the half-open interval from `start` on. */
  function Admitted(h: History, n: nat, start: real, window: real): nat
    requires n <= |h|
  {
    if n == 0 then 0 else Admitted(h, n - 1, start, window) + if Inside(h[n - 1], start, window) then 1 else 0
  }

  lemma {:induction false} OneInstantEach(h: History, n: nat, start: real, window: real)
    requires Increasing(h) && n <= |h|
    ensures Admitted(h, n, start, window) == |Instants(h, n, start, window)|
  {
    if n == 0 {
      assert Instants(h, n, start, window) == {};
    } else {
      OneInstantEach(h, n - 1, start, window);
      var before, last := Instants(h, n - 1, start, window), h[n - 1];
      if Inside(last, start, window) {
        assert last.at !in before;
        assert Instants(h, n, start, window) == before + {last.at};
      } else {
        assert Instants(h, n, start, window) == before;
      }
    }
  }

  /** With distinct instants, no interval of one window holds more admitted requests than the limit. */
  lemma WindowBound(h: History, n: nat, limit: nat, window: real, start: real)
    requires OneClock(h) && Increasing(h) && window > 0.0 && Ruled(h, limit, window) && n <= |h|
    ensures Admitted(h, n, start, window) <= limit
  {
    InstantBound(h, n, limit, window, start);
    OneInstantEach(h, n, start, window);
  }

  // ---- requests at the same instant ----

  function Burst(m: nat, at: real): History
  {
    seq(m, i => Entry(at, at, true))
  }

  lemma {:induction false} BurstAdmitted(m: nat, n: nat, at: real, window: real)
    requires n <= m && window > 0.0
    ensures Admitted(Burst(m, at), n, at, window) == n
  {
    if n > 0 {
      BurstAdmitted(m, n - 1, at, window);
    }
  }

  /** Any number of requests at one instant are admitted, whatever the limit, as long as it admits one. */
  lemma SameInstantUnbounded(m: nat, at: real, limit: nat, window: real)
    requires limit >= 1 && at >= 0.0 && window > 0.0
    ensures OneClock(Burst(m, at)) && Ruled(Burst(m, at), limit, window) && Admitted(Burst(m, at), m, at, window) == m
  {
    var h := Burst(m, at);
    BurstAdmitted(m, m, at, window);
    forall i | 0 <= i < |h| ensures RuledAt(h, limit, window, i) {
      assert Standing(h, window, i + 1) <= {at};
      Subset(Standing(h, window, i + 1), {at});
    }
  }

  // ---- exactly when the bound holds ----

  /** The requests made at the instant `x`. */
  ghost function Together(h: History, x: real): set<int>
  {
    set i | 0 <= i < |h| && h[i].at == x
  }

  /** At most `m` requests at any instant. */
  ghost predicate AtMostPerInstant(h: History, m: nat)
  {
    forall x: real :: |Together(h, x)| <= m
  }

  ghost predicate Bounded(h: History, limit: nat, window: real)
  {
    forall start: real :: Admitted(h, |h|, start, window) <= limit
  }

  /** Every window of every run with at most `m` requests per instant keeps within the limit. */
  ghost predicate AlwaysBounded(m: nat, limit: nat, window: real)
  {
    forall h | OneClock(h) && Ruled(h, limit, window) && AtMostPerInstant(h, m) :: Bounded(h, limit, window)
  }

  lemma DistinctInstants(h: History)
    requires OneClock(h) && AtMostPerInstant(h, 1)
    ensures Increasing(h)
  {
    forall i, j | 0 <= i < j < |h| ensures h[i].at < h[j].at {
      if h[i].at == h[j].at {
        Subset({i, j}, Together(h, h[i].at));
      }
    }
  }

  lemma FewerPerInstant(h: History, m: nat)
    requires m <= 1 && AtMostPerInstant(h, m)
    ensures AtMostPerInstant(h, 1)
  {
  }

  lemma {:induction false} NoneAdmitted(h: History, n: nat, start: real, window: real)
    requires Ruled(h, 0, window) && n <= |h|
    ensures Admitted(h, n, start, window) == 0
  {
    if n > 0 {
      NoneAdmitted(h, n - 1, start, window);
      assert RuledAt(h, 0, window, n - 1);
      assert Stays(h, window, n - 1, n);
      assert h[n - 1].at in Standing(h, window, n);
    }
  }

  lemma BoundedIf(m: nat, limit: nat, window: real, h: History)
    requires window > 0.0 && (m <= 1 || limit == 0)
    requires OneClock(h) && Ruled(h, limit, window) && AtMostPerInstant(h, m)
    ensures Bounded(h, limit, window)
  {
    forall start: real ensures Admitted(h, |h|, start, window) <= limit {
      if limit == 0 {
        NoneAdmitted(h, |h|, start, window);
      } else {
        FewerPerInstant(h, m);
        DistinctInstants(h);
        WindowBound(h, |h|, limit, window, start);
      }
    }
  }

  // ---- one request too many ----

  /** Which of `limit` instants request `i` is made at: each once, and the last of them once more. */
  function Slot(i: nat, limit: nat): nat
    requires limit >= 1
  {
    if i < limit then i else limit - 1
  }

  /** Instants within one window, each half-way from the one before to the end. */
  function TimeOf(k: nat, window: real): (t: real)
    requires window > 0.0
    ensures 0.0 <= t < window
  {
    if k == 0 then 0.0 else (TimeOf(k - 1, window) + window) / 2.0
  }

  function OneTooMany(limit: nat, window: real): History
    requires limit >= 1 && window > 0.0
  {
    seq(limit + 1, i requires 0 <= i => Entry(TimeOf(Slot(i, limit), window), TimeOf(Slot(i, limit), window), true))
  }

  lemma {:induction false} TimesGrow(i: nat, j: nat, window: real)
    requires i < j && window > 0.0
    ensures TimeOf(i, window) < TimeOf(j, window)
  {
    if i < j - 1 {
      TimesGrow(i, j - 1, window);
    }
  }

  ghost function FirstTimes(n: nat, window: real): set<real>
    requires window > 0.0
  {
    set k: nat | 0 <= k < n :: TimeOf(k, window)
  }

  lemma {:induction false} FewTimes(n: nat, window: real)
    requires window > 0.0
    ensures |FirstTimes(n, window)| <= n
  {
    if n == 0 {
      assert FirstTimes(n, window) == {};
    } else {
      FewTimes(n - 1, window);
      assert FirstTimes(n, window) == FirstTimes(n - 1, window) + {TimeOf(n - 1, window)};
    }
  }

  lemma TooManyClock(limit: nat, window: real)
    requires limit >= 1 && window > 0.0
    ensures OneClock(OneTooMany(limit, window))
  {
    var h := OneTooMany(limit, window);
    forall i, j | 0 <= i < j < |h| ensures h[i].at <= h[j].at {
      if Slot(i, limit) < Slot(j, limit) {
        TimesGrow(Slot(i, limit), Slot(j, limit), window);
      }
    }
  }

  lemma TooManyRuled(limit: nat, window: real)
    requires limit >= 1 && window > 0.0
    ensures Ruled(OneTooMany(limit, window), limit, window)
  {
    var h := OneTooMany(limit, window);
    FewTimes(limit, window);
    forall i | 0 <= i < |h| ensures RuledAt(h, limit, window, i) {
      forall x | x in Standing(h, window, i + 1) ensures x in FirstTimes(limit, window) {
        var j :| 0 <= j < i + 1 && Stays(h, window, j, i + 1) && h[j].at == x;
        assert x == TimeOf(Slot(j, limit), window);
      }
      Subset(Standing(h, window, i + 1), FirstTimes(limit, window));
    }
  }

  lemma TooManyPerInstant(limit: nat, window: real)
    requires limit >= 1 && window > 0.0
    ensures AtMostPerInstant(OneTooMany(limit, window), 2)
  {
    var h := OneTooMany(limit, window);
    forall x: real ensures |Together(h, x)| <= 2 {
      if i :| i in Together(h, x) && i < limit - 1 {
        forall j | j in Together(h, x) ensures j in {i} {
          SameSlot(limit, window, i, j);
        }
        Subset(Together(h, x), {i});
      } else {
        assert Together(h, x) <= {limit - 1, limit};
        Subset(Together(h, x), {limit - 1, limit});
      }
    }
  }

  lemma SameSlot(limit: nat, window: real, i: int, j: int)
    requires limit >= 1 && window > 0.0 && 0 <= i <= limit && 0 <= j <= limit
    requires OneTooMany(limit, window)[i].at == OneTooMany(limit, window)[j].at
    ensures Slot(i, limit) == Slot(j, limit)
  {
    if Slot(i, limit) < Slot(j, limit) {
      TimesGrow(Slot(i, limit), Slot(j, limit), window);
    } else if Slot(j, limit) < Slot(i, limit) {
      TimesGrow(Slot(j, limit), Slot(i, limit), window);
    }
  }

  lemma {:induction false} TooManyAdmitted(limit: nat, window: real, n: nat)
    requires limit >= 1 && window > 0.0 && n <= limit + 1
    ensures Admitted(OneTooMany(limit, window), n, 0.0, window) == n
  {
    if n > 0 {
      TooManyAdmitted(limit, window, n - 1);
    }
  }

  lemma TooManyUnbounded(m: nat, limit: nat, window: real)
    requires window > 0.0 && m >= 2 && limit >= 1
    ensures !AlwaysBounded(m, limit, window)
  {
    var h := OneTooMany(limit, window);
    TooManyClock(limit, window);
    TooManyRuled(limit, window);
    TooManyPerInstant(limit, window);
    TooManyAdmitted(limit, window, limit + 1);
    assert AtMostPerInstant(h, m) by {
      forall x: real ensures |Together(h, x)| <= m {
        assert |Together(h, x)| <= 2;
      }
    }
    assert Admitted(h, |h|, 0.0, window) == limit + 1;
    assert !Bounded(h, limit, window);
  }

  /** The bound holds of all runs with at most `m` requests per instant if and only if no two requests share
      an instant, or nothing is admitted at all. */
  lemma WindowBoundExactly(m: nat, limit: nat, window: real)
    requires window > 0.0
    ensures AlwaysBounded(m, limit, window) <==> m <= 1 || limit == 0
  {
    if m <= 1 || limit == 0 {
      forall h | OneClock(h) && Ruled(h, limit, window) && AtMostPerInstant(h, m) ensures Bounded(h, limit, window) {
        BoundedIf(m, limit, window, h);
      }
    } else {
      TooManyUnbounded(m, limit, window);
    }
  }
}
