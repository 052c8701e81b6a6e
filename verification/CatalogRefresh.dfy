/**
  * What a refresh or a publish that runs to its end leaves behind: alone, exactly; among other
  * tasks, no older than its own beginning.
  */
module CatalogRefresh {
  import opened Basics
  import opened CatalogSnapshot

  // ---- a task on its own ----

  /** The state after `n` steps of task `id` alone; every version it is given is `next`. */
  function Alone(s: State, id: TaskId, next: Version, n: nat): State
  {
    if n == 0 then s
    else
      var before := Alone(s, id, next, n - 1);
      if Enabled(before, Advance(id, next)) then Do(before, Advance(id, next)) else before
  }

  function LastRows(s: State): Entries
    requires s.db != []
  {
    s.db[|s.db| - 1]
  }

  /** What `s'` differs in from `s` is worker `w`, and that task `id` is gone. */
  ghost predicate Leaves(s: State, s': State, id: TaskId, w: WorkerId, worker: Worker)
  {
    s' == s.(workers := s.workers[w := worker], tasks := s.tasks - {id})
  }

  function WithTask(s: State, id: TaskId, t: Task): State
  {
    s.(tasks := s.tasks[id := t])
  }

  /** One step of a refresh from one phase to another. */
  lemma OneStep(s: State, id: TaskId, w: WorkerId, from: Refresh, to: Refresh)
    requires w in s.workers && s.db != []
    requires match from
      case AskVersion => to == HasVersion(s.ver)
      case HasVersion(None) => to == AskRows(None, false)
      case HasVersion(Some(v)) => s.workers[w].version != Some(v) && to == AskEntries(v)
      case AskEntries(v) => to == HasEntries(v, s.hash)
      case HasEntries(v, raw) => raw == map[] && to == AskRows(Some(v), false)
      case AskRows(tag, _) => to == HasRows(tag, |s.db| - 1)
      case HasRows(_, _) => false
    ensures Enabled(WithTask(s, id, Refreshing(w, from)), Advance(id, 0))
    ensures Do(WithTask(s, id, Refreshing(w, from)), Advance(id, 0)) == WithTask(s, id, Refreshing(w, to))
  {
    assert s.tasks[id := Refreshing(w, from)][id := Refreshing(w, to)] == s.tasks[id := Refreshing(w, to)];
  }

  /** The last step: install what was read, or nothing. */
  lemma FinalStep(s: State, id: TaskId, w: WorkerId, from: Refresh, worker: Worker)
    requires w in s.workers && s.db != []
    requires match from
      case HasVersion(Some(v)) => s.workers[w].version == Some(v) && worker == s.workers[w]
      case HasEntries(v, raw) => raw != map[] && worker == Worker(raw, Some(v))
      case HasRows(tag, j) => j < |s.db| && worker == Worker(s.db[j], if tag.Some? then tag else s.workers[w].version)
      case _ => false
    ensures Enabled(WithTask(s, id, Refreshing(w, from)), Advance(id, 0))
    ensures Leaves(s, Do(WithTask(s, id, Refreshing(w, from)), Advance(id, 0)), id, w, worker)
  {
    assert s.tasks[id := Refreshing(w, from)] - {id} == s.tasks - {id};
    assert s.workers[w := s.workers[w]] == s.workers;
  }

  /** Alone, `n` steps from `from` lead to `to`. */
  ghost predicate Reaches(s: State, id: TaskId, w: WorkerId, from: Refresh, n: nat, to: Refresh)
  {
    Alone(WithTask(s, id, Refreshing(w, from)), id, 0, n) == WithTask(s, id, Refreshing(w, to))
  }

  lemma Onward(s: State, id: TaskId, w: WorkerId, n: nat, mid: Refresh, to: Refresh)
    requires w in s.workers && s.db != [] && Reaches(s, id, w, AskVersion, n, mid)
    requires Enabled(WithTask(s, id, Refreshing(w, mid)), Advance(id, 0))
    requires Do(WithTask(s, id, Refreshing(w, mid)), Advance(id, 0)) == WithTask(s, id, Refreshing(w, to))
    ensures Reaches(s, id, w, AskVersion, n + 1, to)
  {
  }

  /** What a refresh without faults leaves its worker with: the database's rows if Redis knows no version,
      what it had if its version is current, Redis's entries if there are any, and else the rows again. */
  function Refreshed(s: State, w: WorkerId): Worker
    requires w in s.workers && s.db != []
  {
    if s.ver == None then Worker(LastRows(s), s.workers[w].version)
    else if s.workers[w].version == s.ver then s.workers[w]
    else if s.hash != map[] then Worker(s.hash, s.ver)
    else Worker(LastRows(s), s.ver)
  }

  /** A refresh advanced to its end alone, in any state. */
  lemma RefreshAlone(s: State, id: TaskId, w: WorkerId) returns (n: nat)
    requires w in s.workers && s.db != []
    ensures var start := WithTask(s, id, Refreshing(w, AskVersion));
      Leaves(s, Alone(start, id, 0, n), id, w, Refreshed(s, w))
  {
    OneStep(s, id, w, AskVersion, HasVersion(s.ver));
    Onward(s, id, w, 0, AskVersion, HasVersion(s.ver));
    if s.ver == None {
      OneStep(s, id, w, HasVersion(None), AskRows(None, false));
      Onward(s, id, w, 1, HasVersion(None), AskRows(None, false));
      n := RowsAlone(s, id, w, 2, None);
    } else {
      var v := s.ver.value;
      if s.workers[w].version == s.ver {
        FinalStep(s, id, w, HasVersion(Some(v)), s.workers[w]);
        n := 2;
      } else {
        OneStep(s, id, w, HasVersion(Some(v)), AskEntries(v));
        Onward(s, id, w, 1, HasVersion(Some(v)), AskEntries(v));
        n := EntriesAlone(s, id, w, v);
      }
    }
  }

  lemma RowsAlone(s: State, id: TaskId, w: WorkerId, m: nat, tag: Option<Version>) returns (n: nat)
    requires w in s.workers && s.db != [] && Reaches(s, id, w, AskVersion, m, AskRows(tag, false))
    ensures Leaves(s, Alone(WithTask(s, id, Refreshing(w, AskVersion)), id, 0, n), id, w,
                   Worker(LastRows(s), if tag.Some? then tag else s.workers[w].version))
  {
    var k := |s.db| - 1;
    OneStep(s, id, w, AskRows(tag, false), HasRows(tag, k));
    Onward(s, id, w, m, AskRows(tag, false), HasRows(tag, k));
    FinalStep(s, id, w, HasRows(tag, k), Worker(s.db[k], if tag.Some? then tag else s.workers[w].version));
    n := m + 2;
  }

  lemma EntriesAlone(s: State, id: TaskId, w: WorkerId, v: Version) returns (n: nat)
    requires w in s.workers && s.db != [] && Reaches(s, id, w, AskVersion, 2, AskEntries(v))
    ensures Leaves(s, Alone(WithTask(s, id, Refreshing(w, AskVersion)), id, 0, n), id, w,
                   Worker(if s.hash != map[] then s.hash else LastRows(s), Some(v)))
  {
    OneStep(s, id, w, AskEntries(v), HasEntries(v, s.hash));
    Onward(s, id, w, 2, AskEntries(v), HasEntries(v, s.hash));
    if s.hash != map[] {
      FinalStep(s, id, w, HasEntries(v, s.hash), Worker(s.hash, Some(v)));
      n := 4;
    } else {
      OneStep(s, id, w, HasEntries(v, s.hash), AskRows(Some(v), false));
      Onward(s, id, w, 3, HasEntries(v, s.hash), AskRows(Some(v), false));
      n := RowsAlone(s, id, w, 4, Some(v));
    }
  }

  /** A refresh waiting for Redis, holding entries it cannot read, or waiting for the database in their place. */
  predicate BeforeFallback(r: Refresh)
  {
    r.AskVersion? || r.AskEntries? || r.HasEntries? || (r.AskRows? && !r.fallback)
  }

  /** When Redis or the database fails a refresh at any such point, the refresh still ends with the database's rows, under the
      version its worker had. */
  lemma FallbackReloads(s: State, id: TaskId, w: WorkerId, r: Refresh)
    requires w in s.workers && s.db != [] && BeforeFallback(r)
    ensures Enabled(WithTask(s, id, Refreshing(w, r)), Fail(id))
    ensures var failed := Do(WithTask(s, id, Refreshing(w, r)), Fail(id));
      Leaves(s, Alone(failed, id, 0, 2), id, w, Worker(LastRows(s), s.workers[w].version))
  {
    var k := |s.db| - 1;
    var failed := Do(WithTask(s, id, Refreshing(w, r)), Fail(id));
    assert failed == WithTask(s, id, Refreshing(w, AskRows(None, true))) by {
      assert s.tasks[id := Refreshing(w, r)][id := Refreshing(w, AskRows(None, true))] == s.tasks[id := Refreshing(w, AskRows(None, true))];
    }
    OneStep(s, id, w, AskRows(None, true), HasRows(None, k));
    NextAlone(failed, id, 0, 0, failed, WithTask(s, id, Refreshing(w, HasRows(None, k))));
    FinalStep(s, id, w, HasRows(None, k), Worker(s.db[k], s.workers[w].version));
  }

  /** When the database fails the fallback too, its worker keeps what it had. */
  lemma FallbackFails(s: State, id: TaskId, w: WorkerId)
    requires w in s.workers
    ensures Leaves(s, Do(WithTask(s, id, Refreshing(w, AskRows(None, true))), Fail(id)), id, w, s.workers[w])
  {
    assert s.tasks[id := Refreshing(w, AskRows(None, true))] - {id} == s.tasks - {id};
    assert s.workers[w := s.workers[w]] == s.workers;
  }

  // ---- a publish on its own ----

  lemma NextAlone(s: State, id: TaskId, next: Version, n: nat, mid: State, after: State)
    requires Alone(s, id, next, n) == mid && Enabled(mid, Advance(id, next)) && Do(mid, Advance(id, next)) == after
    ensures Alone(s, id, next, n + 1) == after
  {
  }

  /** What a publish without faults leaves: Redis and its worker at exactly the database's rows, under
      the new version. */
  function Published(s: State, id: TaskId, w: WorkerId, next: Version): State
    requires w in s.workers && s.db != []
  {
    s.(hash := LastRows(s), ver := Some(next), published := s.published[next := |s.db| - 1],
       workers := s.workers[w := Worker(LastRows(s), Some(next))], tasks := s.tasks - {id})
  }

  /** The state of a publish that is about to take step `p`, with the hash as far as it is written. */
  function Midway(s: State, id: TaskId, w: WorkerId, p: Publish, hash: Entries): State
    requires w in s.workers && s.db != []
  {
    s.(hash := hash, workers := s.workers[w := s.workers[w].(snapshot := LastRows(s))], tasks := s.tasks[id := Publishing(w, p)])
  }

  lemma MidwayStep(s: State, id: TaskId, w: WorkerId, p: Publish, p': Publish, hash: Entries, hash': Entries, next: Version)
    requires w in s.workers && s.db != []
    requires var k := |s.db| - 1; match p
      case WriteFields(j) => j == k && p' == ListFields(k) && hash' == hash + s.db[k]
      case ClearFields(j) => j == k && p' == SetVersion(k) && hash' == map[]
      case ListFields(j) => j == k && p' == Prune(k, hash.Keys - s.db[k].Keys) && hash' == hash
      case Prune(j, stale) => j == k && p' == SetVersion(k) && hash' == hash - stale
      case _ => false
    ensures Enabled(Midway(s, id, w, p, hash), Advance(id, next))
    ensures Do(Midway(s, id, w, p, hash), Advance(id, next)) == Midway(s, id, w, p', hash')
  {
    assert s.tasks[id := Publishing(w, p)][id := Publishing(w, p')] == s.tasks[id := Publishing(w, p')];
  }

  /** The first two steps: read the rows and install them in the worker. */
  lemma PublishBegins(s: State, id: TaskId, w: WorkerId, next: Version)
    requires w in s.workers && s.db != []
    ensures var k := |s.db| - 1;
      Alone(WithTask(s, id, Publishing(w, Reload)), id, next, 2)
      == Midway(s, id, w, if s.db[k] == map[] then ClearFields(k) else WriteFields(k), s.hash)
  {
    var k := |s.db| - 1;
    var start, read := WithTask(s, id, Publishing(w, Reload)), WithTask(s, id, Publishing(w, Install(k)));
    assert start.tasks[id := Publishing(w, Install(k))] == read.tasks;
    NextAlone(start, id, next, 0, start, read);
    var p := if s.db[k] == map[] then ClearFields(k) else WriteFields(k);
    assert read.tasks[id := Publishing(w, p)] == s.tasks[id := Publishing(w, p)];
    NextAlone(start, id, next, 1, read, Midway(s, id, w, p, s.hash));
  }

  /** The state once the version is set. */
  function Announced(s: State, id: TaskId, w: WorkerId, next: Version): State
    requires w in s.workers && s.db != []
  {
    var k := |s.db| - 1;
    Midway(s, id, w, Record(k, next), LastRows(s)).(ver := Some(next), published := s.published[next := k])
  }

  lemma VersionStep(s: State, id: TaskId, w: WorkerId, next: Version)
    requires w in s.workers && s.db != [] && next !in s.published
    ensures var mid := Midway(s, id, w, SetVersion(|s.db| - 1), LastRows(s));
      Enabled(mid, Advance(id, next)) && Do(mid, Advance(id, next)) == Announced(s, id, w, next)
  {
    var k := |s.db| - 1;
    assert s.tasks[id := Publishing(w, SetVersion(k))][id := Publishing(w, Record(k, next))] == s.tasks[id := Publishing(w, Record(k, next))];
  }

  lemma RecordStep(s: State, id: TaskId, w: WorkerId, next: Version)
    requires w in s.workers && s.db != []
    ensures var told := Announced(s, id, w, next);
      Enabled(told, Advance(id, next)) && Do(told, Advance(id, next)) == Published(s, id, w, next)
  {
    var told := Announced(s, id, w, next);
    assert told.tasks - {id} == s.tasks - {id};
    assert told.workers[w := Worker(LastRows(s), Some(next))] == s.workers[w := Worker(LastRows(s), Some(next))];
  }

  /** The last two steps: set the version and record it in the worker. */
  lemma PublishEnds(s: State, start: State, id: TaskId, w: WorkerId, next: Version, n: nat)
    requires w in s.workers && s.db != [] && next !in s.published
    requires Alone(start, id, next, n) == Midway(s, id, w, SetVersion(|s.db| - 1), LastRows(s))
    ensures Alone(start, id, next, n + 2) == Published(s, id, w, next)
  {
    VersionStep(s, id, w, next);
    NextAlone(start, id, next, n, Alone(start, id, next, n), Announced(s, id, w, next));
    RecordStep(s, id, w, next);
    NextAlone(start, id, next, n + 1, Announced(s, id, w, next), Published(s, id, w, next));
  }

  /** A publish advanced to its end alone, in any state and whatever the hash held before. */
  lemma PublishAlone(s: State, id: TaskId, w: WorkerId, next: Version) returns (n: nat)
    requires w in s.workers && s.db != [] && next !in s.published
    ensures Alone(WithTask(s, id, Publishing(w, Reload)), id, next, n) == Published(s, id, w, next)
  {
    var k := |s.db| - 1;
    var start, rows := WithTask(s, id, Publishing(w, Reload)), LastRows(s);
    PublishBegins(s, id, w, next);
    if rows == map[] {
      MidwayStep(s, id, w, ClearFields(k), SetVersion(k), s.hash, map[], next);
      NextAlone(start, id, next, 2, Midway(s, id, w, ClearFields(k), s.hash), Midway(s, id, w, SetVersion(k), map[]));
      n := 5;
      PublishEnds(s, start, id, w, next, 3);
    } else {
      var full := s.hash + rows;
      var stale := full.Keys - rows.Keys;
      assert full - stale == rows;
      MidwayStep(s, id, w, WriteFields(k), ListFields(k), s.hash, full, next);
      NextAlone(start, id, next, 2, Midway(s, id, w, WriteFields(k), s.hash), Midway(s, id, w, ListFields(k), full));
      MidwayStep(s, id, w, ListFields(k), Prune(k, stale), full, full, next);
      NextAlone(start, id, next, 3, Midway(s, id, w, ListFields(k), full), Midway(s, id, w, Prune(k, stale), full));
      MidwayStep(s, id, w, Prune(k, stale), SetVersion(k), full, rows, next);
      NextAlone(start, id, next, 4, Midway(s, id, w, Prune(k, stale), full), Midway(s, id, w, SetVersion(k), rows));
      n := 7;
      PublishEnds(s, start, id, w, next, 5);
    }
  }

  // ---- a refresh among other tasks ----

  /** `ss` are the states a run passes through. No hypothesis on the deployment is made. */
  ghost predicate Trace(run: seq<Label>, ss: seq<State>)
  {
    |ss| == |run| + 1 && forall n | 0 <= n < |run| :: StepAt(run, ss, n)
  }

  ghost predicate StepAt(run: seq<Label>, ss: seq<State>, n: nat)
    requires |ss| == |run| + 1 && n < |run|
  {
    Enabled(ss[n], run[n]) && ss[n + 1] == Do(ss[n], run[n])
  }

  /** Every run of the protocol has such states, whatever it respects. */
  lemma {:induction false} TraceOf(h: Hypotheses, s: State, run: seq<Label>) returns (ss: seq<State>)
    requires Run(h, s, run).Some?
    ensures Trace(run, ss) && ss[0] == s && ss[|run|] == Run(h, s, run).value
    decreases |run|
  {
    if run == [] {
      ss := [s];
    } else {
      var init := run[..|run| - 1];
      var before := TraceOf(h, s, init);
      ss := before + [Run(h, s, run).value];
      forall n | 0 <= n < |run| ensures StepAt(run, ss, n) {
        if n < |init| {
          assert StepAt(init, before, n);
          assert ss[n] == before[n] && ss[n + 1] == before[n + 1] && init[n] == run[n];
        } else {
          assert ss[n] == before[|init|];
        }
      }
    }
  }

  /** `v` was the version in Redis at some time after `i` and up to `n`. */
  ghost predicate WasVersion(ss: seq<State>, i: nat, n: nat, v: Option<Version>)
    requires n < |ss|
  {
    exists k | i < k <= n :: ss[k].ver == v
  }

  /** Then, or later, `raw` were the entries in Redis. */
  ghost predicate WereEntries(ss: seq<State>, i: nat, n: nat, v: Version, raw: Entries)
    requires n < |ss|
  {
    exists k, l | i < k <= l <= n :: ss[k].ver == Some(v) && ss[l].hash == raw
  }

  /** Row `q` is no older than what the database held at `i`. */
  ghost predicate RowSince(ss: seq<State>, i: nat, n: nat, q: nat)
    requires i <= n < |ss|
  {
    |ss[i].db| - 1 <= q < |ss[n].db|
  }

  /** What a refresh begun at `i` has been told by `n`. */
  ghost predicate Since(ss: seq<State>, i: nat, n: nat, r: Refresh)
    requires i <= n < |ss|
  {
    match r
    case AskVersion => true
    case HasVersion(found) => WasVersion(ss, i, n, found)
    case AskEntries(v) => WasVersion(ss, i, n, Some(v))
    case HasEntries(v, raw) => WereEntries(ss, i, n, v, raw)
    case AskRows(tag, _) => tag.Some? ==> WasVersion(ss, i, n, tag)
    case HasRows(tag, q) => (tag.Some? ==> WasVersion(ss, i, n, tag)) && RowSince(ss, i, n, q)
  }

  lemma StepGrows(s: State, l: Label)
    requires Enabled(s, l)
    ensures s.db <= Do(s, l).db
  {
  }

  lemma {:induction false} DatabaseGrows(run: seq<Label>, ss: seq<State>, i: nat, n: nat)
    requires Trace(run, ss) && i <= n < |ss|
    ensures ss[i].db <= ss[n].db
    decreases n - i
  {
    if i < n {
      DatabaseGrows(run, ss, i, n - 1);
      assert StepAt(run, ss, n - 1);
      StepGrows(ss[n - 1], run[n - 1]);
    }
  }

  lemma SinceKept(run: seq<Label>, ss: seq<State>, i: nat, n: nat, r: Refresh)
    requires Trace(run, ss) && i <= n < |run| && Since(ss, i, n, r)
    ensures Since(ss, i, n + 1, r)
  {
    DatabaseGrows(run, ss, n, n + 1);
  }

  ghost predicate Underway(ss: seq<State>, i: nat, n: nat, id: TaskId, w: WorkerId)
    requires i <= n < |ss|
  {
    && id in ss[n].tasks && ss[n].tasks[id].Refreshing? && ss[n].tasks[id].worker == w
    && Since(ss, i, n, ss[n].tasks[id].phase)
  }

  /** One step of the refresh itself: what it is told is what holds at that moment. */
  lemma SinceTold(run: seq<Label>, ss: seq<State>, i: nat, n: nat, id: TaskId, w: WorkerId)
    requires Trace(run, ss) && i < n < |run| && Underway(ss, i, n, id, w)
    requires run[n] == Fail(id) || (run[n].Advance? && run[n].id == id)
    requires id in ss[n + 1].tasks
    ensures Underway(ss, i, n + 1, id, w)
  {
    assert StepAt(run, ss, n);
    var r := ss[n].tasks[id].phase;
    SinceKept(run, ss, i, n, r);
    DatabaseGrows(run, ss, i, n);
    if run[n].Advance? {
      match r
      case AskVersion => assert WasVersion(ss, i, n + 1, ss[n].ver);
      case AskEntries(v) =>
        var k :| i < k <= n && ss[k].ver == Some(v);
        assert WereEntries(ss, i, n + 1, v, ss[n].hash);
      case HasEntries(v, raw) =>
        var k, l :| i < k <= l <= n && ss[k].ver == Some(v) && ss[l].hash == raw;
        assert WasVersion(ss, i, n + 1, Some(v));
      case _ =>
    }
  }

  /** A step of anybody else leaves a task alone. */
  lemma OthersStep(s: State, l: Label, id: TaskId)
    requires Enabled(s, l) && id in s.tasks && id in Do(s, l).tasks && l != Fail(id) && !(l.Advance? && l.id == id)
    ensures Do(s, l).tasks[id] == s.tasks[id]
  {
    assert l != Cancel(id);
  }

  lemma {:induction false} SinceHolds(run: seq<Label>, ss: seq<State>, i: nat, n: nat, id: TaskId, w: WorkerId)
    requires Trace(run, ss) && i < n < |ss| && run[i] == Start(id, Refreshing(w, AskVersion))
    requires forall m | i < m <= n :: id in ss[m].tasks
    ensures Underway(ss, i, n, id, w)
    decreases n - i
  {
    assert StepAt(run, ss, n - 1);
    if n > i + 1 {
      SinceHolds(run, ss, i, n - 1, id, w);
      if run[n - 1] == Fail(id) || (run[n - 1].Advance? && run[n - 1].id == id) {
        SinceTold(run, ss, i, n - 1, id, w);
      } else {
        OthersStep(ss[n - 1], run[n - 1], id);
        SinceKept(run, ss, i, n - 1, ss[n - 1].tasks[id].phase);
      }
    }
  }

  /** The worker is at a version Redis held since `i`, with what it had or with the entries Redis held
      no earlier than that version. */
  ghost predicate AtReadVersion(ss: seq<State>, i: nat, j: nat, was: Worker, now: Worker)
    requires i <= j < |ss|
  {
    && now.version.Some?
    && ((now == was && WasVersion(ss, i, j, now.version))
        || (now.snapshot != map[] && WereEntries(ss, i, j, now.version.value, now.snapshot)))
  }

  /** The worker has database rows no older than what the database held at `i`, under its old version or
      under one Redis held since. */
  ghost predicate AtRows(ss: seq<State>, i: nat, j: nat, was: Worker, now: Worker)
    requires i <= j < |ss|
  {
    && (now.version == was.version || (now.version.Some? && WasVersion(ss, i, j, now.version)))
    && exists q | 0 <= q < |ss[j].db| :: RowSince(ss, i, j, q) && now.snapshot == ss[j].db[q]
  }

  /** In every run, whatever else commits, publishes, refreshes or is lost meanwhile: a refresh that
      begins at `i` and ends by a step of its own at `j` leaves its worker at a version it read, or with
      rows no older than its beginning. */
  lemma RefreshEnds(run: seq<Label>, ss: seq<State>, i: nat, j: nat, id: TaskId, w: WorkerId)
    requires Trace(run, ss) && i < j < |run| && run[i] == Start(id, Refreshing(w, AskVersion))
    requires forall m | i < m <= j :: id in ss[m].tasks
    requires run[j].Advance? && run[j].id == id && id !in ss[j + 1].tasks
    ensures w in ss[j].workers && w in ss[j + 1].workers
    ensures var was, now := ss[j].workers[w], ss[j + 1].workers[w];
      AtReadVersion(ss, i, j, was, now) || AtRows(ss, i, j, was, now)
  {
    SinceHolds(run, ss, i, j, id, w);
    assert StepAt(run, ss, j);
    var was, now := ss[j].workers[w], ss[j + 1].workers[w];
    match ss[j].tasks[id].phase
    case HasVersion(Some(v)) => assert now == was && AtReadVersion(ss, i, j, was, now);
    case HasEntries(v, raw) => assert now == Worker(raw, Some(v)) && AtReadVersion(ss, i, j, was, now);
    case HasRows(tag, q) => assert RowSince(ss, i, j, q) && now.snapshot == ss[j].db[q] && AtRows(ss, i, j, was, now);
  }
}
