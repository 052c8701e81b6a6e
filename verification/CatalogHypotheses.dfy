/** Each of the four hypotheses of catalog freshness is needed: dropping any one alone admits
    a run that leaves a worker at the current version with entries that version replaced. */
module CatalogHypotheses {
  import opened Basics
  import opened CatalogSnapshot

  /** Two different catalogs, neither empty. */
  ghost predicate Changed(before: Entries, after: Entries)
  {
    before != after && before != map[] && after != map[]
  }

  lemma Take(h: Hypotheses, s0: State, run: seq<Label>, s: State, l: Label) returns (run': seq<Label>)
    requires Run(h, s0, run) == Some(s) && Enabled(s, l) && Respects(h, s, l)
    ensures Run(h, s0, run') == Some(Do(s, l))
  {
    run' := run + [l];
    assert run'[..|run|] == run;
  }

  function With(s: State, id: TaskId, t: Task): State
  {
    s.(tasks := s.tasks[id := t])
  }

  /** One phase of a refresh that touches nothing but its own task. */
  lemma NextPhase(h: Hypotheses, s0: State, run: seq<Label>, s: State, id: TaskId, w: WorkerId, from: Refresh, to: Refresh)
    returns (run': seq<Label>)
    requires Run(h, s0, run) == Some(With(s, id, Refreshing(w, from))) && w in s.workers
    requires match from
      case AskVersion => to == HasVersion(s.ver)
      case HasVersion(Some(v)) => s.workers[w].version != Some(v) && to == AskEntries(v)
      case AskEntries(v) => to == HasEntries(v, s.hash)
      case _ => false
    ensures Run(h, s0, run') == Some(With(s, id, Refreshing(w, to)))
  {
    var s1 := With(s, id, Refreshing(w, from));
    run' := Take(h, s0, run, s1, Advance(id, 0));
    assert s1.tasks[id := Refreshing(w, to)] == s.tasks[id := Refreshing(w, to)];
  }

  /** A refresh whose version query fails. */
  lemma LoseRedis(h: Hypotheses, s0: State, run: seq<Label>, s: State, id: TaskId, w: WorkerId) returns (run': seq<Label>)
    requires Run(h, s0, run) == Some(s)
    requires Enabled(s, Start(id, Refreshing(w, AskVersion))) && Respects(h, s, Start(id, Refreshing(w, AskVersion)))
    ensures Run(h, s0, run') == Some(s.(tasks := s.tasks[id := Refreshing(w, AskRows(None, true))]))
  {
    run' := Take(h, s0, run, s, Start(id, Refreshing(w, AskVersion)));
    var s1 := s.(tasks := s.tasks[id := Refreshing(w, AskVersion)]);
    assert s1.tasks[id] == Refreshing(w, AskVersion);
    run' := Take(h, s0, run', s1, Fail(id));
    assert s1.tasks[id := Refreshing(w, AskRows(None, true))] == s.tasks[id := Refreshing(w, AskRows(None, true))];
  }

  /** It reads the database and is left there, about to install. */
  lemma FallBack(h: Hypotheses, s0: State, run: seq<Label>, s: State, id: TaskId, w: WorkerId) returns (run': seq<Label>)
    requires Run(h, s0, run) == Some(s) && s.db != []
    requires Enabled(s, Start(id, Refreshing(w, AskVersion))) && Respects(h, s, Start(id, Refreshing(w, AskVersion)))
    ensures Run(h, s0, run') == Some(s.(tasks := s.tasks[id := Refreshing(w, HasRows(None, |s.db| - 1))]))
  {
    run' := LoseRedis(h, s0, run, s, id, w);
    var s2 := s.(tasks := s.tasks[id := Refreshing(w, AskRows(None, true))]);
    run' := Take(h, s0, run', s2, Advance(id, 0));
    assert s2.tasks[id := Refreshing(w, HasRows(None, |s.db| - 1))] == s.tasks[id := Refreshing(w, HasRows(None, |s.db| - 1))];
  }

  /** A refresh that finds a new version and reads the hash. */
  lemma ReadHash(h: Hypotheses, s0: State, run: seq<Label>, s: State, id: TaskId, w: WorkerId) returns (run': seq<Label>)
    requires Run(h, s0, run) == Some(s) && s.ver.Some? && s.hash != map[]
    requires Enabled(s, Start(id, Refreshing(w, AskVersion))) && Respects(h, s, Start(id, Refreshing(w, AskVersion)))
    requires s.workers[w].version != s.ver
    ensures Run(h, s0, run') == Some(s.(workers := s.workers[w := Worker(s.hash, s.ver)]))
  {
    var v := s.ver.value;
    run' := Take(h, s0, run, s, Start(id, Refreshing(w, AskVersion)));
    run' := NextPhase(h, s0, run', s, id, w, AskVersion, HasVersion(Some(v)));
    run' := NextPhase(h, s0, run', s, id, w, HasVersion(Some(v)), AskEntries(v));
    run' := NextPhase(h, s0, run', s, id, w, AskEntries(v), HasEntries(v, s.hash));
    run' := InstallEntries(h, s0, run', s, id, w, v);
  }

  lemma InstallEntries(h: Hypotheses, s0: State, run: seq<Label>, s: State, id: TaskId, w: WorkerId, v: Version)
    returns (run': seq<Label>)
    requires Run(h, s0, run) == Some(With(s, id, Refreshing(w, HasEntries(v, s.hash))))
    requires w in s.workers && id !in s.tasks && s.hash != map[]
    ensures Run(h, s0, run') == Some(s.(workers := s.workers[w := Worker(s.hash, Some(v))]))
  {
    var s1 := With(s, id, Refreshing(w, HasEntries(v, s.hash)));
    run' := Take(h, s0, run, s1, Advance(id, 0));
    assert s1.tasks - {id} == s.tasks;
  }

  /** A publish up to the point where it will write the hash. */
  lemma BeginPublish(h: Hypotheses, s0: State, run: seq<Label>, s: State, id: TaskId, w: WorkerId) returns (run': seq<Label>)
    requires Run(h, s0, run) == Some(s) && s.db != [] && s.db[|s.db| - 1] != map[]
    requires Enabled(s, Start(id, Publishing(w, Reload))) && Respects(h, s, Start(id, Publishing(w, Reload)))
    ensures Run(h, s0, run') == Some(s.(workers := s.workers[w := s.workers[w].(snapshot := s.db[|s.db| - 1])],
                                        tasks := s.tasks[id := Publishing(w, WriteFields(|s.db| - 1))]))
  {
    run' := Take(h, s0, run, s, Start(id, Publishing(w, Reload)));
    run' := ReloadRows(h, s0, run', s, id, w);
    run' := InstallRows(h, s0, run', s, id, w, |s.db| - 1);
  }

  lemma ReloadRows(h: Hypotheses, s0: State, run: seq<Label>, s: State, id: TaskId, w: WorkerId) returns (run': seq<Label>)
    requires Run(h, s0, run) == Some(With(s, id, Publishing(w, Reload))) && w in s.workers && s.db != []
    ensures Run(h, s0, run') == Some(With(s, id, Publishing(w, Install(|s.db| - 1))))
  {
    var s1, t := With(s, id, Publishing(w, Reload)), Publishing(w, Install(|s.db| - 1));
    run' := Take(h, s0, run, s1, Advance(id, 0));
    assert s1.tasks[id := t] == s.tasks[id := t];
  }

  lemma InstallRows(h: Hypotheses, s0: State, run: seq<Label>, s: State, id: TaskId, w: WorkerId, k: nat) returns (run': seq<Label>)
    requires Run(h, s0, run) == Some(With(s, id, Publishing(w, Install(k)))) && w in s.workers && k < |s.db| && s.db[k] != map[]
    ensures Run(h, s0, run') == Some(With(s.(workers := s.workers[w := s.workers[w].(snapshot := s.db[k])]), id, Publishing(w, WriteFields(k))))
  {
    var s1, t := With(s, id, Publishing(w, Install(k))), Publishing(w, WriteFields(k));
    run' := Take(h, s0, run, s1, Advance(id, 0));
    assert s1.tasks[id := t] == s.tasks[id := t];
  }

  /** The writes of a publish, up to but not including its version. */
  lemma WriteHash(h: Hypotheses, s0: State, run: seq<Label>, s: State, id: TaskId, w: WorkerId, k: nat) returns (run': seq<Label>)
    requires Run(h, s0, run) == Some(s) && k < |s.db| && w in s.workers
    requires id in s.tasks && s.tasks[id] == Publishing(w, WriteFields(k))
    ensures Run(h, s0, run') == Some(s.(hash := s.db[k], tasks := s.tasks[id := Publishing(w, SetVersion(k))]))
  {
    run' := Take(h, s0, run, s, Advance(id, 0));
    var s1 := s.(hash := s.hash + s.db[k], tasks := s.tasks[id := Publishing(w, ListFields(k))]);
    run' := Take(h, s0, run', s1, Advance(id, 0));
    var stale := s1.hash.Keys - s.db[k].Keys;
    var s2 := s1.(tasks := s.tasks[id := Publishing(w, Prune(k, stale))]);
    assert Do(s1, Advance(id, 0)) == s2;
    run' := Take(h, s0, run', s2, Advance(id, 0));
    assert s1.hash - stale == s.db[k];
    assert s2.tasks[id := Publishing(w, SetVersion(k))] == s.tasks[id := Publishing(w, SetVersion(k))];
  }

  lemma EndPublish(h: Hypotheses, s0: State, run: seq<Label>, s: State, id: TaskId, w: WorkerId, k: nat, next: Version)
    returns (run': seq<Label>)
    requires Run(h, s0, run) == Some(s) && w in s.workers && next !in s.published
    requires id in s.tasks && s.tasks[id] == Publishing(w, SetVersion(k))
    ensures Run(h, s0, run') == Some(s.(ver := Some(next), published := s.published[next := k],
                                        workers := s.workers[w := s.workers[w].(version := Some(next))],
                                        tasks := s.tasks - {id}))
  {
    run' := Take(h, s0, run, s, Advance(id, next));
    var s1 := s.(ver := Some(next), published := s.published[next := k], tasks := s.tasks[id := Publishing(w, Record(k, next))]);
    run' := Take(h, s0, run', s1, Advance(id, 0));
    assert s1.tasks - {id} == s.tasks - {id};
  }

  /** A publish from start to finish, beside whatever other tasks are in flight. */
  lemma WholePublish(h: Hypotheses, s0: State, run: seq<Label>, s: State, id: TaskId, w: WorkerId, next: Version)
    returns (run': seq<Label>)
    requires Run(h, s0, run) == Some(s) && s.db != [] && s.db[|s.db| - 1] != map[] && next !in s.published
    requires Enabled(s, Start(id, Publishing(w, Reload))) && Respects(h, s, Start(id, Publishing(w, Reload)))
    ensures Run(h, s0, run') == Some(s.(hash := s.db[|s.db| - 1], ver := Some(next), published := s.published[next := |s.db| - 1],
                                        workers := s.workers[w := Worker(s.db[|s.db| - 1], Some(next))]))
  {
    var k := |s.db| - 1;
    run' := BeginPublish(h, s0, run, s, id, w);
    var s1 := s.(workers := s.workers[w := s.workers[w].(snapshot := s.db[k])], tasks := s.tasks[id := Publishing(w, WriteFields(k))]);
    run' := WriteHash(h, s0, run', s1, id, w, k);
    var s2 := s1.(hash := s.db[k], tasks := s1.tasks[id := Publishing(w, SetVersion(k))]);
    run' := EndPublish(h, s0, run', s2, id, w, k, next);
    assert s2.tasks - {id} == s.tasks;
    assert s2.workers[w := s2.workers[w].(version := Some(next))] == s.workers[w := Worker(s.db[k], Some(next))];
  }

  lemma Stale(s: State, w: WorkerId, before: Entries, after: Entries, v: Version)
    requires w in s.workers && s.workers[w] == Worker(before, Some(v)) && s.ver == Some(v) && Quiet(s)
    requires s.db == [before, after] && before != after && v in s.published && s.published[v] == 1
    ensures !Fresh(s)
  {
    assert !NoOlder(s, before, v);
  }

  /** A run that leaves worker 0 with a late untagged reload while the database moved on. */
  lemma LateReload(h: Hypotheses, s0: State, before: Entries, after: Entries) returns (run: seq<Label>, s: State)
    requires s0.db == [before] && s0.tasks == map[] && 0 in s0.workers
    ensures Run(h, s0, run) == Some(s)
    ensures s == s0.(db := [before, after], tasks := map[0 := Refreshing(0, HasRows(None, 0))])
  {
    run := FallBack(h, s0, [], s0, 0, 0);
    var s1 := s0.(tasks := s0.tasks[0 := Refreshing(0, HasRows(None, 0))]);
    run := Take(h, s0, run, s1, Commit(after));
    s := s1.(db := s1.db + [after]);
    assert s.db == [before, after];
  }

  /** Without the rule of one refresh at a time: rows read before a publish are installed,
      untagged, after another refresh of the same worker recorded the new version. */
  lemma OverlappingRefreshes(before: Entries, after: Entries) returns (run: seq<Label>)
    requires Changed(before, after)
    ensures var end := Run(ALL.(oneRefresh := false), Initial(before, {0, 1}), run); end.Some? && !Fresh(end.value)
  {
    var h, s0 := ALL.(oneRefresh := false), Initial(before, {0, 1});
    var s: State;
    run, s := LateReload(h, s0, before, after);
    run := WholePublish(h, s0, run, s, 1, 1, 7);
    s := s.(hash := after, ver := Some(7), published := s.published[7 := 1], workers := s.workers[1 := Worker(after, Some(7))]);
    run, s := OvertakenReload(h, s0, run, s, before, after);
  }

  lemma OvertakenReload(h: Hypotheses, s0: State, run: seq<Label>, s: State, before: Entries, after: Entries)
    returns (run': seq<Label>, s': State)
    requires !h.oneRefresh && Run(h, s0, run) == Some(s) && Changed(before, after)
    requires s.db == [before, after] && s.hash == after && s.ver == Some(7) && 7 in s.published && s.published[7] == 1
    requires s.tasks == map[0 := Refreshing(0, HasRows(None, 0))] && 0 in s.workers && s.workers[0].version == None
    ensures Run(h, s0, run') == Some(s') && !Fresh(s')
  {
    run' := ReadHash(h, s0, run, s, 2, 0);
    var s1 := s.(workers := s.workers[0 := Worker(after, Some(7))]);
    run' := Take(h, s0, run', s1, Advance(0, 0));
    s' := s1.(workers := s1.workers[0 := Worker(before, Some(7))], tasks := s1.tasks - {0});
    assert s'.tasks == map[];
    Stale(s', 0, before, after, 7);
  }

  /** Without an idle publisher: the publishing process's own refresh puts old rows back, and the
      publish then records the new version over them. */
  lemma RefreshWhilePublishing(before: Entries, after: Entries) returns (run: seq<Label>)
    requires Changed(before, after)
    ensures var end := Run(ALL.(idlePublisher := false), Initial(before, {0}), run); end.Some? && !Fresh(end.value)
  {
    var h, s0 := ALL.(idlePublisher := false), Initial(before, {0});
    var s: State;
    run, s := LateReload(h, s0, before, after);
    run := BeginPublish(h, s0, run, s, 1, 0);
    s := s.(workers := s.workers[0 := s.workers[0].(snapshot := after)], tasks := s.tasks[1 := Publishing(0, WriteFields(1))]);
    run := Take(h, s0, run, s, Advance(0, 0));
    s := s.(workers := s.workers[0 := Worker(before, None)], tasks := s.tasks - {0});
    run := WriteHash(h, s0, run, s, 1, 0, 1);
    s := s.(hash := after, tasks := s.tasks[1 := Publishing(0, SetVersion(1))]);
    run := EndPublish(h, s0, run, s, 1, 0, 1, 7);
    s := s.(ver := Some(7), published := s.published[7 := 1],
            workers := s.workers[0 := s.workers[0].(version := Some(7))], tasks := s.tasks - {1});
    Stale(s, 0, before, after, 7);
  }

  /** Without serial publishes: an older publish overwrites the hash of a newer one, whose
      version is nevertheless set last. */
  lemma OverlappingPublishes(before: Entries, after: Entries) returns (run: seq<Label>)
    requires Changed(before, after)
    ensures var end := Run(ALL.(serialPublish := false), Initial(before, {0, 1, 2}), run); end.Some? && !Fresh(end.value)
  {
    var h, s0 := ALL.(serialPublish := false), Initial(before, {0, 1, 2});
    var s: State;
    run, s := TwoWrites(before, after);
    run := EndPublish(h, s0, run, s, 1, 1, 1, 7);
    s := s.(ver := Some(7), published := s.published[7 := 1],
            workers := s.workers[1 := s.workers[1].(version := Some(7))], tasks := s.tasks - {1});
    assert s.tasks == map[];
    run := ReadHash(h, s0, run, s, 2, 2);
    Stale(s.(workers := s.workers[2 := Worker(before, Some(7))]), 2, before, after, 7);
  }

  lemma TwoWrites(before: Entries, after: Entries) returns (run: seq<Label>, s: State)
    requires Changed(before, after)
    ensures Run(ALL.(serialPublish := false), Initial(before, {0, 1, 2}), run) == Some(s)
    ensures s.tasks == map[1 := Publishing(1, SetVersion(1))] && s.hash == before && s.db == [before, after]
    ensures s.published == map[5 := 0] && 1 in s.workers && 2 in s.workers && s.workers[2].version == None
  {
    var h, s0 := ALL.(serialPublish := false), Initial(before, {0, 1, 2});
    run, s := TwoBegun(before, after);
    run := WriteHash(h, s0, run, s, 1, 1, 1);
    s := s.(hash := after, tasks := s.tasks[1 := Publishing(1, SetVersion(1))]);
    run := WriteHash(h, s0, run, s, 0, 0, 0);
    s := s.(hash := before, tasks := s.tasks[0 := Publishing(0, SetVersion(0))]);
    run := EndPublish(h, s0, run, s, 0, 0, 0, 5);
    s := s.(ver := Some(5), published := s.published[5 := 0],
            workers := s.workers[0 := s.workers[0].(version := Some(5))], tasks := s.tasks - {0});
    assert s.tasks == map[1 := Publishing(1, SetVersion(1))];
  }

  /** Two publishes about to write, of the old and of the new catalog. */
  lemma TwoBegun(before: Entries, after: Entries) returns (run: seq<Label>, s: State)
    requires Changed(before, after)
    ensures Run(ALL.(serialPublish := false), Initial(before, {0, 1, 2}), run) == Some(s)
    ensures s.tasks == map[0 := Publishing(0, WriteFields(0)), 1 := Publishing(1, WriteFields(1))] && s.db == [before, after]
    ensures s.published == map[] && s.workers.Keys == {0, 1, 2} && s.workers[2].version == None
  {
    var h, s0 := ALL.(serialPublish := false), Initial(before, {0, 1, 2});
    run := BeginPublish(h, s0, [], s0, 0, 0);
    s := s0.(workers := s0.workers[0 := s0.workers[0].(snapshot := before)], tasks := s0.tasks[0 := Publishing(0, WriteFields(0))]);
    run := Take(h, s0, run, s, Commit(after));
    s := s.(db := s.db + [after]);
    assert s.db == [before, after];
    run := BeginPublish(h, s0, run, s, 1, 1);
    s := s.(workers := s.workers[1 := s.workers[1].(snapshot := after)], tasks := s.tasks[1 := Publishing(1, WriteFields(1))]);
  }

  /** Without complete publishes: a publish that dies between writing and pruning leaves a
      mixture in the hash under the previous version. */
  lemma AbandonedPublish(before: Entries, after: Entries) returns (run: seq<Label>)
    requires before != map[] && after != map[] && !(before.Keys <= after.Keys) && !(after.Keys <= before.Keys)
    ensures var end := Run(ALL.(completePublish := false), Initial(before, {0, 1}), run); end.Some? && !Fresh(end.value)
  {
    var h, s0 := ALL.(completePublish := false), Initial(before, {0, 1});
    run := WholePublish(h, s0, [], s0, 0, 0, 5);
    var s := s0.(hash := before, ver := Some(5), published := s0.published[5 := 0], workers := s0.workers[0 := Worker(before, Some(5))]);
    run := Take(h, s0, run, s, Commit(after));
    s := s.(db := s.db + [after]);
    assert s.db == [before, after];
    run, s := HalfWritten(h, s0, run, s, before, after);
    Mixture(before, after);
    run := ReadHash(h, s0, run, s, 2, 1);
    Mixed(s.(workers := s.workers[1 := Worker(before + after, Some(5))]), 1, before, after, 5);
  }

  lemma Mixture(before: Entries, after: Entries)
    requires !(before.Keys <= after.Keys) && !(after.Keys <= before.Keys)
    ensures before + after !in {before, after, map[]}
  {
    var x, y :| x in before && x !in after && y in after && y !in before;
    assert x in before + after && y in before + after;
  }

  lemma Mixed(s: State, w: WorkerId, before: Entries, after: Entries, v: Version)
    requires w in s.workers && s.workers[w] == Worker(before + after, Some(v)) && s.ver == Some(v) && s.tasks == map[]
    requires s.db == [before, after] && before + after !in {before, after, map[]}
    ensures !Fresh(s)
  {
    assert !NoOlder(s, before + after, v);
  }

  lemma HalfWritten(h: Hypotheses, s0: State, run: seq<Label>, s: State, before: Entries, after: Entries)
    returns (run': seq<Label>, s': State)
    requires !h.completePublish && Run(h, s0, run) == Some(s) && after != map[]
    requires s.db == [before, after] && s.hash == before && s.tasks == map[] && 0 in s.workers
    ensures Run(h, s0, run') == Some(s')
    ensures s' == s.(hash := before + after, workers := s.workers[0 := s.workers[0].(snapshot := after)])
  {
    run' := BeginPublish(h, s0, run, s, 1, 0);
    var s1 := s.(workers := s.workers[0 := s.workers[0].(snapshot := after)], tasks := s.tasks[1 := Publishing(0, WriteFields(1))]);
    run' := Take(h, s0, run', s1, Advance(1, 0));
    var s2 := s1.(hash := before + after, tasks := s1.tasks[1 := Publishing(0, ListFields(1))]);
    run' := Take(h, s0, run', s2, Fail(1));
    s' := s2.(tasks := s2.tasks - {1});
    assert s'.tasks == map[];
  }

  // ---- all four, and no fewer ----

  /** `h` asks for nothing that `g` does not ask for. */
  predicate Within(h: Hypotheses, g: Hypotheses)
  {
    && (h.serialPublish ==> g.serialPublish) && (h.completePublish ==> g.completePublish)
    && (h.idlePublisher ==> g.idlePublisher) && (h.oneRefresh ==> g.oneRefresh)
  }

  /** A run stays possible when hypotheses are dropped. */
  lemma {:induction false} StillPossible(h: Hypotheses, g: Hypotheses, s: State, run: seq<Label>)
    requires Within(h, g) && Run(g, s, run).Some?
    ensures Run(h, s, run) == Run(g, s, run)
    decreases |run|
  {
    if run != [] {
      StillPossible(h, g, s, run[..|run| - 1]);
    }
  }

  ghost predicate AlwaysFresh(h: Hypotheses)
  {
    forall rows, workers, run :: Run(h, Initial(rows, workers), run).Some? ==> Fresh(Run(h, Initial(rows, workers), run).value)
  }

  lemma NotAlwaysFresh(h: Hypotheses, g: Hypotheses, rows: Entries, workers: set<WorkerId>, run: seq<Label>)
    requires Within(h, g)
    requires var end := Run(g, Initial(rows, workers), run); end.Some? && !Fresh(end.value)
    ensures !AlwaysFresh(h)
  {
    StillPossible(h, g, Initial(rows, workers), run);
    assert Run(h, Initial(rows, workers), run).Some?;
  }

  /** Every run of every deployment is fresh if and only if all four hypotheses are guaranteed. */
  lemma FreshExactly(h: Hypotheses)
    ensures AlwaysFresh(h) <==> h == ALL
  {
    var before, after: Entries := map["a" := "1"], map["b" := "2"];
    assert "a" in before && "b" in after;
    if h == ALL {
      forall rows, workers, run | Run(h, Initial(rows, workers), run).Some?
        ensures Fresh(Run(h, Initial(rows, workers), run).value)
      {
        CatalogFreshness(rows, workers, run);
      }
    } else if !h.oneRefresh {
      var run := OverlappingRefreshes(before, after);
      NotAlwaysFresh(h, ALL.(oneRefresh := false), before, {0, 1}, run);
    } else if !h.idlePublisher {
      var run := RefreshWhilePublishing(before, after);
      NotAlwaysFresh(h, ALL.(idlePublisher := false), before, {0}, run);
    } else if !h.serialPublish {
      var run := OverlappingPublishes(before, after);
      NotAlwaysFresh(h, ALL.(serialPublish := false), before, {0, 1, 2}, run);
    } else {
      var run := AbandonedPublish(before, after);
      NotAlwaysFresh(h, ALL.(completePublish := false), before, {0, 1}, run);
    }
  }
}
