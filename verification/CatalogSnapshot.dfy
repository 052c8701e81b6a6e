/** The model-catalog snapshot protocol: every worker process keeps a snapshot and the
    version it was taken at; publishers rewrite a shared hash and then set a fresh version.

    One step is one command executed by Redis or the database, or one stretch of a task
    between two awaits, so commands and the tasks waiting for them interleave freely. */
module CatalogSnapshot {
  import opened Basics

  type Entries = map<string, string>
  type Version = nat
  type WorkerId = nat
  type TaskId = nat

  datatype Worker = Worker(snapshot: Entries, version: Option<Version>)

  /** `ensure_fresh`, by what it is about to do or has been answered. Rows read from the
      database are named by their position in the list of committed states; `fallback` is the
      read that follows a failure. */
  datatype Refresh =
    | AskVersion
    | HasVersion(found: Option<Version>)
    | AskEntries(ver: Version)
    | HasEntries(ver: Version, raw: Entries)
    | AskRows(tag: Option<Version>, fallback: bool)
    | HasRows(tag: Option<Version>, row: nat)

  /** `publish`, likewise; `k` is the database state being published. */
  datatype Publish =
    | Reload
    | Install(k: nat)
    | WriteFields(k: nat)
    | ClearFields(k: nat)
    | ListFields(k: nat)
    | Prune(k: nat, stale: set<string>)
    | SetVersion(k: nat)
    | Record(k: nat, ver: Version)

  datatype Task = Refreshing(worker: WorkerId, phase: Refresh) | Publishing(worker: WorkerId, step: Publish)

  /** `db` lists every committed database state; `published` says which one each version published. */
  datatype State = State(
    db: seq<Entries>,
    hash: Entries,
    ver: Option<Version>,
    published: map<Version, nat>,
    workers: map<WorkerId, Worker>,
    tasks: map<TaskId, Task>)

  datatype Label =
    | Commit(rows: Entries)
    | Start(id: TaskId, task: Task)
    | Advance(id: TaskId, next: Version)
    | Fail(id: TaskId)
    | Cancel(id: TaskId)
    | LoseVersion
    | LoseEntries

  // ---- steps ----

  function AdvanceRefresh(s: State, id: TaskId, w: WorkerId, r: Refresh): State
    requires w in s.workers
  {
    match r
    case AskVersion => s.(tasks := s.tasks[id := Refreshing(w, HasVersion(s.ver))])
    case HasVersion(None) => s.(tasks := s.tasks[id := Refreshing(w, AskRows(None, false))])
    case HasVersion(Some(v)) =>
      if s.workers[w].version == Some(v) then s.(tasks := s.tasks - {id})
      else s.(tasks := s.tasks[id := Refreshing(w, AskEntries(v))])
    case AskEntries(v) => s.(tasks := s.tasks[id := Refreshing(w, HasEntries(v, s.hash))])
    case HasEntries(v, raw) =>
      if raw == map[] then s.(tasks := s.tasks[id := Refreshing(w, AskRows(Some(v), false))])
      else s.(workers := s.workers[w := Worker(raw, Some(v))], tasks := s.tasks - {id})
    case AskRows(tag, _) =>
      if s.db == [] then s else s.(tasks := s.tasks[id := Refreshing(w, HasRows(tag, |s.db| - 1))])
    case HasRows(tag, j) =>
      if j >= |s.db| then s
      else
        var v := if tag.Some? then tag else s.workers[w].version;
        s.(workers := s.workers[w := Worker(s.db[j], v)], tasks := s.tasks - {id})
  }

  function AdvancePublish(s: State, id: TaskId, w: WorkerId, p: Publish, next: Version): State
    requires w in s.workers
  {
    match p
    case Reload => if s.db == [] then s else s.(tasks := s.tasks[id := Publishing(w, Install(|s.db| - 1))])
    case Install(k) =>
      if k >= |s.db| then s
      else
        s.(workers := s.workers[w := s.workers[w].(snapshot := s.db[k])],
           tasks := s.tasks[id := Publishing(w, if s.db[k] == map[] then ClearFields(k) else WriteFields(k))])
    case WriteFields(k) =>
      if k >= |s.db| then s
      else s.(hash := s.hash + s.db[k], tasks := s.tasks[id := Publishing(w, ListFields(k))])
    case ClearFields(k) => s.(hash := map[], tasks := s.tasks[id := Publishing(w, SetVersion(k))])
    case ListFields(k) =>
      if k >= |s.db| then s
      else s.(tasks := s.tasks[id := Publishing(w, Prune(k, s.hash.Keys - s.db[k].Keys))])
    case Prune(k, stale) => s.(hash := s.hash - stale, tasks := s.tasks[id := Publishing(w, SetVersion(k))])
    case SetVersion(k) =>
      s.(ver := Some(next), published := s.published[next := k], tasks := s.tasks[id := Publishing(w, Record(k, next))])
    case Record(_, v) =>
      s.(workers := s.workers[w := s.workers[w].(version := Some(v))], tasks := s.tasks - {id})
  }

  /** A failed Redis command, or a failed reload outside the fallback, sends a refresh to the database once more;
      a failed fallback ends it with the old snapshot; a publish that fails just stops. */
  function FailTask(s: State, id: TaskId): State
    requires id in s.tasks
  {
    match s.tasks[id]
    case Refreshing(w, AskVersion) => s.(tasks := s.tasks[id := Refreshing(w, AskRows(None, true))])
    case Refreshing(w, AskEntries(_)) => s.(tasks := s.tasks[id := Refreshing(w, AskRows(None, true))])
    case Refreshing(w, HasEntries(_, _)) => s.(tasks := s.tasks[id := Refreshing(w, AskRows(None, true))])
    case Refreshing(w, AskRows(_, fallback)) =>
      if fallback then s.(tasks := s.tasks - {id}) else s.(tasks := s.tasks[id := Refreshing(w, AskRows(None, true))])
    case Refreshing(_, _) => s
    case Publishing(_, _) => s.(tasks := s.tasks - {id})
  }

  predicate Enabled(s: State, l: Label)
  {
    match l
    case Commit(_) => true
    case Start(id, t) =>
      id !in s.tasks && t.worker in s.workers && (t == Refreshing(t.worker, AskVersion) || t == Publishing(t.worker, Reload))
    case Advance(id, next) =>
      && id in s.tasks && s.tasks[id].worker in s.workers
      && (s.tasks[id].Publishing? && s.tasks[id].step.SetVersion? ==> next !in s.published)
    case Fail(id) => id in s.tasks
    case Cancel(id) => id in s.tasks
    case LoseVersion => true
    case LoseEntries => true
  }

  function Do(s: State, l: Label): State
    requires Enabled(s, l)
  {
    match l
    case Commit(rows) => s.(db := s.db + [rows])
    case Start(id, t) => s.(tasks := s.tasks[id := t])
    case Advance(id, next) =>
      (match s.tasks[id]
       case Refreshing(w, r) => AdvanceRefresh(s, id, w, r)
       case Publishing(w, p) => AdvancePublish(s, id, w, p, next))
    case Fail(id) => FailTask(s, id)
    case Cancel(id) => s.(tasks := s.tasks - {id})
    case LoseVersion => s.(ver := None)
    case LoseEntries => s.(hash := map[])
  }

  // ---- what the deployment must guarantee ----

  datatype Hypotheses = Hypotheses(serialPublish: bool, completePublish: bool, idlePublisher: bool, oneRefresh: bool)

  const ALL := Hypotheses(true, true, true, true)

  /** A publish that has begun to touch Redis and has not yet set its version. */
  predicate Writing(t: Task)
  {
    t.Publishing? && (t.step.ListFields? || t.step.Prune? || t.step.SetVersion?)
  }

  /** `h` holds of taking step `l` in `s`: publishes do not overlap; a publish does not stop between
      its first write to Redis and its version; a worker does not refresh while it publishes; and a
      worker runs one refresh at a time. */
  predicate Respects(h: Hypotheses, s: State, l: Label)
  {
    match l
    case Start(_, t) =>
      && (h.serialPublish && t.Publishing? ==> forall x | x in s.tasks :: !s.tasks[x].Publishing?)
      && (h.idlePublisher ==> forall x | x in s.tasks && s.tasks[x].worker == t.worker :: s.tasks[x].Publishing? == t.Publishing?)
      && (h.oneRefresh && t.Refreshing? ==> forall x | x in s.tasks && s.tasks[x].worker == t.worker :: !s.tasks[x].Refreshing?)
    case Fail(id) => h.completePublish && id in s.tasks ==> !Writing(s.tasks[id])
    case Cancel(id) => h.completePublish && id in s.tasks ==> !Writing(s.tasks[id])
    case _ => true
  }

  /** The state after a run every step of which is enabled and respects `h`. */
  function Run(h: Hypotheses, s: State, run: seq<Label>): Option<State>
  {
    if run == [] then Some(s)
    else
      var before := Run(h, s, run[..|run| - 1]);
      var l := run[|run| - 1];
      if before.Some? && Enabled(before.value, l) && Respects(h, before.value, l) then Some(Do(before.value, l)) else None
  }

  function Initial(rows: Entries, workers: set<WorkerId>): State
  {
    State([rows], map[], None, map[], map w | w in workers :: Worker(map[], None), map[])
  }

  // ---- the safety property ----

  ghost predicate Quiet(s: State)
  {
    forall x | x in s.tasks :: !Writing(s.tasks[x])
  }

  /** The entries are some database state no older than the one version `v` published. */
  ghost predicate NoOlder(s: State, e: Entries, v: Version)
  {
    v in s.published && exists j | s.published[v] <= j < |s.db| :: e == s.db[j]
  }

  /** With no publish half-written, a worker whose recorded version is the current one serves
      entries no older than that version published. */
  ghost predicate Fresh(s: State)
  {
    Quiet(s) && s.ver.Some? ==>
      forall w | w in s.workers && s.workers[w].version == s.ver :: NoOlder(s, s.workers[w].snapshot, s.ver.value)
  }

  // ---- the invariant ----

  ghost predicate VersionsKnown(s: State)
  {
    && s.db != []
    && (forall v | v in s.published :: s.published[v] < |s.db|)
    && (s.ver.Some? ==> s.ver.value in s.published)
    && (forall w | w in s.workers :: s.workers[w].version.Some? ==> s.workers[w].version.value in s.published)
  }

  ghost predicate Exclusive(s: State)
  {
    && (forall x | x in s.tasks :: s.tasks[x].worker in s.workers)
    && (forall x, y | x in s.tasks && y in s.tasks && x != y :: s.tasks[x].worker != s.tasks[y].worker)
    && (forall x, y | x in s.tasks && y in s.tasks && s.tasks[x].Publishing? && s.tasks[y].Publishing? :: x == y)
  }

  ghost predicate HashCurrent(s: State)
  {
    Quiet(s) && s.ver.Some? && s.ver.value in s.published && s.published[s.ver.value] < |s.db| ==>
      s.hash == map[] || s.hash == s.db[s.published[s.ver.value]]
  }

  ghost predicate Latest(s: State, k: nat)
  {
    k < |s.db| && forall v | v in s.published :: s.published[v] <= k
  }

  ghost predicate RefreshOk(s: State, w: WorkerId, r: Refresh)
    requires w in s.workers
  {
    match r
    case AskVersion => true
    case HasVersion(found) => found.Some? ==> found.value in s.published
    case AskEntries(v) => v in s.published
    case HasEntries(v, raw) =>
      && v in s.published && s.published[v] < |s.db|
      && (Quiet(s) && s.ver == Some(v) ==> raw == map[] || raw == s.db[s.published[v]])
    case AskRows(tag, _) => tag.Some? ==> tag.value in s.published
    case HasRows(tag, j) =>
      && j < |s.db|
      && (tag.Some? ==> tag.value in s.published && s.published[tag.value] <= j)
      && (var u := s.workers[w].version; u.Some? ==> u.value in s.published && s.published[u.value] <= j)
  }

  ghost predicate PublishOk(s: State, w: WorkerId, p: Publish)
    requires w in s.workers
  {
    match p
    case Reload => true
    case Install(k) => Latest(s, k)
    case WriteFields(k) => Latest(s, k) && s.workers[w].snapshot == s.db[k]
    case ClearFields(k) => Latest(s, k) && s.workers[w].snapshot == s.db[k] == map[]
    case ListFields(k) =>
      && Latest(s, k) && s.workers[w].snapshot == s.db[k]
      && (s.hash == map[] || (s.db[k].Keys <= s.hash.Keys && forall x | x in s.db[k] :: s.hash[x] == s.db[k][x]))
    case Prune(k, stale) =>
      && Latest(s, k) && s.workers[w].snapshot == s.db[k]
      && (s.hash == map[] || s.hash - stale == s.db[k])
    case SetVersion(k) => Latest(s, k) && s.workers[w].snapshot == s.db[k] && (s.hash == map[] || s.hash == s.db[k])
    case Record(k, v) =>
      && Latest(s, k) && v in s.published && s.published[v] == k
      && s.workers[w].snapshot == s.db[k]
  }

  ghost predicate TaskOk(s: State, t: Task)
    requires t.worker in s.workers
  {
    match t
    case Refreshing(w, r) => RefreshOk(s, w, r)
    case Publishing(w, p) => PublishOk(s, w, p)
  }

  ghost predicate Inv(s: State)
  {
    && VersionsKnown(s) && Exclusive(s) && HashCurrent(s) && Fresh(s)
    && forall x | x in s.tasks :: TaskOk(s, s.tasks[x])
  }

  /** `s'` differs from `s` at most in newer database states, in task `id`, and in the worker `w`
      that runs it; nothing about Redis changed and no write began or ended. */
  ghost predicate OnlyTask(s: State, s': State, id: TaskId, w: WorkerId)
  {
    && s.db <= s'.db && s'.published == s.published && s'.ver == s.ver && s'.hash == s.hash
    && s'.workers.Keys == s.workers.Keys
    && (forall u | u in s.workers && u != w :: s'.workers[u] == s.workers[u])
    && (forall x | x in s'.tasks && x != id :: x in s.tasks && s'.tasks[x] == s.tasks[x])
    && (Quiet(s') ==> Quiet(s))
  }

  lemma OthersKept(s: State, s': State, id: TaskId, w: WorkerId)
    requires Inv(s) && OnlyTask(s, s', id, w)
    requires id in s.tasks ==> s.tasks[id].worker == w
    requires forall x | x in s.tasks && x != id :: s.tasks[x].worker != w
    ensures forall x | x in s'.tasks && x != id :: s'.tasks[x].worker in s'.workers && TaskOk(s', s'.tasks[x])
  {
    forall x | x in s'.tasks && x != id
      ensures s'.tasks[x].worker in s'.workers && TaskOk(s', s'.tasks[x])
    {
      assert TaskOk(s, s.tasks[x]);
    }
  }

  lemma NoOlderKept(s: State, s': State, e: Entries, v: Version)
    requires NoOlder(s, e, v) && s.db <= s'.db && v in s'.published && s'.published[v] == s.published[v]
    ensures NoOlder(s', e, v)
  {
    var j :| s.published[v] <= j < |s.db| && e == s.db[j];
    assert s'.db[j] == s.db[j];
  }

  lemma FreshKept(s: State, s': State, id: TaskId, w: WorkerId)
    requires Inv(s) && OnlyTask(s, s', id, w)
    requires w in s'.workers && s'.workers[w] != s.workers[w] && s'.ver.Some? && s'.workers[w].version == s'.ver && Quiet(s') ==>
      NoOlder(s', s'.workers[w].snapshot, s'.ver.value)
    ensures Fresh(s') && HashCurrent(s')
  {
    if Quiet(s') && s'.ver.Some? {
      forall u | u in s'.workers && s'.workers[u].version == s'.ver
        ensures NoOlder(s', s'.workers[u].snapshot, s'.ver.value)
      {
        if s'.workers[u] == s.workers[u] {
          NoOlderKept(s, s', s.workers[u].snapshot, s.ver.value);
        }
      }
    }
  }

  lemma CommitPreserves(s: State, rows: Entries)
    requires Inv(s)
    ensures Inv(s.(db := s.db + [rows]))
  {
    var s' := s.(db := s.db + [rows]);
    forall x | x in s'.tasks ensures TaskOk(s', s'.tasks[x]) {
      assert TaskOk(s, s.tasks[x]);
    }
    if Quiet(s') && s'.ver.Some? {
      assert Quiet(s);
      forall u | u in s'.workers && s'.workers[u].version == s'.ver
        ensures NoOlder(s', s'.workers[u].snapshot, s'.ver.value)
      {
        NoOlderKept(s, s', s.workers[u].snapshot, s.ver.value);
      }
    }
  }

  /** The general step: one task moves on, touching at most its own worker. */
  lemma TaskStep(s: State, s': State, id: TaskId, w: WorkerId)
    requires Inv(s) && OnlyTask(s, s', id, w) && w in s.workers
    requires id in s.tasks ==> s.tasks[id].worker == w && (s'.tasks.Keys - {id} == s.tasks.Keys - {id})
    requires forall x | x in s.tasks && x != id :: s.tasks[x].worker != w
    requires id in s'.tasks ==>
      && s'.tasks[id].worker == w && TaskOk(s', s'.tasks[id])
      && (s'.tasks[id].Publishing? ==> forall x | x in s.tasks && x != id :: !s.tasks[x].Publishing?)
    requires var u := s'.workers[w].version; u.Some? ==> u.value in s'.published
    requires s'.workers[w] != s.workers[w] && s'.ver.Some? && s'.workers[w].version == s'.ver && Quiet(s') ==>
      NoOlder(s', s'.workers[w].snapshot, s'.ver.value)
    ensures Inv(s')
  {
    OthersKept(s, s', id, w);
    FreshKept(s, s', id, w);
  }

  /** A task changes phase without touching anything else. */
  lemma PhaseChange(s: State, id: TaskId, t: Task)
    requires Inv(s) && id in s.tasks && t.worker == s.tasks[id].worker
    requires t.Publishing? == s.tasks[id].Publishing? && Writing(t) == Writing(s.tasks[id])
    requires TaskOk(s, t)
    ensures Inv(s.(tasks := s.tasks[id := t]))
  {
    var s' := s.(tasks := s.tasks[id := t]);
    assert Quiet(s') ==> Quiet(s) by {
      if Quiet(s') {
        forall x | x in s.tasks ensures !Writing(s.tasks[x]) {
          assert !Writing(s'.tasks[x]);
        }
      }
    }
    TaskStep(s, s', id, t.worker);
  }

  lemma TaskEnds(s: State, id: TaskId)
    requires Inv(s) && id in s.tasks && !Writing(s.tasks[id])
    ensures Inv(s.(tasks := s.tasks - {id}))
  {
    var s' := s.(tasks := s.tasks - {id});
    assert Quiet(s') ==> Quiet(s) by {
      if Quiet(s') {
        forall x | x in s.tasks ensures !Writing(s.tasks[x]) {
          assert x != id ==> !Writing(s'.tasks[x]);
        }
      }
    }
    TaskStep(s, s', id, s.tasks[id].worker);
  }

  lemma StartPreserves(s: State, id: TaskId, t: Task)
    requires Inv(s) && Enabled(s, Start(id, t)) && Respects(ALL, s, Start(id, t))
    ensures Inv(Do(s, Start(id, t)))
  {
    var s' := Do(s, Start(id, t));
    assert Quiet(s') ==> Quiet(s) by {
      if Quiet(s') {
        forall x | x in s.tasks ensures !Writing(s.tasks[x]) {
          assert !Writing(s'.tasks[x]);
        }
      }
    }
    TaskStep(s, s', id, t.worker);
  }

  lemma FailPreserves(s: State, id: TaskId)
    requires Inv(s) && id in s.tasks && Respects(ALL, s, Fail(id))
    ensures Inv(FailTask(s, id))
  {
    match s.tasks[id]
    case Refreshing(w, AskRows(_, true)) => TaskEnds(s, id);
    case Refreshing(w, _) => PhaseChange(s, id, Refreshing(w, AskRows(None, true)));
    case Publishing(_, _) => TaskEnds(s, id);
  }

  /** Redis loses the version, or the entries, at any time. */
  lemma LossPreserves(s: State, hash: Entries, ver: Option<Version>)
    requires Inv(s) && (hash == s.hash || hash == map[]) && (ver == s.ver || ver == None)
    ensures Inv(s.(hash := hash, ver := ver))
  {
    var s' := s.(hash := hash, ver := ver);
    assert Quiet(s') <==> Quiet(s);
    forall x | x in s'.tasks ensures TaskOk(s', s'.tasks[x]) {
      assert TaskOk(s, s.tasks[x]);
    }
    if Quiet(s') && ver.Some? {
      forall w | w in s'.workers && s'.workers[w].version == ver ensures NoOlder(s', s'.workers[w].snapshot, ver.value) {
        assert NoOlder(s, s.workers[w].snapshot, s.ver.value);
      }
    }
  }

  lemma InstallPreserves(s: State, id: TaskId, new': Worker)
    requires Inv(s) && id in s.tasks && s.tasks[id].Refreshing?
    requires new'.version.Some? ==> new'.version.value in s.published
    requires s.ver.Some? && new'.version == s.ver && Quiet(s) ==> NoOlder(s, new'.snapshot, s.ver.value)
    ensures Inv(s.(workers := s.workers[s.tasks[id].worker := new'], tasks := s.tasks - {id}))
  {
    var w := s.tasks[id].worker;
    var s' := s.(workers := s.workers[w := new'], tasks := s.tasks - {id});
    assert Quiet(s') ==> Quiet(s) by {
      if Quiet(s') {
        forall x | x in s.tasks ensures !Writing(s.tasks[x]) {
          assert x != id ==> !Writing(s'.tasks[x]);
        }
      }
    }
    if s.ver.Some? && new'.version == s.ver && Quiet(s') {
      NoOlderKept(s, s', new'.snapshot, s.ver.value);
    }
    TaskStep(s, s', id, w);
  }

  lemma RefreshPreserves(s: State, id: TaskId)
    requires Inv(s) && id in s.tasks && s.tasks[id].Refreshing?
    ensures Inv(AdvanceRefresh(s, id, s.tasks[id].worker, s.tasks[id].phase))
  {
    var w, r := s.tasks[id].worker, s.tasks[id].phase;
    assert TaskOk(s, s.tasks[id]);
    match r
    case AskVersion => PhaseChange(s, id, Refreshing(w, HasVersion(s.ver)));
    case HasVersion(None) => PhaseChange(s, id, Refreshing(w, AskRows(None, false)));
    case HasVersion(Some(v)) =>
      if s.workers[w].version == Some(v) {
        TaskEnds(s, id);
      } else {
        PhaseChange(s, id, Refreshing(w, AskEntries(v)));
      }
    case AskEntries(v) => PhaseChange(s, id, Refreshing(w, HasEntries(v, s.hash)));
    case HasEntries(v, raw) =>
      if raw == map[] {
        PhaseChange(s, id, Refreshing(w, AskRows(Some(v), false)));
      } else {
        if s.ver == Some(v) && Quiet(s) {
          assert raw == s.db[s.published[v]] && NoOlder(s, raw, v);
        }
        InstallPreserves(s, id, Worker(raw, Some(v)));
      }
    case AskRows(tag, _) => PhaseChange(s, id, Refreshing(w, HasRows(tag, |s.db| - 1)));
    case HasRows(tag, j) =>
      var v := if tag.Some? then tag else s.workers[w].version;
      if v.Some? {
        assert NoOlder(s, s.db[j], v.value);
      }
      InstallPreserves(s, id, Worker(s.db[j], v));
  }

  lemma OnlyPublisher(s: State, id: TaskId)
    requires Inv(s) && id in s.tasks && s.tasks[id].Publishing?
    ensures forall x | x in s.tasks && x != id :: s.tasks[x].Refreshing?
    ensures Quiet(s) <==> !Writing(s.tasks[id])
  {
  }

  /** While a publish writes, nothing is claimed of readers, so only its own facts matter. */
  lemma WriteStep(s: State, id: TaskId, hash: Entries, p: Publish)
    requires Inv(s) && id in s.tasks && s.tasks[id].Publishing?
    requires p.ListFields? || p.Prune? || p.SetVersion?
    requires PublishOk(s.(hash := hash), s.tasks[id].worker, p)
    ensures Inv(s.(hash := hash, tasks := s.tasks[id := Publishing(s.tasks[id].worker, p)]))
  {
    var w := s.tasks[id].worker;
    var s' := s.(hash := hash, tasks := s.tasks[id := Publishing(w, p)]);
    OnlyPublisher(s, id);
    assert Writing(s'.tasks[id]) && !Quiet(s');
    forall x | x in s'.tasks ensures TaskOk(s', s'.tasks[x]) {
      if x != id {
        assert TaskOk(s, s.tasks[x]);
      }
    }
  }

  lemma PublisherInstalls(s: State, id: TaskId, k: nat)
    requires Inv(s) && id in s.tasks && s.tasks[id] == Publishing(s.tasks[id].worker, Install(k))
    ensures Inv(AdvancePublish(s, id, s.tasks[id].worker, Install(k), 0))
  {
    var w := s.tasks[id].worker;
    assert TaskOk(s, s.tasks[id]);
    OnlyPublisher(s, id);
    var s' := AdvancePublish(s, id, w, Install(k), 0);
    if s'.ver.Some? {
      assert s'.workers[w].snapshot == s'.db[k] && s'.published[s'.ver.value] <= k;
      assert NoOlder(s', s'.workers[w].snapshot, s'.ver.value);
    }
    TaskStep(s, s', id, w);
  }

  /** Setting the version ends the write: every older version is now out of date, and
      nobody can have read the new one yet. */
  lemma VersionSet(s: State, id: TaskId, k: nat, next: Version)
    requires Inv(s) && id in s.tasks && s.tasks[id] == Publishing(s.tasks[id].worker, SetVersion(k)) && next !in s.published
    ensures Inv(AdvancePublish(s, id, s.tasks[id].worker, SetVersion(k), next))
  {
    var w := s.tasks[id].worker;
    assert TaskOk(s, s.tasks[id]);
    OnlyPublisher(s, id);
    var s' := AdvancePublish(s, id, w, SetVersion(k), next);
    forall x | x in s'.tasks ensures TaskOk(s', s'.tasks[x]) {
      if x != id {
        assert TaskOk(s, s.tasks[x]);
      }
    }
  }

  lemma PublisherRecords(s: State, id: TaskId, k: nat, v: Version)
    requires Inv(s) && id in s.tasks && s.tasks[id] == Publishing(s.tasks[id].worker, Record(k, v))
    ensures Inv(AdvancePublish(s, id, s.tasks[id].worker, Record(k, v), 0))
  {
    var w := s.tasks[id].worker;
    assert TaskOk(s, s.tasks[id]);
    OnlyPublisher(s, id);
    var s' := AdvancePublish(s, id, w, Record(k, v), 0);
    assert s'.workers[w].snapshot == s'.db[k];
    assert NoOlder(s', s'.workers[w].snapshot, v);
    TaskStep(s, s', id, w);
  }

  lemma PublishPreserves(s: State, id: TaskId, next: Version)
    requires Inv(s) && Enabled(s, Advance(id, next)) && s.tasks[id].Publishing?
    ensures Inv(Do(s, Advance(id, next)))
  {
    var w := s.tasks[id].worker;
    assert TaskOk(s, s.tasks[id]);
    match s.tasks[id].step
    case Reload => PhaseChange(s, id, Publishing(w, Install(|s.db| - 1)));
    case Install(k) => PublisherInstalls(s, id, k);
    case WriteFields(k) => WriteStep(s, id, s.hash + s.db[k], ListFields(k));
    case ClearFields(k) => WriteStep(s, id, map[], SetVersion(k));
    case ListFields(k) =>
      assert s.hash != map[] ==> s.hash - (s.hash.Keys - s.db[k].Keys) == s.db[k];
      WriteStep(s, id, s.hash, Prune(k, s.hash.Keys - s.db[k].Keys));
    case Prune(k, stale) => WriteStep(s, id, s.hash - stale, SetVersion(k));
    case SetVersion(k) => VersionSet(s, id, k, next);
    case Record(k, v) => PublisherRecords(s, id, k, v);
  }

  lemma StepPreserves(s: State, l: Label)
    requires Inv(s) && Enabled(s, l) && Respects(ALL, s, l)
    ensures Inv(Do(s, l))
  {
    match l
    case Commit(rows) => CommitPreserves(s, rows);
    case Start(id, t) => StartPreserves(s, id, t);
    case Fail(id) => FailPreserves(s, id);
    case Cancel(id) => TaskEnds(s, id);
    case LoseVersion => LossPreserves(s, s.hash, None);
    case LoseEntries => LossPreserves(s, map[], s.ver);
    case Advance(id, next) =>
      if s.tasks[id].Refreshing? {
        RefreshPreserves(s, id);
      } else {
        PublishPreserves(s, id, next);
      }
  }

  /** Over every interleaving of commits, refreshes and publishes of any number of workers,
      a worker at the current version is never behind the state that version published. */
  lemma {:induction false} CatalogFreshness(rows: Entries, workers: set<WorkerId>, run: seq<Label>)
    requires Run(ALL, Initial(rows, workers), run).Some?
    ensures Inv(Run(ALL, Initial(rows, workers), run).value)
    ensures Fresh(Run(ALL, Initial(rows, workers), run).value)
    decreases |run|
  {
    if run != [] {
      var init := run[..|run| - 1];
      CatalogFreshness(rows, workers, init);
      StepPreserves(Run(ALL, Initial(rows, workers), init).value, run[|run| - 1]);
    }
  }
}
