/**
  * Which catalog models are on offer: rows driven by scans, throttled probes, delistings and
  * administrators' edits, and what a row says about the whole history of its model.
  */
module Availability {
  import opened Basics

  datatype Status = Live | NotFound | Gone | TimedOut | Faulty | Delisted

  /** What one probe came to. */
  datatype Probe = Code(status: int) | Timeout | Failure

  datatype Row = Row(status: Status, failCount: nat, enabled: bool, lastLiveAt: Option<real>)

  datatype Event =
    | Scanned(id: string, probe: Probe, status: Status)  // the status written to the row
    | Dropped(id: string)                                // marked delisted
    | Switched(id: string, on: bool)

  type History = seq<Event>

  // ---- rows ----

  predicate Transient(status: Status)
  {
    status == TimedOut || status == Faulty
  }

  predicate Available(row: Row)
  {
    row.enabled && (row.status == Live || (Transient(row.status) && row.failCount <= 1 && row.lastLiveAt.Some?))
  }

  /** The status a probe asks for; `None` keeps the prior one. */
  function ProbeStatus(probe: Probe): Option<Status>
  {
    match probe
    case Timeout => Some(TimedOut)
    case Failure => Some(Faulty)
    case Code(c) =>
      if c == 200 then Some(Live)
      else if c == 404 then Some(NotFound)
      else if c == 410 then Some(Gone)
      else if c == 429 then None
      else Some(Faulty)
  }

  // ---- history ----

  /** Results other than live recorded since the last live one, among the first `n` events. */
  function Fails(h: History, n: nat, id: string): nat
    requires n <= |h|
  {
    if n == 0 then 0
    else if h[n - 1].Scanned? && h[n - 1].id == id then
      if h[n - 1].status == Live then 0 else Fails(h, n - 1, id) + 1
    else Fails(h, n - 1, id)
  }

  /** The last status recorded, by a scan or by a delisting. */
  function Latest(h: History, n: nat, id: string): Option<Status>
    requires n <= |h|
  {
    if n == 0 then None
    else if h[n - 1].Scanned? && h[n - 1].id == id then Some(h[n - 1].status)
    else if h[n - 1] == Dropped(id) then Some(Delisted)
    else Latest(h, n - 1, id)
  }

  /** The last thing an administrator chose, or else the choice made on first sight. */
  function On(h: History, n: nat, id: string, seeded: bool): bool
    requires n <= |h|
  {
    if n == 0 then seeded
    else if h[n - 1].Switched? && h[n - 1].id == id then h[n - 1].on
    else On(h, n - 1, id, seeded)
  }

  /** Some scan among the first `n` events recorded the model as live. */
  ghost predicate EverLive(h: History, n: nat, id: string)
    requires n <= |h|
  {
    exists i | 0 <= i < n :: RecordedLive(h[i], id)
  }

  predicate RecordedLive(e: Event, id: string)
  {
    e.Scanned? && e.id == id && e.status == Live
  }

  predicate Answered(e: Event, id: string)
  {
    e.Scanned? && e.id == id && e.probe == Code(200)
  }

  /** Some probe among the first `n` events returned 200. */
  ghost predicate EverAnswered(h: History, n: nat, id: string)
    requires n <= |h|
  {
    exists i | 0 <= i < n :: Answered(h[i], id)
  }

  /** A row agrees with its model's history. */
  ghost predicate Agrees(h: History, id: string, row: Row, seeded: bool)
  {
    && row.failCount == Fails(h, |h|, id)
    && Latest(h, |h|, id) == Some(row.status)
    && row.enabled == On(h, |h|, id, seeded)
    && (row.lastLiveAt.Some? <==> EverLive(h, |h|, id))
    && (EverLive(h, |h|, id) ==> EverAnswered(h, |h|, id))
  }

  /** Nothing has happened to the model yet. */
  ghost predicate Unseen(h: History, id: string)
  {
    forall i | 0 <= i < |h| :: h[i].id != id
  }

  lemma {:induction false} Prefix(h: History, e: Event, n: nat, id: string, seeded: bool)
    requires n <= |h|
    ensures Fails(h + [e], n, id) == Fails(h, n, id) && Latest(h + [e], n, id) == Latest(h, n, id)
    ensures On(h + [e], n, id, seeded) == On(h, n, id, seeded)
  {
    if n > 0 {
      Prefix(h, e, n - 1, id, seeded);
    }
  }

  lemma {:induction false} UnseenFacts(h: History, id: string, n: nat, seeded: bool)
    requires Unseen(h, id) && n <= |h|
    ensures Fails(h, n, id) == 0 && Latest(h, n, id) == None && On(h, n, id, seeded) == seeded
  {
    if n > 0 {
      UnseenFacts(h, id, n - 1, seeded);
    }
  }

  /** Ever live and ever answered, one event later. */
  lemma EverGrows(h: History, e: Event, id: string)
    ensures EverLive(h + [e], |h| + 1, id) <==> EverLive(h, |h|, id) || RecordedLive(e, id)
    ensures EverAnswered(h + [e], |h| + 1, id) <==> EverAnswered(h, |h|, id) || Answered(e, id)
  {
    var h' := h + [e];
    assert h'[|h|] == e && forall i | 0 <= i < |h| :: h'[i] == h[i];
    if EverLive(h, |h|, id) {
      var i :| 0 <= i < |h| && RecordedLive(h[i], id);
      assert RecordedLive(h'[i], id);
    }
    if EverAnswered(h, |h|, id) {
      var i :| 0 <= i < |h| && Answered(h[i], id);
      assert Answered(h'[i], id);
    }
  }

  /** An event of another model changes nothing. */
  lemma OtherEvent(h: History, e: Event, id: string, row: Row, seeded: bool)
    requires Agrees(h, id, row, seeded) && e.id != id
    ensures Agrees(h + [e], id, row, seeded)
  {
    Prefix(h, e, |h|, id, seeded);
    EverGrows(h, e, id);
  }

  // ---- what a row tells ----

  /** A live row has no failures counted and a last-live time. */
  lemma {:induction false} LatestLive(h: History, n: nat, id: string)
    requires n <= |h| && Latest(h, n, id) == Some(Live)
    ensures Fails(h, n, id) == 0 && EverLive(h, n, id)
  {
    if h[n - 1].Scanned? && h[n - 1].id == id {
      assert RecordedLive(h[n - 1], id);
    } else {
      LatestLive(h, n - 1, id);
    }
  }

  lemma LiveRow(h: History, id: string, row: Row, seeded: bool)
    requires Agrees(h, id, row, seeded) && row.status == Live
    ensures row.failCount == 0 && row.lastLiveAt.Some?
  {
    LatestLive(h, |h|, id);
  }

  /** With no failure counted and a scan result ever recorded live, the last status is live or delisted. */
  lemma {:induction false} NoFails(h: History, n: nat, id: string)
    requires n <= |h| && Fails(h, n, id) == 0 && Latest(h, n, id).Some?
    ensures Latest(h, n, id).value == Live || Latest(h, n, id).value == Delisted
  {
    if !(h[n - 1].Scanned? && h[n - 1].id == id) && h[n - 1] != Dropped(id) {
      NoFails(h, n - 1, id);
    }
  }

  /**
    * A model is on offer exactly when it is switched on, has been recorded live, is not delisted, and
    * has since then failed never, or once and only in a transient way.
    */
  lemma OnOffer(h: History, id: string, row: Row, seeded: bool)
    requires Agrees(h, id, row, seeded)
    ensures Available(row) <==>
      && On(h, |h|, id, seeded) && EverLive(h, |h|, id) && Latest(h, |h|, id) != Some(Delisted)
      && (Fails(h, |h|, id) == 0 || (Fails(h, |h|, id) == 1 && Latest(h, |h|, id) in {Some(TimedOut), Some(Faulty)}))
    ensures Available(row) ==> EverAnswered(h, |h|, id)
  {
    if row.status == Live {
      LatestLive(h, |h|, id);
    }
    if row.failCount == 0 {
      NoFails(h, |h|, id);
    }
  }

  // ---- the catalog ----

  /** A row agrees with its model's history, and a model without a row has none. */
  ghost predicate RowOk(h: History, rows: map<string, Row>, seeds: map<string, bool>, id: string)
    requires rows.Keys == seeds.Keys
  {
    if id in rows then Agrees(h, id, rows[id], seeds[id]) else Unseen(h, id)
  }

  ghost predicate Consistent(h: History, rows: map<string, Row>, seeds: map<string, bool>)
  {
    rows.Keys == seeds.Keys && forall id: string :: RowOk(h, rows, seeds, id)
  }

  /** One event, one row: the rest stays as it was. */
  lemma RowWritten(h: History, e: Event, rows: map<string, Row>, seeds: map<string, bool>, row: Row, seed: bool)
    requires Consistent(h, rows, seeds) && Agrees(h + [e], e.id, row, seed)
    ensures Consistent(h + [e], rows[e.id := row], seeds[e.id := seed])
  {
    var rows', seeds' := rows[e.id := row], seeds[e.id := seed];
    forall id: string ensures RowOk(h + [e], rows', seeds', id) {
      assert RowOk(h, rows, seeds, id);
      if id in rows && id != e.id {
        OtherEvent(h, e, id, rows[id], seeds[id]);
      }
    }
  }

  /** The row a scan result makes of the previous one. */
  function Updated(prior: Option<Row>, status: Status, seed: bool, now: real): Row
  {
    var before := match prior case None => Row(status, 0, seed, None) case Some(r) => r;
    Row(status, if status == Live then 0 else before.failCount + 1, before.enabled, if status == Live then Some(now) else before.lastLiveAt)
  }

  /** A status of live is written only after a 200, now or at some time before. */
  ghost predicate Justified(h: History, id: string, probe: Probe, status: Status)
  {
    status == Live ==> probe == Code(200) || EverAnswered(h, |h|, id)
  }

  lemma ScanAgrees(h: History, id: string, probe: Probe, status: Status, rows: map<string, Row>, seeds: map<string, bool>, seed: bool, now: real)
    requires Consistent(h, rows, seeds) && Justified(h, id, probe, status)
    ensures Agrees(h + [Scanned(id, probe, status)], id,
      Updated(if id in rows then Some(rows[id]) else None, status, seed, now), if id in rows then seeds[id] else seed)
  {
    var e := Scanned(id, probe, status);
    assert RowOk(h, rows, seeds, id);
    Prefix(h, e, |h|, id, if id in rows then seeds[id] else seed);
    EverGrows(h, e, id);
    if id !in rows {
      UnseenFacts(h, id, |h|, seed);
    }
  }

  lemma SwitchAgrees(h: History, id: string, on: bool, row: Row, seed: bool)
    requires Agrees(h, id, row, seed)
    ensures Agrees(h + [Switched(id, on)], id, row.(enabled := on), seed)
  {
    Prefix(h, Switched(id, on), |h|, id, seed);
    EverGrows(h, Switched(id, on), id);
  }

  lemma DropAgrees(h: History, id: string, row: Row, seed: bool)
    requires Agrees(h, id, row, seed)
    ensures Agrees(h + [Dropped(id)], id, row.(status := Delisted), seed)
  {
    Prefix(h, Dropped(id), |h|, id, seed);
    EverGrows(h, Dropped(id), id);
  }

  ghost predicate LiveAnswered(h: History, rows: map<string, Row>)
  {
    forall id | id in rows && rows[id].status == Live :: EverAnswered(h, |h|, id)
  }

  lemma LiveRowsAnswered(h: History, rows: map<string, Row>, seeds: map<string, bool>)
    requires Consistent(h, rows, seeds)
    ensures LiveAnswered(h, rows)
  {
    forall id | id in rows && rows[id].status == Live ensures EverAnswered(h, |h|, id) {
      assert RowOk(h, rows, seeds, id);
      LiveRow(h, id, rows[id], seeds[id]);
    }
  }

  lemma AnsweredLasts(h: History, e: Event, rows: map<string, Row>)
    requires LiveAnswered(h, rows)
    ensures LiveAnswered(h + [e], rows)
  {
    forall id | id in rows && rows[id].status == Live ensures EverAnswered(h + [e], |h| + 1, id) {
      EverGrows(h, e, id);
    }
  }

  datatype Patched = Done | Missing | RoleModel | NeverLive

  datatype Result = Result(id: string, probe: Probe)

  class Catalog {
    var rows: map<string, Row>
    ghost var seeds: map<string, bool>
    ghost var history: History

    ghost predicate Valid()
      reads this
    {
      Consistent(history, rows, seeds)
    }

    constructor ()
      ensures Valid() && rows == map[] && history == []
    {
      rows, seeds, history := map[], map[], [];
    }

    /** Write one scan result; a new row takes `seed` as its switch, an existing row keeps its own. */
    method Upsert(id: string, ghost probe: Probe, status: Status, seed: bool, now: real)
      requires Valid() && Justified(history, id, probe, status)
      modifies this
      ensures Valid() && history == old(history) + [Scanned(id, probe, status)]
      ensures rows == old(rows)[id := Updated(if id in old(rows) then Some(old(rows)[id]) else None, status, seed, now)]
    {
      var row;
      if id !in rows {
        row := Row(status, if status == Live then 0 else 1, seed, if status == Live then Some(now) else None);
      } else {
        row := rows[id];
        row := row.(failCount := if status == Live then 0 else row.failCount + 1);
        row := row.(status := status);
        if status == Live {
          row := row.(lastLiveAt := Some(now));
        }
      }
      ghost var seed' := if id in rows then seeds[id] else seed;
      ScanAgrees(history, id, probe, status, rows, seeds, seed, now);
      RowWritten(history, Scanned(id, probe, status), rows, seeds, row, seed');
      rows, seeds, history := rows[id := row], seeds[id := seed'], history + [Scanned(id, probe, status)];
    }

    /** An administrator's switch: never on for a model that was never live, never off for a role model. */
    method Switch(id: string, on: bool, roleIds: set<string>) returns (r: Patched)
      requires Valid()
      modifies this
      ensures Valid()
      ensures r == if id !in old(rows) then Missing
                   else if !on && id in roleIds then RoleModel
                   else if on && !EverLive(old(history), |old(history)|, id) then NeverLive
                   else Done
      ensures r == Done ==> history == old(history) + [Switched(id, on)] && rows == old(rows)[id := old(rows)[id].(enabled := on)]
      ensures r != Done ==> history == old(history) && rows == old(rows)
    {
      assert RowOk(history, rows, seeds, id);
      if id !in rows {
        return Missing;
      }
      if !on && id in roleIds {
        return RoleModel;
      }
      if on && rows[id].lastLiveAt.None? {
        return NeverLive;
      }
      SwitchAgrees(history, id, on, rows[id], seeds[id]);
      RowWritten(history, Switched(id, on), rows, seeds, rows[id].(enabled := on), seeds[id]);
      assert seeds == seeds[id := seeds[id]];
      rows := rows[id := rows[id].(enabled := on)];
      history := history + [Switched(id, on)];
      return Done;
    }

    method MarkUnlessSeen(seen: set<string>, id: string) returns (left: bool)
      requires Valid() && id in rows
      modifies this
      ensures Valid() && left == (id !in seen && old(rows)[id].status != Delisted)
      ensures rows == Leave(old(rows), seen, id) && history == old(history) + if left then [Dropped(id)] else []
    {
      left := id !in seen && rows[id].status != Delisted;
      if left {
        Drop(id);
      }
    }

    /** Mark as delisted every row whose model the listing no longer names. */
    method MarkDelisted(seen: set<string>, listing: seq<string>) returns (changed: nat)
      requires Valid() && ListsRows(listing, rows)
      modifies this
      ensures Valid() && rows.Keys == old(rows).Keys
      ensures forall id | id in rows :: rows[id] == if id in seen then old(rows)[id] else old(rows)[id].(status := Delisted)
      ensures history == old(history) + Drops(old(rows), seen, listing, |listing|)
      ensures changed == |Drops(old(rows), seen, listing, |listing|)|
    {
      AllMarked(rows, seen, listing);
      DroppedOnce(rows, seen, listing, |listing|);
      changed := MarkEach(seen, listing);
    }

    method MarkEach(seen: set<string>, listing: seq<string>) returns (changed: nat)
      requires Valid() && Known(listing, rows)
      modifies this
      ensures Valid() && rows == Marked(old(rows), seen, listing, |listing|)
      ensures history == old(history) + Departures(old(rows), seen, listing, |listing|)
      ensures changed == |Departures(old(rows), seen, listing, |listing|)|
    {
      changed := 0;
      ghost var before := rows;
      for i := 0 to |listing|
        invariant Valid() && rows == Marked(before, seen, listing, i)
        invariant history == old(history) + Departures(before, seen, listing, i)
        invariant changed == |Departures(before, seen, listing, i)|
      {
        assert Marked(before, seen, listing, i + 1) == Leave(rows, seen, listing[i]);
        var left := MarkUnlessSeen(seen, listing[i]);
        changed := changed + if left then 1 else 0;
      }
    }

    /**
      * The upsert pass of a scan. A throttled probe keeps the status the row had when the pass
      * began, or counts as an error where there was no row; it is recorded all the same.
      */
    method RecordScan(results: seq<Result>, roleIds: set<string>, now: real)
      requires Valid()
      modifies this
      ensures Valid() && history == old(history) + Scans(results, old(rows), |results|)
      ensures forall i | 0 <= i < |results| && LastFor(results, i) :: (
        results[i].id in rows && Warranted(old(rows), results[i], rows[results[i].id].status))
    {
      var existing := rows;
      ghost var before := history;
      LiveRowsAnswered(history, rows, seeds);
      for i := 0 to |results|
        invariant Valid() && history == before + Scans(results, existing, i)
        invariant LiveAnswered(history, existing)
      {
        var result := results[i];
        var status := match ProbeStatus(result.probe)
          case Some(asked) => asked
          case None => if result.id in existing then existing[result.id].status else Faulty;
        AnsweredLasts(history, Scanned(result.id, result.probe, status), existing);
        Upsert(result.id, result.probe, status, result.id in roleIds, now);
      }
      forall i | 0 <= i < |results| && LastFor(results, i)
        ensures results[i].id in rows && Warranted(existing, results[i], rows[results[i].id].status)
      {
        RowScanned(before, results, existing, rows, seeds, i);
      }
    }

    method Drop(id: string)
      requires Valid() && id in rows
      modifies this
      ensures Valid() && rows == old(rows)[id := old(rows)[id].(status := Delisted)]
      ensures history == old(history) + [Dropped(id)]
    {
      assert RowOk(history, rows, seeds, id);
      DropAgrees(history, id, rows[id], seeds[id]);
      RowWritten(history, Dropped(id), rows, seeds, rows[id].(status := Delisted), seeds[id]);
      assert seeds == seeds[id := seeds[id]];
      rows := rows[id := rows[id].(status := Delisted)];
      history := history + [Dropped(id)];
    }
  }

  /** What a pass over the first `n` results records, given the rows it began with. */
  function Scans(results: seq<Result>, existing: map<string, Row>, n: nat): History
    requires n <= |results|
  {
    if n == 0 then []
    else
      var r := results[n - 1];
      Scans(results, existing, n - 1) + [Scanned(r.id, r.probe, match ProbeStatus(r.probe)
        case Some(asked) => asked
        case None => if r.id in existing then existing[r.id].status else Faulty)]
  }

  /** The status a probe calls for: a 200 makes the model live, a throttled probe leaves what the row had. */
  predicate Warranted(existing: map<string, Row>, r: Result, status: Status)
  {
    match r.probe
    case Timeout => status == TimedOut
    case Failure => status == Faulty
    case Code(c) =>
      && (c == 200 ==> status == Live)
      && (c == 404 ==> status == NotFound)
      && (c == 410 ==> status == Gone)
      && (c == 429 ==> status == if r.id in existing then existing[r.id].status else Faulty)
      && (c !in {200, 404, 410, 429} ==> status == Faulty)
  }

  /** No later result is about the same model. */
  predicate LastFor(results: seq<Result>, i: nat)
    requires i < |results|
  {
    forall j | i < j < |results| :: results[j].id != results[i].id
  }

  lemma {:induction false} ScanAt(results: seq<Result>, existing: map<string, Row>, n: nat, i: nat)
    requires i < n <= |results|
    ensures |Scans(results, existing, n)| == n
    ensures var e := Scans(results, existing, n)[i];
      e.Scanned? && e.id == results[i].id && e.probe == results[i].probe && Warranted(existing, results[i], e.status)
  {
    ScansCount(results, existing, n - 1);
    if i < n - 1 {
      ScanAt(results, existing, n - 1, i);
    }
  }

  lemma {:induction false} ScansCount(results: seq<Result>, existing: map<string, Row>, n: nat)
    requires n <= |results|
    ensures |Scans(results, existing, n)| == n
  {
    if n > 0 {
      ScansCount(results, existing, n - 1);
    }
  }

  lemma {:induction false} LatestAt(h: History, n: nat, k: nat, id: string)
    requires k < n <= |h| && h[k].Scanned? && h[k].id == id && forall j | k < j < n :: h[j].id != id
    ensures Latest(h, n, id) == Some(h[k].status)
  {
    if k < n - 1 {
      LatestAt(h, n - 1, k, id);
    }
  }

  /** After a pass a row has the status its own last probe calls for. */
  lemma RowScanned(before: History, results: seq<Result>, existing: map<string, Row>, rows: map<string, Row>, seeds: map<string, bool>, i: nat)
    requires i < |results| && LastFor(results, i) && Consistent(before + Scans(results, existing, |results|), rows, seeds)
    ensures results[i].id in rows && Warranted(existing, results[i], rows[results[i].id].status)
  {
    var scans, id := Scans(results, existing, |results|), results[i].id;
    var h, k := before + scans, |before| + i;
    ScanAt(results, existing, |results|, i);
    assert h[k] == scans[i];
    forall j | k < j < |h| ensures h[j].id != id {
      ScanAt(results, existing, |results|, j - |before|);
      assert h[j] == scans[j - |before|];
    }
    LatestAt(h, |h|, k, id);
    assert RowOk(h, rows, seeds, id);
  }

  predicate Known(listing: seq<string>, rows: map<string, Row>)
  {
    forall k | 0 <= k < |listing| :: listing[k] in rows
  }

  /** Each row once. */
  ghost predicate ListsRows(listing: seq<string>, rows: map<string, Row>)
  {
    && Known(listing, rows)
    && (forall id | id in rows :: id in listing)
    && Distinct(listing)
  }

  predicate Distinct(listing: seq<string>)
  {
    forall i, j | 0 <= i < j < |listing| :: listing[i] != listing[j]
  }

  /** The rows with one of them delisted, unless it was seen. */
  ghost function Leave(rows: map<string, Row>, seen: set<string>, id: string): map<string, Row>
    requires id in rows
  {
    if id !in seen && rows[id].status != Delisted then rows[id := rows[id].(status := Delisted)] else rows
  }

  /** The rows once the first `n` listed have been looked at. */
  ghost function Marked(rows: map<string, Row>, seen: set<string>, listing: seq<string>, n: nat): (r: map<string, Row>)
    requires n <= |listing| && Known(listing, rows)
    ensures r.Keys == rows.Keys
  {
    if n == 0 then rows
    else Leave(Marked(rows, seen, listing, n - 1), seen, listing[n - 1])
  }

  lemma {:induction false} MarkedOnly(rows: map<string, Row>, seen: set<string>, listing: seq<string>, n: nat, id: string)
    requires n <= |listing| && Known(listing, rows) && id in rows
    ensures Marked(rows, seen, listing, n)[id] ==
      if id !in seen && (exists k | 0 <= k < n :: listing[k] == id) then rows[id].(status := Delisted) else rows[id]
  {
    if n > 0 {
      MarkedOnly(rows, seen, listing, n - 1, id);
    }
  }

  lemma NotYet(rows: map<string, Row>, seen: set<string>, listing: seq<string>, i: nat)
    requires i < |listing| && Known(listing, rows) && Distinct(listing)
    ensures listing[i] in rows && Marked(rows, seen, listing, i)[listing[i]] == rows[listing[i]]
  {
    MarkedOnly(rows, seen, listing, i, listing[i]);
  }

  /** What the first `n` looks record. */
  ghost function Departures(rows: map<string, Row>, seen: set<string>, listing: seq<string>, n: nat): History
    requires n <= |listing| && Known(listing, rows)
  {
    if n == 0 then []
    else
      Departures(rows, seen, listing, n - 1)
      + if listing[n - 1] !in seen && Marked(rows, seen, listing, n - 1)[listing[n - 1]].status != Delisted then [Dropped(listing[n - 1])] else []
  }

  lemma {:induction false} DroppedOnce(rows: map<string, Row>, seen: set<string>, listing: seq<string>, n: nat)
    requires n <= |listing| && Known(listing, rows) && Distinct(listing)
    ensures Departures(rows, seen, listing, n) == Drops(rows, seen, listing, n)
  {
    if n > 0 {
      DroppedOnce(rows, seen, listing, n - 1);
      NotYet(rows, seen, listing, n - 1);
    }
  }

  lemma AllMarked(rows: map<string, Row>, seen: set<string>, listing: seq<string>)
    requires ListsRows(listing, rows)
    ensures forall id | id in rows ::
      Marked(rows, seen, listing, |listing|)[id] == if id in seen then rows[id] else rows[id].(status := Delisted)
  {
    forall id | id in rows
      ensures Marked(rows, seen, listing, |listing|)[id] == if id in seen then rows[id] else rows[id].(status := Delisted)
    {
      assert id in listing;
      MarkedOnly(rows, seen, listing, |listing|, id);
    }
  }

  /** One event for each of the first `n` listed rows that is neither seen nor delisted already. */
  function Drops(rows: map<string, Row>, seen: set<string>, listing: seq<string>, n: nat): History
    requires n <= |listing| && Known(listing, rows)
  {
    if n == 0 then []
    else
      Drops(rows, seen, listing, n - 1)
      + if listing[n - 1] !in seen && rows[listing[n - 1]].status != Delisted then [Dropped(listing[n - 1])] else []
  }
}
