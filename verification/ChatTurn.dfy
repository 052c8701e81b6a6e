/** The endpoint side of a streamed turn: it rebuilds the text from the engine's events
    and stores one assistant message. Database failures are arbitrary. */
module ChatTurn {
  import opened Basics
  import opened TurnHistory
  import opened TurnWorld
  import TurnEngine

  /** What a commit does: take effect, raise without effect, or raise although the database took it. */
  datatype Commit = Commits | Lost | TakenButRaises

  /** What a rollback does: succeed, or raise and leave the session usable again or not. */
  datatype Rollback = Clean | RaisesUsable | RaisesUnusable

  /** Which steps of handling a `done` event raise, and what its commit and rollback do. */
  datatype DoneIo = DoneIo(prepareRaises: bool, costRaises: bool, commit: Commit,
                           followUpRaises: bool, rollback: Rollback, sendRaises: bool)

  datatype AbortIo = AbortIo(commit: Commit, rollback: Rollback)

  datatype Outcome = Success | Partial | Failed

  /** `compress` shortens tool dumps, `strip` trims white space; `notice` words an abort without text. */
  datatype Format = Format(compress: string -> string, strip: string -> string, notice: string)

  const NO_FAULT_DONE := DoneIo(false, false, Commits, false, Clean, false)
  const NO_FAULT_ABORT := AbortIo(Commits, Clean)

  function OrElse(a: string, b: string): string
  {
    if a != "" then a else b
  }

  /** The question the latest `ask_user` event asked. */
  function LastQuestion(h: seq<Action>): string
  {
    if h == [] then ""
    else if h[|h| - 1].Yield? && h[|h| - 1].event.AskUser? then h[|h| - 1].event.question
    else LastQuestion(h[..|h| - 1])
  }

  /** No later question than the one at `i`. */
  lemma {:induction false} LastQuestionAt(h: seq<Action>, i: nat)
    requires i < |h| && h[i].Yield? && h[i].event.AskUser?
    requires forall k | i < k < |h| :: !(h[k].Yield? && h[k].event.AskUser?)
    ensures LastQuestion(h) == h[i].event.question
    decreases |h|
  {
    if i < |h| - 1 {
      LastQuestionAt(h[..|h| - 1], i);
    }
  }

  lemma {:induction false} NoQuestion(h: seq<Action>)
    requires forall k | 0 <= k < |h| :: !(h[k].Yield? && h[k].event.AskUser?)
    ensures LastQuestion(h) == ""
    decreases |h|
  {
    if h != [] {
      NoQuestion(h[..|h| - 1]);
    }
  }

  function StoredAnswer(f: Format, h: seq<Action>): string
  {
    OrElse(f.compress(Concat(ClientText(h))), LastQuestion(h))
  }

  function AbortNote(f: Format, h: seq<Action>): string
  {
    OrElse(f.strip(Concat(ClientText(h))), f.notice)
  }

  function FaultOutcome(h: seq<Action>): Outcome
  {
    if ClientText(h) != [] then Partial else Failed
  }

  ghost predicate Ends(h: seq<Action>)
  {
    h != [] && IsEnding(h[|h| - 1])
  }

  // ---- what handling a `done` event comes to ----

  predicate DoneStores(io: DoneIo)
  {
    !io.prepareRaises && !io.costRaises && io.commit != Lost
  }

  predicate DoneRecords(io: DoneIo)
  {
    !io.prepareRaises && !io.costRaises && io.commit == Commits
  }

  predicate DonePoisons(io: DoneIo)
  {
    !io.prepareRaises && !io.costRaises && io.commit != Commits && io.rollback == RaisesUnusable
  }

  predicate DoneRaises(io: DoneIo)
  {
    io.prepareRaises || io.sendRaises || ((io.costRaises || io.commit != Commits || io.followUpRaises) && io.rollback != Clean)
  }

  /** The assistant messages a turn leaves in the database. */
  function Stored(f: Format, h: seq<Action>, engineRaises: bool, stop: nat, done: DoneIo, abort: AbortIo, fault: AbortIo): seq<string>
  {
    var note := [AbortNote(f, h)];
    if stop != |h| then []
    else if engineRaises then (if fault.commit == Lost then [] else note)
    else if h == [] || !IsEnding(h[|h| - 1]) then []
    else if h[|h| - 1].event.Error? then
      (if abort.commit == Lost then [] else note)
      + if abort.commit != Commits && abort.rollback == RaisesUsable && fault.commit != Lost then note else []
    else
      (if DoneStores(done) then [StoredAnswer(f, h)] else [])
      + if DoneRaises(done) && !DoneRecords(done) && !DonePoisons(done) && fault.commit != Lost then note else []
  }

  /** One run of `event_generator` with its database session. */
  class Endpoint {
    const f: Format
    var accumulated: seq<string>
    var pendingQuestion: string
    var turnRecorded: bool
    var outcome: Outcome
    // The session: assistant messages added, those committed, and whether a failed
    // commit still waits for its rollback.
    var pending: seq<string>
    var committed: seq<string>
    var poisoned: bool

    constructor (f: Format)
      ensures this.f == f && accumulated == [] && pendingQuestion == "" && Untouched()
    {
      this.f := f;
      accumulated, pendingQuestion, turnRecorded, outcome := [], "", false, Success;
      pending, committed, poisoned := [], [], false;
    }

    ghost predicate Untouched()
      reads this
    {
      !turnRecorded && pending == [] && committed == [] && !poisoned && outcome == Success
    }

    ghost predicate Valid()
      reads this
    {
      && (pending != [] ==> poisoned)
      && (poisoned ==> !turnRecorded)
    }

    /** Add a message and commit it. A session whose last commit failed raises until it is rolled back. */
    method Store(message: string, commit: Commit) returns (raised: bool)
      requires Valid() && !turnRecorded
      modifies this`pending, this`committed, this`poisoned, this`turnRecorded
      ensures Valid()
      ensures raised == (commit != Commits || old(poisoned)) && poisoned == raised && turnRecorded == !raised
      ensures committed == old(committed) + if old(poisoned) || commit == Lost then [] else [message]
    {
      raised := commit != Commits || poisoned;
      if !poisoned && commit != Lost {
        committed := committed + (pending + [message]);
      }
      if raised {
        pending, poisoned := pending + [message], true;
      } else {
        pending, turnRecorded := [], true;
      }
    }

    method RollBack(rollback: Rollback) returns (raised: bool)
      requires Valid()
      modifies this`pending, this`poisoned
      ensures Valid()
      ensures raised == (rollback != Clean) && poisoned == (old(poisoned) && rollback == RaisesUnusable)
    {
      raised := rollback != Clean;
      if rollback != RaisesUnusable {
        pending, poisoned := [], false;
      }
    }

    /** Store what there is of the turn, unless it is recorded already. */
    method PersistAbort(io: AbortIo) returns (raised: bool)
      requires Valid()
      modifies this`pending, this`committed, this`poisoned, this`turnRecorded
      ensures Valid()
      ensures old(turnRecorded) ==> committed == old(committed) && turnRecorded && !raised
      ensures !old(turnRecorded) ==>
        && committed == old(committed) + (if old(poisoned) || io.commit == Lost then [] else [OrElse(f.strip(Concat(accumulated)), f.notice)])
        && raised == ((old(poisoned) || io.commit != Commits) && io.rollback != Clean)
        && poisoned == ((old(poisoned) || io.commit != Commits) && io.rollback == RaisesUnusable)
        && turnRecorded == (!old(poisoned) && io.commit == Commits)
    {
      raised := false;
      if turnRecorded {
        return;
      }
      var failed := Store(OrElse(f.strip(Concat(accumulated)), f.notice), io.commit);
      if failed {
        raised := RollBack(io.rollback);
      }
    }

    /** Store the answer, or the question asked in its place. */
    method HandleDone(io: DoneIo) returns (raised: bool)
      requires Valid() && !turnRecorded && !poisoned
      modifies this`pending, this`committed, this`poisoned, this`turnRecorded
      ensures Valid()
      ensures committed == old(committed) + if DoneStores(io) then [OrElse(f.compress(Concat(accumulated)), pendingQuestion)] else []
      ensures raised == DoneRaises(io) && turnRecorded == DoneRecords(io) && poisoned == DonePoisons(io)
    {
      raised := io.prepareRaises;
      if raised {
        return;
      }
      var failed := io.costRaises;
      if !failed {
        failed := Store(OrElse(f.compress(Concat(accumulated)), pendingQuestion), io.commit);
      }
      if failed || io.followUpRaises {
        raised := RollBack(io.rollback);
      }
      raised := raised || io.sendRaises;
    }

    method Fault()
      modifies this`outcome
      ensures outcome == if accumulated != [] then Partial else Failed
    {
      outcome := if accumulated != [] then Partial else Failed;
    }

    /** What the turn has come to once its ending was handled. */
    ghost predicate Settled(h: seq<Action>, done: DoneIo, abort: AbortIo, raised: bool)
      requires Ends(h)
      reads this
    {
      if h[|h| - 1].event.Done? then
        && raised == DoneRaises(done) && turnRecorded == DoneRecords(done) && poisoned == DonePoisons(done)
        && committed == (if DoneStores(done) then [StoredAnswer(f, h)] else []) && outcome == Success
      else
        && raised == (abort.commit != Commits && abort.rollback != Clean) && turnRecorded == (abort.commit == Commits)
        && poisoned == (abort.commit != Commits && abort.rollback == RaisesUnusable)
        && committed == (if abort.commit == Lost then [] else [AbortNote(f, h)]) && outcome == FaultOutcome(h)
    }

    ghost predicate Following(h: seq<Action>)
      reads this
    {
      accumulated == ClientText(h) && pendingQuestion == LastQuestion(h)
    }

    /** Handle the event `e` that follows the history `h`. */
    method Handle(ghost h: seq<Action>, e: Event, done: DoneIo, abort: AbortIo) returns (raised: bool)
      requires Valid() && Untouched() && Following(h)
      modifies this
      ensures Valid() && Following(h + [Yield(e)])
      ensures !e.Done? && !e.Error? ==> !raised && Untouched()
      ensures e.Done? || e.Error? ==> Settled(h + [Yield(e)], done, abort, raised)
    {
      assert (h + [Yield(e)])[..|h|] == h;
      raised := false;
      match e {
        case Token(t) => accumulated := accumulated + [t];
        case PreambleDiscard => accumulated := [];
        case AskUser(q) => pendingQuestion := q;
        case Done(_, _, _) => raised := HandleDone(done);
        case Error(_) =>
          Fault();
          raised := PersistAbort(abort);
        case _ =>
      }
    }

    /** Follow the engine's history up to `stop` (a client that disconnects stops early).
        `fault` is what the handler for a raised exception meets. */
    method Consume(h: seq<Action>, engineRaises: bool, stop: nat, done: DoneIo, abort: AbortIo, fault: AbortIo)
      requires forall k | 0 <= k < |h| - 1 :: !IsEnding(h[k])
      requires Valid() && Untouched() && accumulated == [] && pendingQuestion == ""
      requires stop <= |h|
      requires engineRaises ==> !Ends(h)
      modifies this
      ensures committed == Stored(f, h, engineRaises, stop, done, abort, fault)
      ensures stop == |h| && Ends(h) && h[|h| - 1].event.Done? && !DoneRaises(done) ==> outcome == Success
      ensures stop == |h| && Ends(h) && h[|h| - 1].event.Error? ==> outcome == FaultOutcome(h)
      ensures stop == |h| && engineRaises ==> outcome == FaultOutcome(h)
    {
      var i := 0;
      var raised := false;
      while i < stop && !raised
        invariant 0 <= i <= stop && Valid() && Following(h[..i])
        invariant i < |h| || !Ends(h) ==> Untouched() && !raised
        invariant i == |h| && Ends(h) ==> Settled(h, done, abort, raised)
      {
        assert h[..i + 1] == h[..i] + [h[i]] && h[..i + 1][..i] == h[..i];
        if h[i].Yield? {
          raised := Handle(h[..i], h[i].event, done, abort);
        }
        i := i + 1;
        assert i == |h| ==> h[..i] == h;
      }
      assert stop == |h| ==> h[..stop] == h;
      if raised || (stop == |h| && engineRaises) {
        Fault();
        var _ := PersistAbort(fault);
      }
    }
  }

  /** Exactly when a turn stores two messages: a commit raises although the database took it, the session is
      usable again, something after it raises, and the abort note of the outer handler is committed. */
  lemma StoredTwice(f: Format, h: seq<Action>, engineRaises: bool, stop: nat, done: DoneIo, abort: AbortIo, fault: AbortIo)
    requires stop <= |h| && (engineRaises ==> !Ends(h))
    ensures |Stored(f, h, engineRaises, stop, done, abort, fault)| <= 2
    ensures |Stored(f, h, engineRaises, stop, done, abort, fault)| == 2 <==>
      && stop == |h| && Ends(h) && fault.commit != Lost
      && if h[|h| - 1].event.Done? then
           && !done.prepareRaises && !done.costRaises && done.commit == TakenButRaises
           && (done.rollback == RaisesUsable || (done.rollback == Clean && done.sendRaises))
         else abort.commit == TakenButRaises && abort.rollback == RaisesUsable
  {
  }

  /** Engine and endpoint together, over every run, disconnection and fault of the database. `h` is what
      happened: after a disconnection, the part of the turn up to it. Unless a commit raises
      after it was taken, at most one assistant message is stored. Without faults a complete turn stores
      exactly one: the compressed client text or the pending question, or the abort note; and the
      uncompressed client text of an answer is what the last stream said, and the string in the response cache. */
  method RunTurn(p: Plan, w: World, preparation: TurnEngine.Preparation, f: Format,
                 disconnectAfter: nat, done: DoneIo, abort: AbortIo, fault: AbortIo)
    returns (h: seq<Action>, complete: bool, raised: bool, stored: seq<string>, outcome: Outcome)
    ensures Conforms(p, h) && Relays(p, w, h) && (raised ==> complete)
    ensures !complete ==> stored == [] && |h| == disconnectAfter && !Ends(h)
    ensures complete ==> (raised <==> !Ends(h)) && stored == Stored(f, h, raised, |h|, done, abort, fault)
    ensures done.commit != TakenButRaises && abort.commit != TakenButRaises ==> |stored| <= 1
    ensures complete && done == NO_FAULT_DONE && abort == fault == NO_FAULT_ABORT ==>
      var text := Concat(ClientText(h));
      if raised || h[|h| - 1].event.Error? then
        && outcome == (if ClientText(h) != [] then Partial else Failed)
        && stored == [if f.strip(text) != "" then f.strip(text) else f.notice]
      else outcome == Success && stored == [if f.compress(text) != "" then f.compress(text) else LastQuestion(h)]
    ensures Ends(h) && h[|h| - 1].event.Done? && !h[|h| - 1].event.cacheHit && ClientText(h) != [] ==> SaidInFull(w, DigestOf(h))
    ensures Ends(h) && h[|h| - 1].event.Done? && !h[|h| - 1].event.cacheHit && ClientText(h) != [] && p.cacheable ==>
      |h| > 1 && h[|h| - 2] == CacheWrite(Concat(ClientText(h)))
  {
    var full, failed := TurnEngine.GenerateStream(p, w, preparation);
    var endpoint := new Endpoint(f);
    var stop := Least(disconnectAfter, |full|);
    endpoint.Consume(full, failed, stop, done, abort, fault);
    stored, outcome := endpoint.committed, endpoint.outcome;
    complete := stop == |full|;
    raised := complete && failed;
    h := if complete then full else full[..stop];
    StoredTwice(f, full, failed, stop, done, abort, fault);
    ConformsPrefix(p, full, stop);
    RelaysPrefix(p, w, full, stop);
    Cached(p, h);
    if Ends(h) && h[|h| - 1].event.Done? && !h[|h| - 1].event.cacheHit && ClientText(h) != [] {
      TurnEngine.AnswerSaid(p, w, h);
    }
  }

  /** A text answer was written to the response cache right before it was announced. */
  lemma Cached(p: Plan, h: seq<Action>)
    requires Conforms(p, h)
    ensures Ends(h) && h[|h| - 1].event.Done? && !h[|h| - 1].event.cacheHit && ClientText(h) != [] && p.cacheable ==>
      |h| > 1 && h[|h| - 2] == CacheWrite(Concat(ClientText(h)))
  {
    if Ends(h) && h[|h| - 1].event.Done? && !h[|h| - 1].event.cacheHit && ClientText(h) != [] && p.cacheable {
      var k := |h| - 1;
      assert ClientText(h) == ClientText(h[..k]);
      TextAgreement(p, h, k);
    }
  }
}
