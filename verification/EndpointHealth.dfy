/**
  * The cached health verdict behind the choice between the primary endpoint and NIM.
  *
  * One reachable cache backend holds the verdict with an expiry time. A pick asks the cache,
  * probes the primary if there is no verdict, stores the outcome and returns a URL; every one
  * of these awaits is a step, and anything may happen between the backend's answer and the
  * moment the task goes on with it.
  */
module EndpointHealth {
  import opened Basics

  datatype Url = Primary | Nim

  datatype Verdict = Verdict(healthy: bool, until: real)

  /** Where a pick is: the backend has not answered yet; it has, and the task has not gone on; the
      probe is out; its outcome is on its way to the backend; the backend has it. */
  datatype Phase =
    | Asking
    | Told(answer: Option<bool>)
    | Probing
    | Storing(healthy: bool)
    | Stored(healthy: bool)

  datatype State = State(now: real, verdict: Option<Verdict>, picks: map<nat, Phase>)

  datatype Step =
    | Wait(seconds: real)
    | Ask(task: nat)
    | Answer(task: nat)
    | StartProbe(task: nat)
    | EndProbe(task: nat, healthy: bool)
    | Store(task: nat)
    | Return(task: nat)
    | PickOff
    | MarkUnhealthy

  /** Failover settings: whether it is on with a primary configured, and how long a verdict lasts. */
  datatype Config = Config(failover: bool, ttlSetting: int)
  {
    function Ttl(): real
    {
      if ttlSetting > 1 then ttlSetting as real else 1.0
    }
  }

  /** The verdict the backend gives out now. */
  function Cached(s: State): Option<bool>
  {
    if s.verdict.Some? && s.verdict.value.until > s.now then Some(s.verdict.value.healthy) else None
  }

  predicate Enabled(c: Config, s: State, step: Step)
  {
    match step
    case Wait(d) => d >= 0.0
    case Ask(t) => c.failover && t !in s.picks
    case Answer(t) => t in s.picks && s.picks[t] == Asking
    case StartProbe(t) => t in s.picks && s.picks[t] == Told(None)
    case EndProbe(t, _) => t in s.picks && s.picks[t] == Probing
    case Store(t) => t in s.picks && s.picks[t].Storing?
    case Return(t) => t in s.picks && (s.picks[t].Stored? || (s.picks[t].Told? && s.picks[t].answer.Some?))
    case PickOff => !c.failover
    case MarkUnhealthy => true
  }

  function Do(c: Config, s: State, step: Step): State
    requires Enabled(c, s, step)
  {
    match step
    case Wait(d) => s.(now := s.now + d)
    case Ask(t) => s.(picks := s.picks[t := Asking])
    case Answer(t) => s.(picks := s.picks[t := Told(Cached(s))])
    case StartProbe(t) => s.(picks := s.picks[t := Probing])
    case EndProbe(t, ok) => s.(picks := s.picks[t := Storing(ok)])
    case Store(t) =>
      var ok := s.picks[t].healthy;
      s.(picks := s.picks[t := Stored(ok)], verdict := Some(Verdict(ok, s.now + c.Ttl())))
    case Return(t) => s.(picks := s.picks - {t})
    case PickOff => s
    case MarkUnhealthy => if c.failover then s.(verdict := Some(Verdict(false, s.now + c.Ttl()))) else s
  }

  /** The URL a step hands to its caller, if it does. */
  function Picked(c: Config, s: State, step: Step): Option<Url>
    requires Enabled(c, s, step)
  {
    match step
    case Return(t) =>
      var healthy := if s.picks[t].Stored? then s.picks[t].healthy else s.picks[t].answer.value;
      Some(if healthy then Primary else Nim)
    case PickOff => Some(Nim)
    case _ => None
  }

  predicate Possible(c: Config, s: State, run: seq<Step>)
    decreases |run|
  {
    run == [] || (Enabled(c, s, run[0]) && Possible(c, Do(c, s, run[0]), run[1..]))
  }

  /** Every URL the run picks before `deadline` is NIM. */
  predicate NimUntil(c: Config, s: State, run: seq<Step>, deadline: real)
    requires Possible(c, s, run)
    decreases |run|
  {
    run == [] ||
      (&& (s.now < deadline ==> Picked(c, s, run[0]) != Some(Primary))
       && NimUntil(c, Do(c, s, run[0]), run[1..], deadline))
  }

  // ---- one pick on its own ----

  /** A verdict that has not lapsed decides the pick, without a probe. */
  lemma CachedPick(c: Config, s: State, t: nat)
    requires c.failover && t !in s.picks && s.verdict.Some? && s.now < s.verdict.value.until
    ensures var asked := Do(c, s, Ask(t));
      && Enabled(c, asked, Answer(t))
      && var told := Do(c, asked, Answer(t));
         && Enabled(c, told, Return(t)) && !Enabled(c, told, StartProbe(t))
         && Picked(c, told, Return(t)) == Some(if s.verdict.value.healthy then Primary else Nim)
         && Do(c, told, Return(t)) == s
  {
    var told := Do(c, Do(c, s, Ask(t)), Answer(t));
    assert told.picks - {t} == s.picks;
  }

  /** Without one the pick probes: it returns the primary exactly if the probe finds it healthy, and what it found
      is the verdict from then on. */
  lemma ProbedPick(c: Config, s: State, t: nat, healthy: bool)
    requires c.failover && t !in s.picks && (s.verdict.Some? ==> s.verdict.value.until <= s.now)
    ensures var asked := Do(c, s, Ask(t));
      && Enabled(c, asked, Answer(t))
      && var told := Do(c, asked, Answer(t));
         && !Enabled(c, told, Return(t)) && Enabled(c, told, StartProbe(t))
         && var probing := Do(c, told, StartProbe(t));
            && Enabled(c, probing, EndProbe(t, healthy))
            && var found := Do(c, probing, EndProbe(t, healthy));
               && Enabled(c, found, Store(t))
               && var stored := Do(c, found, Store(t));
                  && Enabled(c, stored, Return(t))
                  && Picked(c, stored, Return(t)) == Some(if healthy then Primary else Nim)
                  && Do(c, stored, Return(t))
                     == s.(verdict := Some(Verdict(healthy, s.now + if c.ttlSetting > 1 then c.ttlSetting as real else 1.0)))
  {
    var told := Do(c, Do(c, s, Ask(t)), Answer(t));
    var stored := Do(c, Do(c, Do(c, told, StartProbe(t)), EndProbe(t, healthy)), Store(t));
    assert stored.picks - {t} == s.picks;
  }

  // ---- after the primary has been marked unhealthy ----

  /** A pick that can still come to the primary without asking the backend again. */
  predicate Committed(p: Phase)
  {
    match p
    case Asking => false
    case Told(answer) => answer != Some(false)
    case Probing => true
    case Storing(ok) => ok
    case Stored(ok) => ok
  }

  /** No pick is past the backend's answer with anything but an unhealthy verdict. */
  predicate NonePending(s: State)
  {
    forall t | t in s.picks :: !Committed(s.picks[t])
  }

  /** Until the deadline the unhealthy verdict stands and nothing is about to replace it. */
  predicate Pinned(c: Config, s: State, deadline: real)
  {
    && s.now + c.Ttl() >= deadline
    && (s.now < deadline ==>
          NonePending(s) && s.verdict.Some? && !s.verdict.value.healthy && s.verdict.value.until >= deadline)
  }

  lemma PinnedStep(c: Config, s: State, step: Step, deadline: real)
    requires c.failover && Pinned(c, s, deadline) && Enabled(c, s, step)
    ensures Pinned(c, Do(c, s, step), deadline)
    ensures s.now < deadline ==> Picked(c, s, step) != Some(Primary)
  {
  }

  lemma {:induction false} PinnedRun(c: Config, s: State, run: seq<Step>, deadline: real)
    requires c.failover && Pinned(c, s, deadline) && Possible(c, s, run)
    ensures NimUntil(c, s, run, deadline)
    decreases |run|
  {
    if run != [] {
      PinnedStep(c, s, run[0], deadline);
      PinnedRun(c, Do(c, s, run[0]), run[1..], deadline);
    }
  }

  /** Once marked, with no pick already on its way to the primary, NIM is picked for the whole TTL. */
  lemma MarkedMeansNim(c: Config, s: State, run: seq<Step>)
    requires c.failover && NonePending(s) && Possible(c, Do(c, s, MarkUnhealthy), run)
    ensures NimUntil(c, Do(c, s, MarkUnhealthy), run, s.now + if c.ttlSetting > 1 then c.ttlSetting as real else 1.0)
  {
    PinnedRun(c, Do(c, s, MarkUnhealthy), run, s.now + c.Ttl());
  }

  /** What a pick already on its way does next, until it returns the primary. */
  function Onward(t: nat, p: Phase): seq<Step>
    requires Committed(p)
    decreases match p case Told(_) => 4 case Probing => 3 case Storing(_) => 2 case _ => 1
  {
    match p
    case Told(None) => [StartProbe(t)] + Onward(t, Probing)
    case Probing => [EndProbe(t, true)] + Onward(t, Storing(true))
    case Storing(_) => [Store(t)] + Onward(t, Stored(true))
    case _ => [Return(t)]
  }

  lemma {:induction false} OnwardPicksPrimary(c: Config, s: State, t: nat, deadline: real)
    requires c.failover && t in s.picks && Committed(s.picks[t]) && s.now < deadline
    ensures var run := Onward(t, s.picks[t]); Possible(c, s, run) && !NimUntil(c, s, run, deadline)
    decreases match s.picks[t] case Told(_) => 4 case Probing => 3 case Storing(_) => 2 case _ => 1
  {
    var p, run := s.picks[t], Onward(t, s.picks[t]);
    var s' := Do(c, s, run[0]);
    if !run[0].Return? {
      OnwardPicksPrimary(c, s', t, deadline);
      assert run[1..] == Onward(t, s'.picks[t]);
    } else {
      assert run[1..] == [];
    }
  }

  ghost predicate AlwaysNim(c: Config, s: State, deadline: real)
  {
    forall run | Possible(c, s, run) :: NimUntil(c, s, run, deadline)
  }

  /** Marking forces NIM for the whole TTL, over every run, exactly when no pick has been answered with
      a healthy verdict or none, is probing, or is storing or returning a healthy outcome. */
  lemma MarkHoldsExactly(c: Config, s: State)
    requires c.failover
    ensures AlwaysNim(c, Do(c, s, MarkUnhealthy), s.now + c.Ttl()) <==> NonePending(s)
  {
    var s' := Do(c, s, MarkUnhealthy);
    if NonePending(s) {
      forall run | Possible(c, s', run) ensures NimUntil(c, s', run, s.now + c.Ttl()) {
        MarkedMeansNim(c, s, run);
      }
    } else {
      var t :| t in s.picks && Committed(s.picks[t]);
      OnwardPicksPrimary(c, s', t, s.now + c.Ttl());
      var run := Onward(t, s'.picks[t]);
      assert Possible(c, s', run) && !NimUntil(c, s', run, s.now + c.Ttl());
    }
  }

  /** With failover off every pick is NIM, whatever is cached. */
  lemma {:induction false} OffMeansNim(c: Config, s: State, run: seq<Step>, deadline: real)
    requires !c.failover && s.picks == map[] && Possible(c, s, run)
    ensures NimUntil(c, s, run, deadline)
    decreases |run|
  {
    if run != [] {
      OffMeansNim(c, Do(c, s, run[0]), run[1..], deadline);
    }
  }
}
