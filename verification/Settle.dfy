/** Waiting for asynchronous work: polling a run, probing a turn's task, and re-reading failed
    database asserts until the work is over. Instants and durations are in milliseconds. */
module Settle {
  import opened Common
  import opened World
  import opened Store
  import opened Verdicts

  const RUN_POLL := 1_500
  const SETTLE_CEILING := 900_000
  const SPAWN_GRACE := 90_000
  const SETTLE_POLL := 5_000

  type History = nat -> Db

  // ---------------------------------------------------------------- polling the run

  predicate HasStatus(db: Db, run: string, status: string) {
    run in db.runs && db.runs[run] == status
  }

  /** What one poll of a run did: its window and the instants at which it looked for the row. */
  datatype Poll = Poll(from: nat, looks: seq<nat>, to: nat)

  /** The looks are in the window and the polling interval apart. */
  ghost predicate Spaced(looks: seq<nat>, interval: nat, from: nat, to: nat) {
    && (forall k :: 0 <= k < |looks| ==> from <= looks[k] <= to)
    && (forall k :: 0 < k < |looks| ==> looks[k - 1] + interval <= looks[k])
  }

  /** As many rounds as fit into a limit when each takes an interval, and one more. */
  predicate Few(n: nat, interval: nat, limit: nat) {
    n * interval < limit + interval
  }

  /** The run was not seen to have ended. */
  predicate Unfinished(db: Db, run: string) {
    run !in db.runs || db.runs[run] == RUNNING
  }

  /** No status: the whole timeout passed and no look found the row. RUNNING: the timeout passed,
      some look found the row, and all that did saw it running. Any other status: the last look saw
      it, and no look before had. */
  ghost predicate Polled(h: History, run: string, timeout: nat, status: Option<string>, poll: Poll) {
    var n := |poll.looks|;
    && Spaced(poll.looks, RUN_POLL, poll.from, poll.to) && Few(n, RUN_POLL, timeout)
    && match status
       case None =>
         && poll.to >= poll.from + timeout
         && (forall k :: 0 <= k < n ==> run !in h(poll.looks[k]).runs)
       case Some(v) =>
         if v == RUNNING then
           && poll.to >= poll.from + timeout
           && (forall k :: 0 <= k < n ==> Unfinished(h(poll.looks[k]), run))
           && (exists k :: 0 <= k < n && HasStatus(h(poll.looks[k]), run, RUNNING))
         else
           && n > 0 && HasStatus(h(poll.looks[n - 1]), run, v)
           && (forall k :: 0 <= k < n - 1 ==> Unfinished(h(poll.looks[k]), run))
  }

  /** The looks that were followed by a sleep: all but one that ended the poll. */
  function PollSleeps(status: Option<string>, poll: Poll): nat {
    if status.None? || status.value == RUNNING || poll.looks == [] then |poll.looks| else |poll.looks| - 1
  }

  /** A poll that has not ended yet. */
  ghost predicate StillPolling(h: History, run: string, status: Option<string>, looks: seq<nat>, from: nat, now: nat) {
    && Spaced(looks, RUN_POLL, from, now)
    && (looks != [] ==> looks[|looks| - 1] + RUN_POLL <= now)
    && (status.None? || status == Some(RUNNING))
    && (status.None? ==> forall k :: 0 <= k < |looks| ==> run !in h(looks[k]).runs)
    && (forall k :: 0 <= k < |looks| ==> Unfinished(h(looks[k]), run))
    && (status.Some? ==> exists k :: 0 <= k < |looks| && HasStatus(h(looks[k]), run, RUNNING))
  }

  /** The status known after a look: the row's, if there is one. */
  function StatusAt(db: Db, run: string, before: Option<string>): Option<string> {
    if run in db.runs then Some(db.runs[run]) else before
  }

  lemma LookOn(h: History, run: string, status: Option<string>, looks: seq<nat>, from: nat, at: nat)
    requires StillPolling(h, run, status, looks, from, at) && from <= at && Unfinished(h(at), run)
    ensures StillPolling(h, run, StatusAt(h(at), run, status), looks + [at], from, at + RUN_POLL)
  {
    var more := looks + [at];
    assert more[|looks|] == at;
    if status.Some? {
      var k :| 0 <= k < |looks| && HasStatus(h(looks[k]), run, RUNNING);
      assert HasStatus(h(more[k]), run, RUNNING);
    }
    if run in h(at).runs {
      assert HasStatus(h(more[|looks|]), run, RUNNING);
    }
  }

  lemma LookLast(
      h: History, run: string, timeout: nat, status: Option<string>, looks: seq<nat>, from: nat, at: nat)
    requires StillPolling(h, run, status, looks, from, at) && from <= at && !Unfinished(h(at), run)
    requires Few(|looks| + 1, RUN_POLL, timeout)
    ensures Polled(h, run, timeout, StatusAt(h(at), run, status), Poll(from, looks + [at], at))
  {
    var more := looks + [at];
    assert HasStatus(h(more[|looks|]), run, h(at).runs[run]);
    assert forall k :: 0 <= k < |looks| ==> more[k] == looks[k];
  }

  lemma PollEnds(h: History, run: string, timeout: nat, status: Option<string>, looks: seq<nat>, from: nat, now: nat)
    requires StillPolling(h, run, status, looks, from, now) && now >= from + timeout && Few(|looks|, RUN_POLL, timeout)
    ensures Polled(h, run, timeout, status, Poll(from, looks, now))
  {
  }

  lemma PollWaits(h: History, run: string, status: Option<string>, looks: seq<nat>, from: nat, now: nat, later: nat)
    requires StillPolling(h, run, status, looks, from, now) && now <= later
    ensures StillPolling(h, run, status, looks, from, later)
  {
  }

  /** The body of the polling loop: look for the run's row, and sleep unless the run has ended. */
  method LookForRun(
      w: World<Db>, run: string, timeout: nat, before: Option<string>, ghost looks: seq<nat>, ghost from: nat)
      returns (status: Option<string>, ended: bool, ghost at: nat)
    requires StillPolling(w.history, run, before, looks, from, w.now) && from <= w.now
    requires Few(|looks| + 1, RUN_POLL, timeout)
    modifies w
    ensures old(w.now) <= at <= w.now
    ensures ended ==> Polled(w.history, run, timeout, status, Poll(from, looks + [at], w.now))
    ensures ended ==> w.slept == old(w.slept) && status.Some? && status.value != RUNNING
    ensures !ended ==> StillPolling(w.history, run, status, looks + [at], from, w.now)
    ensures !ended ==> w.slept == old(w.slept) + RUN_POLL && w.now >= at + RUN_POLL
  {
    ghost var start := w.now;
    var db := w.Observe();
    at := w.now;
    PollWaits(w.history, run, before, looks, from, start, at);
    status, ended := StatusAt(db, run, before), !Unfinished(db, run);
    if ended {
      LookLast(w.history, run, timeout, before, looks, from, at);
    } else {
      LookOn(w.history, run, before, looks, from, at);
      w.Sleep(RUN_POLL);
      w.Elapse();
      PollWaits(w.history, run, status, looks + [at], from, at + RUN_POLL, w.now);
    }
  }

  /** `_poll_run_status` */
  method PollRunStatus(w: World<Db>, run: string, timeout: nat) returns (status: Option<string>, ghost poll: Poll)
    modifies w
    ensures old(w.now) <= poll.from && poll.to == w.now && old(w.now) <= w.now
    ensures Polled(w.history, run, timeout, status, poll)
    ensures w.slept == old(w.slept) + RUN_POLL * PollSleeps(status, poll)
  {
    w.Elapse();
    ghost var from := w.now;
    var deadline := w.now + timeout;
    ghost var looks: seq<nat> := [];
    status := None;
    w.Elapse();
    while w.now < deadline
      invariant deadline == from + timeout && old(w.now) <= from && w.now >= from + |looks| * RUN_POLL
      invariant Few(|looks|, RUN_POLL, timeout)
      invariant StillPolling(w.history, run, status, looks, from, w.now)
      invariant w.slept == old(w.slept) + RUN_POLL * |looks|
      decreases deadline - w.now
    {
      var ended;
      ghost var at;
      status, ended, at := LookForRun(w, run, timeout, status, looks, from);
      looks := looks + [at];
      if ended {
        return status, Poll(from, looks, w.now);
      }
    }
    PollEnds(w.history, run, timeout, status, looks, from, w.now);
    poll := Poll(from, looks, w.now);
  }

  // ---------------------------------------------------------------- probing the turn's work

  /** One probe: asked at an instant with or without grace, it either ran into a failing statement,
      or made two statements about the turn's own task, or one about the whole tenant. */
  datatype Probe =
    | Failed(asked: nat, grace: bool, at: nat)
    | OfTurn(asked: nat, grace: bool, first: nat, second: nat)
    | OfTenant(asked: nat, grace: bool, at: nat)
  {
    function End(): nat {
      match this
      case Failed(_, _, at) => at
      case OfTurn(_, _, _, second) => second
      case OfTenant(_, _, at) => at
    }
  }

  /** What a probe reports; an error is always reported as work in flight. */
  predicate InFlight(h: History, tenant: string, sid: Option<string>, p: Probe) {
    match p
    case Failed(_, _, _) => true
    case OfTurn(_, grace, first, second) =>
      sid.Some? && (TurnProducing(h(first), tenant, sid.value) || (!TurnHasTask(h(second), tenant, sid.value) && grace))
    case OfTenant(_, grace, at) => TenantProducing(h(at), tenant) || grace
  }

  /** The probe's statements lie in this window, in order; they were answered, unless it failed, and
      then one was not. Without a MessageSid it is about the tenant. */
  predicate AskedWithin(h: History, p: Probe, sid: Option<string>, from: nat, to: nat) {
    from <= p.asked && p.End() <= to &&
    match p
    case Failed(asked, _, at) => asked <= at && !h(at).up
    case OfTurn(asked, _, first, second) => sid.Some? && asked <= first <= second && h(first).up && h(second).up
    case OfTenant(asked, _, at) => sid.None? && asked <= at && h(at).up
  }

  predicate Composing(t: Task) {
    t.status in {"planned", "running", "verifying"}
  }

  /** A probe that fails says work; one about a turn says work exactly if its first statement saw a task of
      the turn's message composing, or its second saw no task of it and the grace lasts; one about the
      tenant, if some task of the tenant was composing or the grace lasts. */
  lemma ProbeAnswersExactly(h: History, tenant: string, sid: Option<string>, p: Probe)
    ensures p.Failed? ==> InFlight(h, tenant, sid, p)
    ensures p.OfTurn? && sid.Some? ==>
              (InFlight(h, tenant, sid, p) <==>
                 || (exists t :: t in h(p.first).tasks && t.tenant == tenant && t.sourceRef == sid && Composing(t))
                 || (p.grace && forall t :: t in h(p.second).tasks ==> !(t.tenant == tenant && t.sourceRef == sid)))
    ensures p.OfTenant? ==>
              (InFlight(h, tenant, sid, p) <==>
                 p.grace || exists t :: t in h(p.at).tasks && t.tenant == tenant && Composing(t))
  {
    assert forall t: Task :: Producing(t.status) == Composing(t);
  }

  /** `_turn_work_in_flight`: connection and statements run at their own instants, any may fail. */
  method TurnWorkInFlight(w: World<Db>, tenant: string, sid: Option<string>, grace: bool)
      returns (inFlight: bool, ghost p: Probe)
    modifies w
    ensures w.now >= old(w.now) && w.slept == old(w.slept)
    ensures inFlight == InFlight(w.history, tenant, sid, p)
    ensures AskedWithin(w.history, p, sid, old(w.now), w.now) && p.asked == old(w.now) && p.grace == grace
  {
    ghost var asked := w.now;
    var db := w.Observe();
    if !db.up {
      return true, Failed(asked, grace, w.now);
    }
    db := w.Observe();
    if !db.up {
      return true, Failed(asked, grace, w.now);
    }
    ghost var first := w.now;
    if sid.None? {
      return TenantProducing(db, tenant) || grace, OfTenant(asked, grace, first);
    }
    if TurnProducing(db, tenant, sid.value) {
      return true, OfTurn(asked, grace, first, first);
    }
    db := w.Observe();
    if !db.up {
      return true, Failed(asked, grace, w.now);
    }
    p := OfTurn(asked, grace, first, w.now);
    if TurnHasTask(db, tenant, sid.value) {
      return false, p;
    }
    return grace, p;
  }

  // ---------------------------------------------------------------- settling

  datatype SettleState = Settled | Terminal | Indeterminate

  /** What a settling did: when it started and ended, every probe it made, and the instant of the
      reading that followed each probe. */
  datatype Trace = Trace(started: nat, probes: seq<Probe>, readings: seq<nat>, ended: nat)

  function ProbeSid(asserts: DbAsserts, sid: Option<string>): Option<string> {
    if asserts.TenantWide() then None else sid
  }

  /** The probe asks about the whole tenant if the turn has no MessageSid or any of its asserts is
      tenant-wide, and else about the turn's own task. */
  lemma ProbeScopeExactly(asserts: DbAsserts, sid: Option<string>)
    ensures ProbeSid(asserts, sid) ==
            if (asserts.route.Some? && asserts.route.value.tenantWide)
               || (asserts.effects.Some? && asserts.effects.value.tenantWide == Some(true))
               || (asserts.grounded.Some? && asserts.grounded.value.tenantWide) then None
            else sid
  {
  }

  ghost predicate AllInFlight(h: History, tenant: string, sid: Option<string>, probes: seq<Probe>) {
    forall k :: 0 <= k < |probes| ==> InFlight(h, tenant, sid, probes[k])
  }

  /** The `k`th round: a probe asked after the round before it had been read, with grace just as long
      as the spawn grace lasts, and then a reading, after one polling interval if work was in flight. */
  ghost predicate Round(h: History, tenant: string, sid: Option<string>, t: Trace, k: nat)
    requires k < |t.probes| == |t.readings|
  {
    var p := t.probes[k];
    && AskedWithin(h, p, sid, if k == 0 then t.started else t.readings[k - 1], t.readings[k])
    && p.grace == (p.asked < t.started + SPAWN_GRACE)
    && p.End() + (if InFlight(h, tenant, sid, p) then SETTLE_POLL else 0) <= t.readings[k] <= t.ended
  }

  ghost predicate Rounds(h: History, tenant: string, sid: Option<string>, t: Trace) {
    && |t.probes| == |t.readings| && t.started <= t.ended
    && (forall k :: 0 <= k < |t.probes| ==> Round(h, tenant, sid, t, k))
  }

  /** What the asserts answer at each instant. */
  function Answers(
      h: History, tenant: string, run: Option<string>, asserts: DbAsserts, sid: Option<string>): nat -> seq<Failure>
  {
    (u: nat) => EvaluateDbAsserts(h(u), tenant, run, asserts, sid)
  }

  function LastAnswer(answers: nat -> seq<Failure>, t: Trace, initial: seq<Failure>): seq<Failure> {
    if t.readings == [] then initial else answers(t.readings[|t.readings| - 1])
  }

  /** The failures as the settling last read them; before any probe those it began with. */
  function LastRead(
      h: History, tenant: string, run: Option<string>, asserts: DbAsserts, sid: Option<string>, t: Trace,
      initial: seq<Failure>): seq<Failure>
  {
    LastAnswer(Answers(h, tenant, run, asserts, sid), t, initial)
  }

  /** What a state means. Settled: no failure is left. Terminal: the last probe, and no other, saw
      no work in flight. Indeterminate: failures are left, the ceiling has passed, and every probe
      saw work in flight. */
  ghost predicate StateMeans(
      h: History, tenant: string, sid: Option<string>, t: Trace, remaining: seq<Failure>, state: SettleState)
  {
    var n := |t.probes|;
    match state
    case Settled => remaining == [] && AllInFlight(h, tenant, sid, t.probes)
    case Indeterminate =>
      remaining != [] && AllInFlight(h, tenant, sid, t.probes) && t.ended >= t.started + SETTLE_CEILING
    case Terminal =>
      n > 0 && AllInFlight(h, tenant, sid, t.probes[..n - 1]) && !InFlight(h, tenant, sid, t.probes[n - 1])
  }

  ghost predicate SettledAs(
      h: History, tenant: string, run: Option<string>, asserts: DbAsserts, sid: Option<string>, t: Trace,
      initial: seq<Failure>, remaining: seq<Failure>, state: SettleState)
  {
    && Rounds(h, tenant, ProbeSid(asserts, sid), t)
    && StateMeans(h, tenant, ProbeSid(asserts, sid), t, remaining, state)
    && remaining == LastRead(h, tenant, run, asserts, sid, t, initial)
    && FailingTillLast(Answers(h, tenant, run, asserts, sid), t, initial)
    && Few(|t.probes|, SETTLE_POLL, SETTLE_CEILING)
  }

  /** Only a failing reading is followed by another round. */
  ghost predicate FailingTillLast(answers: nat -> seq<Failure>, t: Trace, initial: seq<Failure>) {
    && (t.readings != [] ==> initial != [])
    && (forall k :: 0 <= k < |t.readings| - 1 ==> answers(t.readings[k]) != [])
  }

  /** The readings that were followed by a sleep: all but that of a terminal verdict. */
  function SettleSleeps(t: Trace, state: SettleState): nat {
    if state.Terminal? && t.probes != [] then |t.probes| - 1 else |t.probes|
  }

  lemma RoundAdded(h: History, tenant: string, sid: Option<string>, t: Trace, p: Probe, read: nat)
    requires Rounds(h, tenant, sid, t)
    requires AskedWithin(h, p, sid, t.ended, read) && p.grace == (p.asked < t.started + SPAWN_GRACE)
    requires p.End() + (if InFlight(h, tenant, sid, p) then SETTLE_POLL else 0) <= read
    ensures Rounds(h, tenant, sid, Trace(t.started, t.probes + [p], t.readings + [read], read))
  {
    var more := Trace(t.started, t.probes + [p], t.readings + [read], read);
    forall k | 0 <= k < |more.probes| ensures Round(h, tenant, sid, more, k) {
      if k < |t.probes| {
        assert Round(h, tenant, sid, t, k);
        assert more.probes[k] == t.probes[k] && more.readings[k] == t.readings[k];
        assert k > 0 ==> more.readings[k - 1] == t.readings[k - 1];
      } else {
        assert k > 0 ==> Round(h, tenant, sid, t, k - 1) && more.readings[k - 1] == t.readings[k - 1];
      }
    }
  }

  /** The body of the settling loop: probe, then either decide or sleep, and read again. */
  method ProbeAndRead(
      w: World<Db>, tenant: string, run: Option<string>, asserts: DbAsserts, sid: Option<string>, started: nat)
      returns (terminal: bool, remaining: seq<Failure>, ghost p: Probe)
    requires started <= w.now
    modifies w
    ensures remaining == EvaluateDbAsserts(w.history(w.now), tenant, run, asserts, sid)
    ensures terminal == !InFlight(w.history, tenant, ProbeSid(asserts, sid), p)
    ensures AskedWithin(w.history, p, ProbeSid(asserts, sid), old(w.now), w.now)
    ensures p.grace == (p.asked < started + SPAWN_GRACE)
    ensures p.End() + (if terminal then 0 else SETTLE_POLL) <= w.now
    ensures w.slept == old(w.slept) + if terminal then 0 else SETTLE_POLL
  {
    w.Elapse();
    var inFlight;
    inFlight, p := TurnWorkInFlight(w, tenant, ProbeSid(asserts, sid), w.now - started < SPAWN_GRACE);
    terminal := !inFlight;
    if inFlight {
      w.Sleep(SETTLE_POLL);
    }
    var db := w.Observe();
    remaining := EvaluateDbAsserts(db, tenant, run, asserts, sid);
  }

  /** A settling that has not ended yet. */
  ghost predicate Underway(
      h: History, tenant: string, run: Option<string>, asserts: DbAsserts, sid: Option<string>, t: Trace,
      initial: seq<Failure>, remaining: seq<Failure>)
  {
    && Rounds(h, tenant, ProbeSid(asserts, sid), t)
    && AllInFlight(h, tenant, ProbeSid(asserts, sid), t.probes)
    && remaining == LastRead(h, tenant, run, asserts, sid, t, initial)
    && FailingTillLast(Answers(h, tenant, run, asserts, sid), t, initial)
  }

  lemma ProbeAdded(h: History, tenant: string, sid: Option<string>, probes: seq<Probe>, p: Probe)
    requires AllInFlight(h, tenant, sid, probes)
    ensures InFlight(h, tenant, sid, p) ==> AllInFlight(h, tenant, sid, probes + [p])
    ensures AllInFlight(h, tenant, sid, (probes + [p])[..|probes|])
  {
    assert (probes + [p])[..|probes|] == probes;
  }

  lemma ReadingAdded(
      answers: nat -> seq<Failure>, t: Trace, initial: seq<Failure>, p: Probe, read: nat)
    requires LastAnswer(answers, t, initial) != [] && FailingTillLast(answers, t, initial)
    ensures
      var more := Trace(t.started, t.probes + [p], t.readings + [read], read);
      LastAnswer(answers, more, initial) == answers(read) && FailingTillLast(answers, more, initial)
  {
    var readings := t.readings + [read];
    forall k | 0 <= k < |readings| - 1 ensures answers(readings[k]) != [] {
      assert readings[k] == t.readings[k];
    }
  }

  lemma Later(
      h: History, tenant: string, run: Option<string>, asserts: DbAsserts, sid: Option<string>, t: Trace,
      initial: seq<Failure>, remaining: seq<Failure>, ended: nat)
    requires Underway(h, tenant, run, asserts, sid, t, initial, remaining) && t.ended <= ended
    ensures Underway(h, tenant, run, asserts, sid, t.(ended := ended), initial, remaining)
  {
    var probeSid := ProbeSid(asserts, sid);
    forall k | 0 <= k < |t.probes| ensures Round(h, tenant, probeSid, t.(ended := ended), k) {
      assert Round(h, tenant, probeSid, t, k);
    }
  }

  lemma SettlingEnds(
      h: History, tenant: string, run: Option<string>, asserts: DbAsserts, sid: Option<string>, t: Trace,
      initial: seq<Failure>, remaining: seq<Failure>)
    requires Underway(h, tenant, run, asserts, sid, t, initial, remaining)
    requires remaining == [] || t.ended >= t.started + SETTLE_CEILING
    requires Few(|t.probes|, SETTLE_POLL, SETTLE_CEILING)
    ensures SettledAs(h, tenant, run, asserts, sid, t, initial, remaining, if remaining
            == [] then Settled else Indeterminate)
  {
  }

  /** One more round of a settling that is still failing. */
  method NextRound(
      w: World<Db>, tenant: string, run: Option<string>, asserts: DbAsserts, sid: Option<string>, started: nat,
      ghost initial: seq<Failure>, ghost before: seq<Failure>, ghost t: Trace)
      returns (terminal: bool, remaining: seq<Failure>, ghost more: Trace)
    requires Underway(w.history, tenant, run, asserts, sid, t, initial, before) && before != []
    requires started == t.started && t.ended <= w.now && Few(|t.probes| + 1, SETTLE_POLL, SETTLE_CEILING)
    modifies w
    ensures more.started == started && more.ended == w.now && |more.probes| == |t.probes| + 1
    ensures terminal ==> SettledAs(w.history, tenant, run, asserts, sid, more, initial, remaining, Terminal)
    ensures terminal ==> w.now >= old(w.now) && w.slept == old(w.slept)
    ensures !terminal ==> Underway(w.history, tenant, run, asserts, sid, more, initial, remaining)
    ensures !terminal ==> w.now >= old(w.now) + SETTLE_POLL && w.slept == old(w.slept) + SETTLE_POLL
  {
    ghost var p;
    terminal, remaining, p := ProbeAndRead(w, tenant, run, asserts, sid, started);
    more := Trace(started, t.probes + [p], t.readings + [w.now], w.now);
    RoundAdded(w.history, tenant, ProbeSid(asserts, sid), t, p, w.now);
    ProbeAdded(w.history, tenant, ProbeSid(asserts, sid), t.probes, p);
    ReadingAdded(Answers(w.history, tenant, run, asserts, sid), t, initial, p, w.now);
  }

  /** `_settle_db_asserts` */
  method SettleDbAsserts(
      w: World<Db>, tenant: string, run: Option<string>, asserts: DbAsserts, sid: Option<string>,
      dbFailures: seq<Failure>)
      returns (remaining: seq<Failure>, state: SettleState, ghost t: Trace)
    modifies w
    ensures old(w.now) <= t.started && t.ended == w.now && old(w.now) <= w.now
    ensures SettledAs(w.history, tenant, run, asserts, sid, t, dbFailures, remaining, state)
    ensures w.slept == old(w.slept) + SETTLE_POLL * SettleSleeps(t, state)
  {
    w.Elapse();
    var started := w.now;
    remaining := dbFailures;
    w.Elapse();
    t := Trace(started, [], [], w.now);
    while remaining != [] && w.now < started + SETTLE_CEILING
      invariant t.started == started && old(w.now) <= started && t.ended == w.now
      invariant w.now >= started + |t.probes| * SETTLE_POLL
      invariant Few(|t.probes|, SETTLE_POLL, SETTLE_CEILING)
      invariant Underway(w.history, tenant, run, asserts, sid, t, dbFailures, remaining)
      invariant w.slept == old(w.slept) + SETTLE_POLL * |t.probes|
      decreases started + SETTLE_CEILING - w.now
    {
      var terminal;
      terminal, remaining, t := NextRound(w, tenant, run, asserts, sid, started, dbFailures, remaining, t);
      if terminal {
        return remaining, Terminal, t;
      }
      w.Elapse();
      Later(w.history, tenant, run, asserts, sid, t, dbFailures, remaining, w.now);
      t := t.(ended := w.now);
    }
    state := if remaining == [] then Settled else Indeterminate;
    SettlingEnds(w.history, tenant, run, asserts, sid, t, dbFailures, remaining);
  }

  // ---------------------------------------------------------------- is a terminal verdict final?

  /** A turn whose single task is spawned at `spawn` and leaves the producing states at `done`. */
  ghost predicate Lifecycle(h: History, tenant: string, sid: string, spawn: nat, done: nat) {
    spawn <= done && forall t: nat ::
      && (t < spawn ==> !TurnHasTask(h(t), tenant, sid))
      && (spawn <= t ==> TurnHasTask(h(t), tenant, sid))
      && (TurnProducing(h(t), tenant, sid) <==> spawn <= t < done)
  }

  /** A tenant some of whose tasks produce exactly between `spawn` and `done`. */
  ghost predicate TenantLifecycle(h: History, tenant: string, spawn: nat, done: nat) {
    spawn <= done && forall t: nat :: TenantProducing(h(t), tenant) <==> spawn <= t < done
  }

  /** The asserts give the same answer at both instants. */
  ghost predicate SameAnswer(
      h: History, tenant: string, run: Option<string>, asserts: DbAsserts, sid: Option<string>, t: nat, u: nat)
  {
    EvaluateDbAsserts(h(t), tenant, run, asserts, sid) == EvaluateDbAsserts(h(u), tenant, run, asserts, sid)
  }

  /** From `done` on the rows the asserts read stay as they are. */
  ghost predicate FrozenFrom(
      h: History, tenant: string, run: Option<string>, asserts: DbAsserts, sid: Option<string>, done: nat)
  {
    forall t: nat :: t >= done ==> SameAnswer(h, tenant, run, asserts, sid, t, done)
  }

  /** The spawn fell between the two statements of the probe: the first found nothing producing yet,
      the second found the task that had just begun. */
  predicate Straddles(p: Probe, spawn: nat) {
    p.OfTurn? && p.first < spawn <= p.second
  }

  /** A turn probe that reports no work is wrong exactly when it straddles the spawn, or when the
      grace had run out before the task was spawned at all. */
  lemma WrongTurnProbeExactly(h: History, tenant: string, sid: string, spawn: nat, done: nat, p: Probe)
    requires Lifecycle(h, tenant, sid, spawn, done) && p.OfTurn? && p.first <= p.second < done
    ensures !InFlight(h, tenant, Some(sid), p) <==> Straddles(p, spawn) || (p.second < spawn && !p.grace)
  {
    assert TurnProducing(h(p.first), tenant, sid) <==> spawn <= p.first < done;
  }

  /** The probe that ended a terminal settling, and the reading that followed it. */
  ghost predicate EndsOn(h: History, tenant: string, sid: Option<string>, t: Trace, p: Probe, read: nat) {
    && !InFlight(h, tenant, sid, p) && AskedWithin(h, p, sid, t.started, read)
    && p.grace == (p.asked < t.started + SPAWN_GRACE) && p.End() <= read <= t.ended
  }

  lemma StartsBefore(h: History, tenant: string, sid: Option<string>, t: Trace, k: nat)
    requires Rounds(h, tenant, sid, t) && k < |t.probes|
    ensures t.started <= t.readings[k]
    decreases k
  {
    assert Round(h, tenant, sid, t, k);
    if k > 0 {
      StartsBefore(h, tenant, sid, t, k - 1);
    }
  }

  lemma LastRoundEnds(h: History, tenant: string, sid: Option<string>, t: Trace)
    requires Rounds(h, tenant, sid, t) && t.probes != [] && !InFlight(h, tenant, sid, t.probes[|t.probes| - 1])
    ensures t.readings != []
    ensures EndsOn(h, tenant, sid, t, t.probes[|t.probes| - 1], t.readings[|t.readings| - 1])
  {
    var last := |t.probes| - 1;
    assert Round(h, tenant, sid, t, last);
    if last > 0 {
      StartsBefore(h, tenant, sid, t, last - 1);
    }
  }

  lemma TerminalEndsOn(
      h: History, tenant: string, run: Option<string>, asserts: DbAsserts, sid: Option<string>, t: Trace,
      initial: seq<Failure>, remaining: seq<Failure>)
    requires SettledAs(h, tenant, run, asserts, sid, t, initial, remaining, Terminal)
    ensures t.probes != [] && t.readings != []
    ensures EndsOn(h, tenant, ProbeSid(asserts, sid), t, t.probes[|t.probes| - 1], t.readings[|t.readings| - 1])
    ensures remaining == EvaluateDbAsserts(h(t.readings[|t.readings| - 1]), tenant, run, asserts, sid)
  {
    LastRoundEnds(h, tenant, ProbeSid(asserts, sid), t);
  }

  lemma ReadWhenDone(h: History, tenant: string, sid: string, t: Trace, p: Probe, read: nat, spawn: nat, done: nat)
    requires Lifecycle(h, tenant, sid, spawn, done) && spawn <= t.started + SPAWN_GRACE
    requires EndsOn(h, tenant, Some(sid), t, p, read) && !Straddles(p, spawn)
    ensures read >= done
  {
    if p.second < done {
      WrongTurnProbeExactly(h, tenant, sid, spawn, done, p);
    }
  }

  /** Settling is sound but for one race. When the task is spawned within the grace and its rows are
      committed by the time it is done, the failures of a terminal verdict are those of every state
      from its last reading on, unless the last probe straddled the spawn. */
  lemma TerminalVerdictIsFinal(
      h: History, tenant: string, run: Option<string>, asserts: DbAsserts, sid: string, t: Trace,
      initial: seq<Failure>, remaining: seq<Failure>, spawn: nat, done: nat, later: nat)
    requires Lifecycle(h, tenant, sid, spawn, done) && FrozenFrom(h, tenant, run, asserts, Some(sid), done)
    requires spawn <= t.started + SPAWN_GRACE && !asserts.TenantWide()
    requires SettledAs(h, tenant, run, asserts, Some(sid), t, initial, remaining, Terminal) && later >= t.ended
    requires t.probes != [] ==> !Straddles(t.probes[|t.probes| - 1], spawn)
    ensures EvaluateDbAsserts(h(later), tenant, run, asserts, Some(sid)) == remaining
  {
    TerminalEndsOn(h, tenant, run, asserts, Some(sid), t, initial, remaining);
    var read := t.readings[|t.readings| - 1];
    ReadWhenDone(h, tenant, sid, t, t.probes[|t.probes| - 1], read, spawn, done);
    assert SameAnswer(h, tenant, run, asserts, Some(sid), read, done);
    assert SameAnswer(h, tenant, run, asserts, Some(sid), later, done);
  }

  /** Where the asserts' answer really changes when the work is done, a terminal verdict is wrong
      exactly when its probe straddled the spawn and the reading came before the work was done. */
  lemma TerminalVerdictWrongExactly(
      h: History, tenant: string, run: Option<string>, asserts: DbAsserts, sid: string, t: Trace,
      initial: seq<Failure>, remaining: seq<Failure>, spawn: nat, done: nat)
    requires Lifecycle(h, tenant, sid, spawn, done) && FrozenFrom(h, tenant, run, asserts, Some(sid), done)
    requires forall u: nat :: u < done ==> !SameAnswer(h, tenant, run, asserts, Some(sid), u, done)
    requires spawn <= t.started + SPAWN_GRACE && !asserts.TenantWide()
    requires SettledAs(h, tenant, run, asserts, Some(sid), t, initial, remaining, Terminal)
    ensures t.probes != [] && t.readings != []
    ensures remaining != EvaluateDbAsserts(h(done), tenant, run, asserts, Some(sid))
       <==> Straddles(t.probes[|t.probes| - 1], spawn) && t.readings[|t.readings| - 1] < done
  {
    TerminalEndsOn(h, tenant, run, asserts, Some(sid), t, initial, remaining);
    var p, read := t.probes[|t.probes| - 1], t.readings[|t.readings| - 1];
    if !Straddles(p, spawn) {
      ReadWhenDone(h, tenant, sid, t, p, read, spawn, done);
    }
    assert SameAnswer(h, tenant, run, asserts, Some(sid), read, done) <==> read >= done;
  }

  /** Tenant-wide settling asks one statement per probe and has no such race. */
  lemma TenantWideVerdictIsFinal(
      h: History, tenant: string, run: Option<string>, asserts: DbAsserts, sid: Option<string>, t: Trace,
      initial: seq<Failure>, remaining: seq<Failure>, spawn: nat, done: nat, later: nat)
    requires TenantLifecycle(h, tenant, spawn, done) && FrozenFrom(h, tenant, run, asserts, sid, done)
    requires spawn <= t.started + SPAWN_GRACE && asserts.TenantWide()
    requires SettledAs(h, tenant, run, asserts, sid, t, initial, remaining, Terminal) && later >= t.ended
    ensures EvaluateDbAsserts(h(later), tenant, run, asserts, sid) == remaining
  {
    TerminalEndsOn(h, tenant, run, asserts, sid, t, initial, remaining);
    var p, read := t.probes[|t.probes| - 1], t.readings[|t.readings| - 1];
    assert TenantProducing(h(p.at), tenant) <==> spawn <= p.at < done;
    assert SameAnswer(h, tenant, run, asserts, sid, read, done);
    assert SameAnswer(h, tenant, run, asserts, sid, later, done);
  }

  // A history in which the race really produces a false routing verdict.

  const RACE_ASSERTS := DbAsserts(Some(RouteSpec(true, false)), None, None)

  function RaceHistory(t: nat): Db {
    var status := if t < 20 then "running" else "waiting_owner";
    Db(map["t" := 0], map[],
       if t < 20 then [] else [Campaign("t", "c", "r", 20, None)],
       [], [],
       if t < 10 then [] else [Task("task", "t", Some("s"), status, None)],
       [], true)
  }

  lemma RaceLifecycle()
    ensures Lifecycle(RaceHistory, "t", "s", 10, 20)
  {
    forall t: nat
      ensures (t < 10 ==> !TurnHasTask(RaceHistory(t), "t", "s")) && (10 <= t ==> TurnHasTask(RaceHistory(t), "t", "s"))
      ensures TurnProducing(RaceHistory(t), "t", "s") <==> 10 <= t < 20
    {
      if t >= 10 {
        var task := RaceHistory(t).tasks[0];
        assert task in RaceHistory(t).tasks;
      }
    }
  }

  lemma RaceRoute(t: nat)
    ensures EvaluateDbAsserts(RaceHistory(t), "t", Some("r"), RACE_ASSERTS, Some("s"))
            == (if t < 20 then [Route(true)] else [])
  {
    var db := RaceHistory(t);
    var keep := (c: Campaign) => CampaignMatches(db, "t", Some("r"), Some("s"), c);
    if t >= 20 {
      var c := Campaign("t", "c", "r", 20, None);
      assert c in db.campaigns && keep(c);
      assert c in Filter(keep, db.campaigns);
    } else {
      assert Filter(keep, db.campaigns) == [];
    }
  }

  const RACE := Trace(0, [OfTurn(9, true, 9, 10)], [10], 10)

  lemma RaceSettles()
    ensures SettledAs(RaceHistory, "t", Some("r"), RACE_ASSERTS, Some("s"), RACE, [Route(true)], [Route(true)],
            Terminal)
  {
    RaceLifecycle();
    WrongTurnProbeExactly(RaceHistory, "t", "s", 10, 20, OfTurn(9, true, 9, 10));
    RaceRoute(10);
    assert Round(RaceHistory, "t", Some("s"), RACE, 0);
  }

  /** A probe at instants 9 and 10 straddles the spawn; the terminal verdict read at 10 claims that
      nothing was delegated, although the task it just saw delegates at 20. */
  lemma SpawnRaceFabricatesAVerdict()
    ensures SettledAs(RaceHistory, "t", Some("r"), RACE_ASSERTS, Some("s"), RACE, [Route(true)], [Route(true)],
            Terminal)
    ensures forall later: nat :: later >= 20 ==>
              EvaluateDbAsserts(RaceHistory(later), "t", Some("r"), RACE_ASSERTS, Some("s")) == []
  {
    RaceSettles();
    forall later: nat | later >= 20
      ensures EvaluateDbAsserts(RaceHistory(later), "t", Some("r"), RACE_ASSERTS, Some("s")) == []
    {
      RaceRoute(later);
    }
  }
}
