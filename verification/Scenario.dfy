/** Running a scenario: the first pass over the steps, the late-reply sweep, the re-evaluation, the
    money checks, and the exit code. */
module Scenario {
  import opened Common
  import opened World
  import opened Store
  import opened Verdicts
  import opened Settle
  import opened Sweep
  import opened Transport

  /** What a run of the harness fixes once: text handling, the run id derived from a MessageSid, the
      product's own extractor of stated send counts, and how long a turn's run is polled. */
  datatype Setting = Setting(
    rules: Rules,
    runIdFor: string -> string,
    stated: string -> Option<int>,
    timeout: nat)

  function Expected(step: Step, scenarioXfail: bool): bool {
    match step.expectedFail
    case Some(b) => b
    case None => scenarioXfail
  }

  // ---------------------------------------------------------------- one turn

  /** `is_real_twilio_sid` */
  predicate RealSid(sid: Option<string>) {
    sid.Some? && |sid.value| >= 2 && sid.value[0] in {'S', 's', 'M', 'm'} && sid.value[1] in {'M', 'm'}
  }

  function BreachingTurns(turns: seq<Turn>): nat {
    |Filter((t: Turn) => IsAssistant(t) && RealSid(t.sid), turns)|
  }

  function BreachReasons(turns: seq<Turn>): seq<Failure> {
    if BreachingTurns(turns) > 0 then [Breach(BreachingTurns(turns))] else []
  }

  function Marker(delegated: bool): Turn {
    Turn("system", if delegated then "[internal route: sales_recovery]" else "[internal route: none]", None)
  }

  /** The injected message, the new rows without its own recording, and the route marker. */
  function Transcript(message: string, sid: string, new_: seq<Turn>, delegated: bool): seq<Turn> {
    [Turn("owner", message, Some(sid))]
    + Filter((t: Turn) => !(t.role == "owner" && t.sid == Some(sid)), new_)
    + [Marker(delegated)]
  }

  predicate NoRunReason(reason: string) {
    reason in {"unknown_sender", "rate_limit_exceeded", "error_logged"} || "http_" <= reason
  }

  /** How the message went out: over which network, whether the ingress had seen its MessageSid, and
      when it was first posted and answered. */
  datatype Post = Post(network: nat -> Delivery, known: bool, sentAt: nat, answeredAt: nat)

  /** The instants of one turn: the reading of the log before the message went out, the post, the poll
      of its run if it had one, the reading of the log after it, and the lookup of its campaign. */
  datatype Window = Window(before: nat, post: Post, poll: Option<Poll>, after: nat, marked: nat)

  predicate WindowInOrder(win: Window) {
    && win.before <= win.post.sentAt <= win.post.answeredAt <= win.after <= win.marked
    && (win.poll.Some? ==> win.post.answeredAt <= win.poll.value.from <= win.poll.value.to <= win.after)
  }

  /** The message is handled by the ingress, now or later. */
  predicate HandledIn(win: Window) {
    Reached(win.post.network, Attempts(win.post.network, 0))
  }

  /** The runs that the message starts: one, or none. */
  function StartedIn(r: StepResult, win: Window): seq<string> {
    if r.sid.Some? && HandledIn(win) && !win.post.known then [r.sid.value] else []
  }

  /** The ingress reason is what the posts brought back. */
  predicate PostedIn(r: StepResult, win: Window) {
    Deliverable(win.post.network) && r.ingressReason == ReasonText(Answer(win.post.network, win.post.known))
  }

  /** A captured turn: what is in the log after the run that was not there before the message. */
  ghost predicate Captured(h: History, setting: Setting, tenant: string, message: string, r: StepResult, win: Window) {
    && r.sid.Some? && r.runId == setting.runIdFor(r.sid.value)
    && var new_ := TurnsOf(NewTurns(h(win.after), tenant, ConversationIds(h(win.before), tenant)));
       && r.transcript == Transcript(message, r.sid.value, new_,
                                     CampaignForRun(h(win.marked), tenant, Some(r.runId), r.sid).Some?)
       && r.reasons == BreachReasons(new_)
       && r.ok == (r.reasons == []) && !r.xfail && r.lbl == (if r.ok then PASS else FAIL)
  }

  /** The run was polled for its whole timeout or to its end, unless the ingress said there is none. */
  ghost predicate PolledIn(h: History, setting: Setting, r: StepResult, win: Window) {
    match win.poll
    case None => NoRunReason(r.ingressReason) && r.runStatus.None?
    case Some(poll) => !NoRunReason(r.ingressReason) && Polled(h, r.runId, setting.timeout, r.runStatus, poll)
  }

  function WindowSleeps(r: StepResult, win: Window): nat {
    BACKOFF * (Attempts(win.post.network, 0) - 1)
    + match win.poll
      case None => 0
      case Some(poll) => RUN_POLL * PollSleeps(r.runStatus, poll)
  }

  /** `_drive_turn`, over a network that answers at last. */
  method DriveTurn(
      w: World<Db>, ingress: Ingress, network: nat -> Delivery, setting: Setting, tenant: string, message: string)
      returns (r: StepResult, ghost win: Window)
    requires Deliverable(network)
    modifies w, ingress
    ensures old(w.now) <= win.before && WindowInOrder(win) && win.marked <= w.now
    ensures Captured(w.history, setting, tenant, message, r, win)
    ensures PostedIn(r, win) && PolledIn(w.history, setting, r, win)
    ensures win.post.network == network && win.post.known == (r.sid.value in old(ingress.seen))
    ensures ingress.seen == old(ingress.seen) + (if HandledIn(win) then {r.sid.value} else {})
    ensures ingress.started == old(ingress.started) + StartedIn(r, win)
    ensures w.slept == old(w.slept) + WindowSleeps(r, win)
  {
    var db := w.Observe();
    ghost var before := w.now;
    var seen := ConversationIds(db, tenant);
    var sid: string := *;
    ghost var known := sid in ingress.seen;
    var run := setting.runIdFor(sid);
    var reply, attempts := PostInbound(w, ingress, sid, network);
    ghost var post := Post(network, known, before, w.now);
    var reason := ReasonText(reply);
    var status: Option<string>;
    ghost var poll: Option<Poll>;
    status, poll := PollIfRun(w, setting, run, reason);
    db := w.Observe();
    ghost var after := w.now;
    var new_ := TurnsOf(NewTurns(db, tenant, seen));
    db := w.Observe();
    var delegated := CampaignForRun(db, tenant, Some(run), Some(sid)).Some?;
    var reasons := BreachReasons(new_);
    r := StepResult(reasons == [], false, if reasons == [] then PASS else FAIL, reasons,
                    Transcript(message, sid, new_, delegated), status, reason, run, Some(sid));
    win := Window(before, post, poll, after, w.now);
  }

  method PollIfRun(w: World<Db>, setting: Setting, run: string, reason: string)
      returns (status: Option<string>, ghost poll: Option<Poll>)
    modifies w
    ensures w.now >= old(w.now)
    ensures poll.None? <==> NoRunReason(reason)
    ensures poll.None? ==> status.None? && w.slept == old(w.slept)
    ensures poll.Some? ==>
              && old(w.now) <= poll.value.from <= poll.value.to <= w.now
              && Polled(w.history, run, setting.timeout, status, poll.value)
              && w.slept == old(w.slept) + RUN_POLL * PollSleeps(status, poll.value)
  {
    if NoRunReason(reason) {
      return None, None;
    }
    ghost var p;
    status, p := PollRunStatus(w, run, setting.timeout);
    poll := Some(p);
    assert p.from <= p.to;
  }

  // ---------------------------------------------------------------- the first pass

  /** The verdict on one captured turn, given its text failures and its database failures as they
      stand after settling. */
  function Judge(
      step: Step, scenarioXfail: bool, turn: StepResult, text: seq<Failure>, db: seq<Failure>,
      state: SettleState): StepResult
  {
    if turn.reasons != [] then
      turn.(ok := false, xfail := false, lbl := FAIL, sid := None)
    else if step.noSilent && ReplyVerdict(turn.transcript, turn.runStatus) == Timeout then
      turn.(ok := false, xfail := false, lbl := TIMEOUT, reasons := [TimedOut], sid := None)
    else if db != [] && state == Indeterminate then
      turn.(ok := false, xfail := false, lbl := INDETERMINATE, reasons := [Unsettled] + (text + db), sid := None)
    else
      var c := ClassifyStep(text + db, Expected(step, scenarioXfail));
      turn.(ok := c.ok, xfail := c.xfail, lbl := c.lbl, reasons := text + db, sid := None)
  }

  /** A dictionary of effect checks that is present but empty declares nothing to settle for. */
  predicate DeclaresEffects(asserts: DbAsserts) {
    asserts.effects.Some? &&
    var e := asserts.effects.value;
    e.tenantWide.Some? || e.campaign.Some? || e.decision.Some? || e.sent.Some? || e.sentAtLeast.Some?
  }

  predicate DeclaresSettling(asserts: DbAsserts) {
    DeclaresEffects(asserts) || asserts.grounded.Some? || asserts.route.Some?
  }

  /** Everything behind one step's first verdict: the captured turn and its instants, and the database
      failures with the first reading and the settling, if any, that they came out of. */
  datatype Record = Record(
    started: nat,
    turn: StepResult,
    win: Window,
    readAt: nat,
    settling: Option<Trace>,
    db: seq<Failure>,
    state: SettleState,
    ended: nat)

  /** The turn comes first, then the reading of the database, then the settling. */
  predicate Timely(rec: Record) {
    && rec.started <= rec.win.before && WindowInOrder(rec.win) && rec.win.marked <= rec.readAt <= rec.ended
    && (rec.settling.Some? ==> rec.readAt <= rec.settling.value.started && rec.settling.value.ended <= rec.ended)
  }

  function Sid(rec: Record): string {
    if rec.turn.sid.Some? then rec.turn.sid.value else ""
  }

  /** What a step's message adds to the MessageSids the ingress has seen. */
  function SeenIn(rec: Record): set<string> {
    if HandledIn(rec.win) then {Sid(rec)} else {}
  }

  function RecordSleeps(rec: Record): nat {
    WindowSleeps(rec.turn, rec.win)
    + match rec.settling
      case None => 0
      case Some(t) => SETTLE_POLL * SettleSleeps(t, rec.state)
  }

  predicate SkipsAsserts(step: Step, turn: StepResult) {
    turn.reasons != [] || (step.noSilent && ReplyVerdict(turn.transcript, turn.runStatus) == Timeout)
  }

  /** The recorded database failures are those of the one reading made after the turn or, where that
      failed and the step declares something to settle, what the settling came to. */
  ghost predicate ReallyRead(h: History, tenant: string, step: Step, rec: Record) {
    var run, sid := Some(rec.turn.runId), rec.turn.sid;
    var initial := EvaluateDbAsserts(h(rec.readAt), tenant, run, step.db, sid);
    if SkipsAsserts(step, rec.turn) then rec.db == [] && rec.state == Settled && rec.settling.None?
    else
      match rec.settling
      case None => rec.state == Settled && rec.db == initial && (initial == [] || !DeclaresSettling(step.db))
      case Some(t) =>
        && initial != [] && DeclaresSettling(step.db)
        && SettledAs(h, tenant, run, step.db, sid, t, initial, rec.db, rec.state)
  }

  datatype Aspect = Capture | Posting | Polling | Reading | Verdict | Timing

  ghost predicate JudgedIn(
      h: History, setting: Setting, tenant: string, step: Step, scenarioXfail: bool, rec: Record, r: StepResult,
      a: Aspect)
  {
    match a
    case Capture => Captured(h, setting, tenant, step.message, rec.turn, rec.win)
    case Posting => PostedIn(rec.turn, rec.win)
    case Polling => PolledIn(h, setting, rec.turn, rec.win)
    case Reading => ReallyRead(h, tenant, step, rec)
    case Verdict =>
      r == Judge(step, scenarioXfail, rec.turn,
                 TextFailures(setting.rules, rec.turn.transcript, rec.turn.runStatus, step), rec.db, rec.state)
    case Timing => Timely(rec)
  }

  /** `r` is the judgement of the recorded turn: captured, posted, polled, read and judged as the code
      does, in that order. */
  ghost predicate Judged(
      h: History, setting: Setting, tenant: string, step: Step, scenarioXfail: bool, rec: Record, r: StepResult)
  {
    forall a: Aspect :: JudgedIn(h, setting, tenant, step, scenarioXfail, rec, r, a)
  }

  lemma JudgedInAll(
      h: History, setting: Setting, tenant: string, step: Step, scenarioXfail: bool, rec: Record, r: StepResult)
    requires Captured(h, setting, tenant, step.message, rec.turn, rec.win) && PostedIn(rec.turn, rec.win)
    requires PolledIn(h, setting, rec.turn, rec.win) && ReallyRead(h, tenant, step, rec) && Timely(rec)
    requires r == Judge(step, scenarioXfail, rec.turn,
                        TextFailures(setting.rules, rec.turn.transcript, rec.turn.runStatus, step), rec.db, rec.state)
    ensures Judged(h, setting, tenant, step, scenarioXfail, rec, r)
  {
    forall a: Aspect ensures JudgedIn(h, setting, tenant, step, scenarioXfail, rec, r, a) {
      match a
      case Capture =>
      case Posting =>
      case Polling =>
      case Reading =>
      case Verdict =>
      case Timing =>
    }
  }

  /** The body of the step loop. */
  method RunStep(
      w: World<Db>, ingress: Ingress, network: nat -> Delivery, setting: Setting, tenant: string, step: Step,
      scenarioXfail: bool)
      returns (r: StepResult, ghost rec: Record)
    requires Deliverable(network)
    modifies w, ingress
    ensures old(w.now) <= rec.started && rec.ended == w.now
    ensures Judged(w.history, setting, tenant, step, scenarioXfail, rec, r)
    ensures rec.win.post.network == network && rec.win.post.known == (Sid(rec) in old(ingress.seen))
    ensures ingress.seen == old(ingress.seen) + SeenIn(rec)
    ensures ingress.started == old(ingress.started) + StartedIn(rec.turn, rec.win)
    ensures w.slept == old(w.slept) + RecordSleeps(rec)
  {
    ghost var started := w.now;
    var turn;
    ghost var win;
    turn, win := DriveTurn(w, ingress, network, setting, tenant, step.message);
    var text := EvaluateAssertions(setting.rules, turn.transcript, turn.runStatus, step);
    var db, state;
    ghost var readAt, settling;
    db, state, readAt, settling := ReadUnlessSkipped(w, tenant, step, turn);
    r := Judge(step, scenarioXfail, turn, text, db, state);
    rec := Record(started, turn, win, readAt, settling, db, state, w.now);
    JudgedInAll(w.history, setting, tenant, step, scenarioXfail, rec, r);
  }

  /** No reading where a breach or a timeout decides. */
  method ReadUnlessSkipped(w: World<Db>, tenant: string, step: Step, turn: StepResult)
      returns (db: seq<Failure>, state: SettleState, ghost readAt: nat, ghost settling: Option<Trace>)
    modifies w
    ensures old(w.now) <= readAt <= w.now
    ensures settling.Some? ==> readAt <= settling.value.started && settling.value.ended <= w.now
    ensures forall started, win, ended ::
              ReallyRead(w.history, tenant, step, Record(started, turn, win, readAt, settling, db, state, ended))
    ensures w.slept == old(w.slept) + match settling case None => 0 case Some(t) => SETTLE_POLL * SettleSleeps(t, state)
  {
    if SkipsAsserts(step, turn) {
      return [], Settled, w.now, None;
    }
    db, state, readAt, settling := ReadDatabase(w, tenant, step, turn);
  }

  /** The first reading of a step's database asserts and, where it fails, its settling. */
  method ReadDatabase(w: World<Db>, tenant: string, step: Step, turn: StepResult)
      returns (db: seq<Failure>, state: SettleState, ghost readAt: nat, ghost settling: Option<Trace>)
    requires !SkipsAsserts(step, turn)
    modifies w
    ensures old(w.now) <= readAt <= w.now
    ensures settling.Some? ==> readAt <= settling.value.started && settling.value.ended <= w.now
    ensures forall started, win, ended ::
              ReallyRead(w.history, tenant, step, Record(started, turn, win, readAt, settling, db, state, ended))
    ensures w.slept == old(w.slept) + match settling case None => 0 case Some(t) => SETTLE_POLL * SettleSleeps(t, state)
  {
    var now := w.Observe();
    readAt, settling, state := w.now, None, Settled;
    db := EvaluateDbAsserts(now, tenant, Some(turn.runId), step.db, turn.sid);
    if db != [] && DeclaresSettling(step.db) {
      ghost var t;
      db, state, t := SettleDbAsserts(w, tenant, Some(turn.runId), step.db, turn.sid, db);
      settling := Some(t);
    }
  }

  // ---------------------------------------------------------------- the later phases

  /** A lone reply that only promises an answer. */
  predicate InterimOnly(rules: Rules, r: StepResult) {
    var texts := AssistantTexts(r.transcript);
    |texts| == 1 && exists i :: 0 <= i < |rules.interims| && Contains(texts[0], rules.interims[i])
  }

  predicate NeedsSweep(rules: Rules, steps: seq<Step>, results: seq<StepResult>) {
    (exists i :: 0 <= i < |steps| && (DeclaresEffects(steps[i].db) || steps[i].db.grounded.Some?))
    || (exists i :: 0 <= i < |results| && InterimOnly(rules, results[i]))
  }

  function AllTurns(results: seq<StepResult>): seq<Turn> {
    if results == [] then [] else AllTurns(results[..|results| - 1]) + results[|results| - 1].transcript
  }

  predicate Recheckable(step: Step, r: StepResult) {
    r.lbl == FAIL && (step.contains != [] || step.notD1 || step.isQuestion || Silent in r.reasons)
  }

  /** One step re-judged against the whole conversation: cleared completely, or left alone. */
  function Recheck(rules: Rules, step: Step, scenarioXfail: bool, r: StepResult, whole: seq<Turn>): StepResult {
    if Recheckable(step, r)
       && TextFailures(rules, whole, r.runStatus, step) + Filter((f: Failure) => FromDatabase(f), r.reasons) == []
    then
      var c := ClassifyStep([], Expected(step, scenarioXfail));
      r.(ok := c.ok, xfail := c.xfail, lbl := c.lbl, reasons := [], sid := None)
    else r
  }

  function Rechecked(
      rules: Rules, steps: seq<Step>, scenarioXfail: bool, results: seq<StepResult>,
      late: seq<Turn>): (after: seq<StepResult>)
    requires |steps| == |results|
    ensures |after| == |results|
    ensures forall i :: 0 <= i < |results| ==>
              after[i] == Recheck(rules, steps[i], scenarioXfail, results[i], AllTurns(results) + late)
  {
    var whole := AllTurns(results) + late;
    seq(|results|, i requires 0 <= i < |results| => Recheck(rules, steps[i], scenarioXfail, results[i], whole))
  }

  /** Replies with some text, from every transcript. */
  function ReplyTexts(results: seq<StepResult>): seq<string> {
    Filter((t: string) => t != "", AssistantTexts(AllTurns(results)))
  }

  function WithNets(results: seq<StepResult>, money: seq<Failure>): (after: seq<StepResult>)
    ensures |after| == |results|
  {
    if money == [] || results == [] then results
    else
      var last := results[|results| - 1];
      results[|results| - 1 := last.(ok := false, xfail := false, lbl := FAIL, reasons := last.reasons + money,
        sid := None)]
  }

  /** The results after sweep and re-evaluation, where these run at all. */
  function BeforeNets(
      rules: Rules, steps: seq<Step>, scenarioXfail: bool, first: seq<StepResult>, swept: bool,
      late: seq<Turn>): (r: seq<StepResult>)
    requires |steps| == |first|
    ensures |r| == |first|
  {
    if swept then Rechecked(rules, steps, scenarioXfail, WithLate(first, late), late) else first
  }

  /** The body of the re-evaluation loop. */
  method ReevaluateStep(rules: Rules, step: Step, scenarioXfail: bool, r: StepResult, whole: seq<Turn>)
      returns (after: StepResult)
    ensures after == Recheck(rules, step, scenarioXfail, r, whole)
  {
    if !Recheckable(step, r) {
      return r;
    }
    var content := EvaluateAssertions(rules, whole, r.runStatus, step);
    var kept := Filter((f: Failure) => FromDatabase(f), r.reasons);
    if content + kept != [] {
      return r;
    }
    var c := ClassifyStep([], Expected(step, scenarioXfail));
    after := r.(ok := c.ok, xfail := c.xfail, lbl := c.lbl, reasons := [], sid := None);
  }

  /** The re-evaluation loop, overwriting results in place. */
  method Reevaluate(
      rules: Rules, steps: seq<Step>, scenarioXfail: bool, results: seq<StepResult>, late: seq<Turn>)
      returns (after: seq<StepResult>)
    requires |steps| == |results|
    ensures after == Rechecked(rules, steps, scenarioXfail, results, late)
  {
    var whole := AllTurns(results) + late;
    after := results;
    for i := 0 to |steps|
      invariant |after| == |results|
      invariant forall j :: 0 <= j < i ==> after[j] == Recheck(rules, steps[j], scenarioXfail, results[j], whole)
      invariant forall j :: i <= j < |results| ==> after[j] == results[j]
    {
      var r := ReevaluateStep(rules, steps[i], scenarioXfail, after[i], whole);
      after := after[i := r];
    }
  }

  /** The three nets, each a statement of its own. */
  function NetsRead(
      h: History, tenant: string, stated: string -> Option<int>, replies: seq<string>,
      at: (nat, nat, nat)): seq<Failure>
  {
    AssertNoUnapproved(h(at.0), tenant) + AssertNoDoubleSend(h(at.1), tenant)
    + AssertStatedCount(h(at.2), tenant, stated, replies)
  }

  /** What a sweep did: its looks, its window, and how it ended. */
  datatype SweepTrace = SweepTrace(looks: seq<Look>, from: nat, to: nat, ending: Ending)

  /** Everything a run of the steps passed through on the way to its results. */
  datatype Passage = Passage(
    started: nat,
    seen: set<string>,  // what the ingress had seen before
    records: seq<Record>,
    first: seq<StepResult>,
    sweep: Option<SweepTrace>,
    late: seq<Turn>,
    netsAt: (nat, nat, nat),
    ended: nat)

  ghost predicate SweptFrom(h: History, tenant: string, p: Passage) {
    match p.sweep
    case None => p.late == []
    case Some(sweep) =>
      && SweptAs(h, tenant, sweep.looks, sweep.from, sweep.to, sweep.ending)
      && p.late == LateOf(p.first, sweep.ending)
  }

  /** The instant by which every step is over and the later phases begin. */
  function StepsOver(p: Passage): nat {
    match p.sweep
    case None => p.netsAt.0
    case Some(sweep) => sweep.from
  }

  /** Steps one after the other, then the sweep, then the money checks, all within the run. */
  ghost predicate PhasesInOrder(p: Passage) {
    && p.started <= StepsOver(p)
    && (forall i :: 0 <= i < |p.records| ==>
          p.started <= p.records[i].started && p.records[i].ended <= StepsOver(p))
    && (forall i :: 0 < i < |p.records| ==> p.records[i - 1].ended <= p.records[i].started)
    && (p.sweep.Some? ==> p.sweep.value.from <= p.sweep.value.to <= p.netsAt.0)
    && p.netsAt.0 <= p.netsAt.1 <= p.netsAt.2 <= p.ended
  }

  datatype Phase = Steps | Posts | Sweeping | Nets | Order

  ghost predicate FollowsIn(
      h: History, setting: Setting, tenant: string, steps: seq<Step>, scenarioXfail: bool, p: Passage,
      results: seq<StepResult>, phase: Phase)
    requires |p.first| == |p.records| == |steps|
  {
    match phase
    case Steps => AllJudged(h, setting, tenant, steps, scenarioXfail, p.records, p.first)
    case Posts => PostsInOrder(p.records, p.seen)
    case Sweeping => p.sweep.Some? == NeedsSweep(setting.rules, steps, p.first) && SweptFrom(h, tenant, p)
    case Nets =>
      var settled := BeforeNets(setting.rules, steps, scenarioXfail, p.first, p.sweep.Some?, p.late);
      results == WithNets(settled, NetsRead(h, tenant, setting.stated, ReplyTexts(settled), p.netsAt))
    case Order => PhasesInOrder(p)
  }

  /** The results come out of the phases as the code runs them, one result per step throughout. */
  ghost predicate Follows(
      h: History, setting: Setting, tenant: string, steps: seq<Step>, scenarioXfail: bool, p: Passage,
      results: seq<StepResult>)
  {
    && |results| == |p.first| == |p.records| == |steps|
    && (forall phase: Phase :: FollowsIn(h, setting, tenant, steps, scenarioXfail, p, results, phase))
  }

  ghost predicate JudgedAt(
      h: History, setting: Setting, tenant: string, steps: seq<Step>, scenarioXfail: bool, records: seq<Record>,
      first: seq<StepResult>, i: nat)
    requires i < |first| == |records| <= |steps|
  {
    Judged(h, setting, tenant, steps[i], scenarioXfail, records[i], first[i])
  }

  /** Every step reached so far is judged. */
  ghost predicate AllJudged(
      h: History, setting: Setting, tenant: string, steps: seq<Step>, scenarioXfail: bool, records: seq<Record>,
      first: seq<StepResult>)
  {
    && |first| == |records| <= |steps|
    && (forall i :: 0 <= i < |records| ==> JudgedAt(h, setting, tenant, steps, scenarioXfail, records, first, i))
  }

  lemma JudgedSnoc(
      h: History, setting: Setting, tenant: string, steps: seq<Step>, scenarioXfail: bool, records: seq<Record>,
      first: seq<StepResult>, rec: Record, r: StepResult)
    requires |records| < |steps| && AllJudged(h, setting, tenant, steps, scenarioXfail, records, first)
    requires Judged(h, setting, tenant, steps[|records|], scenarioXfail, rec, r)
    ensures AllJudged(h, setting, tenant, steps, scenarioXfail, records + [rec], first + [r])
  {
    forall i | 0 <= i < |records| + 1
      ensures JudgedAt(h, setting, tenant, steps, scenarioXfail, records + [rec], first + [r], i)
    {
      if i < |records| {
        assert JudgedAt(h, setting, tenant, steps, scenarioXfail, records, first, i);
      }
    }
  }

  /** Records one after the other, within a window. */
  ghost predicate RecordsInOrder(records: seq<Record>, from: nat, to: nat) {
    && from <= to
    && (forall i :: 0 <= i < |records| ==> from <= records[i].started && records[i].ended <= to)
    && (forall i :: 0 < i < |records| ==> records[i - 1].ended <= records[i].started)
  }

  lemma OrderSnoc(records: seq<Record>, from: nat, to: nat, rec: Record)
    requires RecordsInOrder(records, from, to) && to <= rec.started <= rec.ended
    ensures RecordsInOrder(records + [rec], from, rec.ended)
  {
  }

  /** What the ingress has seen after these steps, and the runs they started. */
  function SeenAfter(records: seq<Record>, seen: set<string>): set<string> {
    if records == [] then seen else SeenAfter(records[..|records| - 1], seen) + SeenIn(records[|records| - 1])
  }

  function AllRuns(records: seq<Record>): seq<string> {
    if records == [] then []
    else
      var last := records[|records| - 1];
      AllRuns(records[..|records| - 1]) + StartedIn(last.turn, last.win)
  }

  /** All messages go to the one ingress, in step order. */
  ghost predicate PostsInOrder(records: seq<Record>, seen: set<string>) {
    forall i :: 0 <= i < |records| ==> records[i].win.post.known == (Sid(records[i]) in SeenAfter(records[..i], seen))
  }

  lemma PostsSnoc(records: seq<Record>, seen: set<string>, rec: Record)
    requires PostsInOrder(records, seen) && rec.win.post.known == (Sid(rec) in SeenAfter(records, seen))
    ensures PostsInOrder(records + [rec], seen)
    ensures SeenAfter(records + [rec], seen) == SeenAfter(records, seen) + SeenIn(rec)
    ensures AllRuns(records + [rec]) == AllRuns(records) + StartedIn(rec.turn, rec.win)
  {
    var more := records + [rec];
    assert more[..|records|] == records;
    forall i | 0 <= i < |more| ensures more[i].win.post.known == (Sid(more[i]) in SeenAfter(more[..i], seen)) {
      if i < |records| {
        assert more[..i] == records[..i] && more[i] == records[i];
      }
    }
  }

  function AllSleeps(records: seq<Record>): nat {
    if records == [] then 0 else AllSleeps(records[..|records| - 1]) + RecordSleeps(records[|records| - 1])
  }

  lemma SleepsSnoc(records: seq<Record>, rec: Record)
    ensures AllSleeps(records + [rec]) == AllSleeps(records) + RecordSleeps(rec)
  {
    assert (records + [rec])[..|records|] == records;
  }

  /** Each message goes over its own network. */
  ghost predicate Over(records: seq<Record>, networks: seq<nat -> Delivery>) {
    |records| <= |networks| && forall i :: 0 <= i < |records| ==> records[i].win.post.network == networks[i]
  }

  datatype Account = Clock | Messages | Memory | Runs | Sleep

  ghost predicate AccountedIn(
      records: seq<Record>, from: nat, to: nat, seen0: set<string>, seen: set<string>, runs: seq<string>, sleeps: nat,
      a: Account)
  {
    match a
    case Clock => RecordsInOrder(records, from, to)
    case Messages => PostsInOrder(records, seen0)
    case Memory => seen == SeenAfter(records, seen0)
    case Runs => runs == AllRuns(records)
    case Sleep => sleeps == AllSleeps(records)
  }

  /** All that is kept account of while the steps run. */
  ghost predicate Accounted(
      records: seq<Record>, from: nat, to: nat, seen0: set<string>, seen: set<string>, runs: seq<string>, sleeps: nat)
  {
    forall a: Account :: AccountedIn(records, from, to, seen0, seen, runs, sleeps, a)
  }

  lemma NothingAccounted(now: nat, seen: set<string>)
    ensures Accounted([], now, now, seen, seen, [], 0)
  {
  }

  lemma AccountsHold(
      records: seq<Record>, from: nat, to: nat, seen0: set<string>, seen: set<string>, runs: seq<string>, sleeps: nat)
    requires Accounted(records, from, to, seen0, seen, runs, sleeps)
    ensures RecordsInOrder(records, from, to) && PostsInOrder(records, seen0)
    ensures seen == SeenAfter(records, seen0) && runs == AllRuns(records) && sleeps == AllSleeps(records)
  {
    assert AccountedIn(records, from, to, seen0, seen, runs, sleeps, Clock);
    assert AccountedIn(records, from, to, seen0, seen, runs, sleeps, Messages);
    assert AccountedIn(records, from, to, seen0, seen, runs, sleeps, Memory);
    assert AccountedIn(records, from, to, seen0, seen, runs, sleeps, Runs);
    assert AccountedIn(records, from, to, seen0, seen, runs, sleeps, Sleep);
  }

  lemma AccountedSnoc(
      records: seq<Record>, from: nat, to: nat, seen0: set<string>, seen: set<string>, runs: seq<string>, sleeps: nat,
      rec: Record)
    requires Accounted(records, from, to, seen0, seen, runs, sleeps)
    requires to <= rec.started <= rec.ended && rec.win.post.known == (Sid(rec) in seen)
    ensures Accounted(records + [rec], from, rec.ended, seen0, seen + SeenIn(rec),
                      runs + StartedIn(rec.turn, rec.win), sleeps + RecordSleeps(rec))
  {
    AccountsHold(records, from, to, seen0, seen, runs, sleeps);
    OrderSnoc(records, from, to, rec);
    PostsSnoc(records, seen0, rec);
    SleepsSnoc(records, rec);
  }

  /** Everything the harness itself sleeps in a run. */
  function PassageSleeps(p: Passage): nat {
    AllSleeps(p.records)
    + match p.sweep
      case None => 0
      case Some(sweep) => SWEEP_POLL * SweepSleeps(sweep.looks, sweep.ending)
  }

  /** The loop over the steps. */
  method FirstPass(
      w: World<Db>, ingress: Ingress, networks: seq<nat -> Delivery>, setting: Setting, tenant: string,
      steps: seq<Step>, scenarioXfail: bool)
      returns (results: seq<StepResult>, ghost records: seq<Record>, ghost runs: seq<string>, ghost sleeps: nat)
    requires |networks| == |steps| && forall i :: 0 <= i < |networks| ==> Deliverable(networks[i])
    modifies w, ingress
    ensures |records| == |steps| && AllJudged(w.history, setting, tenant, steps, scenarioXfail, records, results)
    ensures Over(records, networks)
    ensures Accounted(records, old(w.now), w.now, old(ingress.seen), ingress.seen, runs, sleeps)
    ensures ingress.started == old(ingress.started) + runs && w.slept == old(w.slept) + sleeps
  {
    results, records, runs, sleeps := [], [], [], 0;
    NothingAccounted(w.now, ingress.seen);
    for i := 0 to |steps|
      invariant |records| == i && AllJudged(w.history, setting, tenant, steps, scenarioXfail, records, results)
      invariant Over(records, networks)
      invariant Accounted(records, old(w.now), w.now, old(ingress.seen), ingress.seen, runs, sleeps)
      invariant ingress.started == old(ingress.started) + runs && w.slept == old(w.slept) + sleeps
    {
      ghost var before, seen := w.now, ingress.seen;
      var r;
      ghost var rec;
      r, rec := RunStep(w, ingress, networks[i], setting, tenant, steps[i], scenarioXfail);
      JudgedSnoc(w.history, setting, tenant, steps, scenarioXfail, records, results, rec, r);
      assert Timely(rec) by {
        assert JudgedIn(w.history, setting, tenant, steps[i], scenarioXfail, rec, r, Timing);
      }
      AccountedSnoc(records, old(w.now), before, old(ingress.seen), seen, runs, sleeps, rec);
      results, records := results + [r], records + [rec];
      runs, sleeps := runs + StartedIn(rec.turn, rec.win), sleeps + RecordSleeps(rec);
    }
  }

  /** The three money nets, one statement after the other, folded into the last result. */
  method ApplyNets(w: World<Db>, setting: Setting, tenant: string, settled: seq<StepResult>)
      returns (results: seq<StepResult>, ghost at: (nat, nat, nat))
    modifies w
    ensures old(w.now) <= at.0 <= at.1 <= at.2 <= w.now && w.slept == old(w.slept)
    ensures results == WithNets(settled, NetsRead(w.history, tenant, setting.stated, ReplyTexts(settled), at))
  {
    var replies := ReplyTexts(settled);
    var db := w.Observe();
    ghost var t0 := w.now;
    var money := AssertNoUnapproved(db, tenant);
    db := w.Observe();
    ghost var t1 := w.now;
    money := money + AssertNoDoubleSend(db, tenant);
    db := w.Observe();
    money := money + AssertStatedCount(db, tenant, setting.stated, replies);
    at := (t0, t1, w.now);
    results := settled;
    if money != [] && results != [] {
      var last := results[|results| - 1];
      results := results[|results| - 1 :=
        last.(ok := false, xfail := false, lbl := FAIL, reasons := last.reasons + money, sid := None)];
    }
  }

  /** The sweep and the re-evaluation after it. */
  method CatchUp(
      w: World<Db>, setting: Setting, tenant: string, steps: seq<Step>, scenarioXfail: bool, first: seq<StepResult>)
      returns (settled: seq<StepResult>, late: seq<Turn>, ghost sweep: SweepTrace)
    requires |steps| == |first|
    modifies w
    ensures settled == Rechecked(setting.rules, steps, scenarioXfail, WithLate(first, late), late)
    ensures old(w.now) <= sweep.from && sweep.to == w.now
    ensures SweptAs(w.history, tenant, sweep.looks, sweep.from, sweep.to, sweep.ending)
    ensures late == LateOf(first, sweep.ending)
    ensures w.slept == old(w.slept) + SWEEP_POLL * SweepSleeps(sweep.looks, sweep.ending)
  {
    ghost var looks, from, e;
    settled, late, looks, from, e := SweepLateReplies(w, tenant, first);
    sweep := SweepTrace(looks, from, w.now, e);
    settled := Reevaluate(setting.rules, steps, scenarioXfail, settled, late);
  }

  /** Everything after the steps: sweep and re-evaluation where they apply, then the money checks. */
  method FinishRun(
      w: World<Db>, setting: Setting, tenant: string, steps: seq<Step>, scenarioXfail: bool, first: seq<StepResult>,
      ghost started: nat, ghost seen: set<string>, ghost records: seq<Record>)
      returns (results: seq<StepResult>, ghost p: Passage)
    requires |first| == |records| == |steps| && RecordsInOrder(records, started, w.now)
    modifies w
    ensures p.started == started && p.seen == seen && p.records == records && p.first == first && p.ended == w.now
    ensures |results| == |steps|
    ensures FollowsIn(w.history, setting, tenant, steps, scenarioXfail, p, results, Sweeping)
    ensures FollowsIn(w.history, setting, tenant, steps, scenarioXfail, p, results, Nets)
    ensures FollowsIn(w.history, setting, tenant, steps, scenarioXfail, p, results, Order)
    ensures w.slept == old(w.slept) + PassageSleeps(p) - AllSleeps(records)
  {
    var settled, late: seq<Turn> := first, [];
    ghost var sweep: Option<SweepTrace> := None;
    if NeedsSweep(setting.rules, steps, first) {
      ghost var trace;
      settled, late, trace := CatchUp(w, setting, tenant, steps, scenarioXfail, first);
      sweep := Some(trace);
    }
    ghost var at;
    results, at := ApplyNets(w, setting, tenant, settled);
    p := Passage(started, seen, records, first, sweep, late, at, w.now);
  }

  /** `run_scenario_steps` */
  method RunScenarioSteps(
      w: World<Db>, ingress: Ingress, networks: seq<nat -> Delivery>, setting: Setting, tenant: string,
      steps: seq<Step>, scenarioXfail: bool)
      returns (results: seq<StepResult>, ghost p: Passage)
    requires |networks| == |steps| && forall i :: 0 <= i < |networks| ==> Deliverable(networks[i])
    modifies w, ingress
    ensures p.started == old(w.now) && p.ended == w.now && p.seen == old(ingress.seen)
    ensures Follows(w.history, setting, tenant, steps, scenarioXfail, p, results)
    ensures forall i :: 0 <= i < |steps| ==> p.records[i].win.post.network == networks[i]
    ensures ingress.started == old(ingress.started) + AllRuns(p.records)
    ensures w.slept == old(w.slept) + PassageSleeps(p)
  {
    ghost var started, seen := w.now, ingress.seen;
    var first;
    ghost var records, runs, sleeps;
    first, records, runs, sleeps := FirstPass(w, ingress, networks, setting, tenant, steps, scenarioXfail);
    AccountsHold(records, started, w.now, seen, ingress.seen, runs, sleeps);
    results, p := FinishRun(w, setting, tenant, steps, scenarioXfail, first, started, seen, records);
    assert FollowsIn(w.history, setting, tenant, steps, scenarioXfail, p, results, Steps);
    assert FollowsIn(w.history, setting, tenant, steps, scenarioXfail, p, results, Posts);
  }

  // ---------------------------------------------------------------- the exit code

  function CountLabel(results: seq<StepResult>, lbl: Label): nat {
    |Filter((r: StepResult) => r.lbl == lbl, results)|
  }

  function ExitCode(results: seq<StepResult>): nat {
    if CountLabel(results, FAIL) == 0 && CountLabel(results, TIMEOUT) == 0 then 0 else 1
  }

  lemma CountZero(results: seq<StepResult>, lbl: Label)
    ensures CountLabel(results, lbl) == 0 <==> forall i :: 0 <= i < |results| ==> results[i].lbl != lbl
  {
    var found := Filter((r: StepResult) => r.lbl == lbl, results);
    if found != [] {
      var r := found[0];
      assert r in found;
      var i :| 0 <= i < |results| && results[i] == r;
    }
    forall i | 0 <= i < |results| && results[i].lbl == lbl ensures results[i] in found {}
  }

  lemma ExitZeroExactly(results: seq<StepResult>)
    ensures ExitCode(results) == 0 <==>
            forall i :: 0 <= i < |results| ==> results[i].lbl != FAIL && results[i].lbl != TIMEOUT
  {
    CountZero(results, FAIL);
    CountZero(results, TIMEOUT);
  }
}
