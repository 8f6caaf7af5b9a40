/** What a run of the harness keeps from its first verdicts to its last, and what its exit code says
    about the database. */
module Phases {
  import opened Common
  import opened World
  import opened Store
  import opened Money
  import opened Verdicts
  import opened Settle
  import opened Sweep
  import opened Transport
  import opened Scenario

  // ---------------------------------------------------------------- one step through the phases

  /** The conversation the re-evaluation judges against; turns that arrived late occur in it twice. */
  function Whole(p: Passage): seq<Turn> {
    AllTurns(WithLate(p.first, p.late)) + p.late
  }

  /** When the re-evaluation clears a step: it failed, a content check or a silence is at stake, no check
      objects to the whole conversation, and the database failed nothing. */
  ghost predicate Cured(rules: Rules, step: Step, r: StepResult, whole: seq<Turn>) {
    && r.lbl == FAIL && (step.contains != [] || step.notD1 || step.isQuestion || Silent in r.reasons)
    && (forall f :: !Objects(rules, whole, r.runStatus, step, f))
    && (forall f :: f in r.reasons ==> !f.Route? && !f.SideEffect? && !f.Grounded? && !f.NoRun?)
  }

  function SettledResults(setting: Setting, steps: seq<Step>, scenarioXfail: bool, p: Passage): seq<StepResult>
    requires |p.first| == |steps|
  {
    BeforeNets(setting.rules, steps, scenarioXfail, p.first, p.sweep.Some?, p.late)
  }

  function MoneyFailures(
      h: History, setting: Setting, tenant: string, steps: seq<Step>, scenarioXfail: bool, p: Passage): seq<Failure>
    requires |p.first| == |steps|
  {
    NetsRead(h, tenant, setting.stated, ReplyTexts(SettledResults(setting, steps, scenarioXfail, p)), p.netsAt)
  }

  lemma RecheckExactly(rules: Rules, step: Step, scenarioXfail: bool, r: StepResult, whole: seq<Turn>)
    ensures
      var after := Recheck(rules, step, scenarioXfail, r, whole);
      if Cured(rules, step, r, whole) then
        after.reasons == [] && after.lbl == (if Expected(step, scenarioXfail) then XPASS else PASS)
      else after == r
  {
    var db := Filter((f: Failure) => FromDatabase(f), r.reasons);
    if db != [] {
      assert db[0] in db;
    }
    NoneObjects(rules, whole, r.runStatus, step);
  }

  lemma CuredAlike(rules: Rules, step: Step, a: StepResult, b: StepResult, whole: seq<Turn>)
    requires a.lbl == b.lbl && a.reasons == b.reasons && a.runStatus == b.runStatus
    ensures Cured(rules, step, a, whole) == Cured(rules, step, b, whole)
  {
  }

  lemma SweptExactly(rules: Rules, step: Step, scenarioXfail: bool, a: StepResult, r: StepResult, whole: seq<Turn>)
    requires a.lbl == r.lbl && a.reasons == r.reasons && a.runStatus == r.runStatus
    ensures
      var after := Recheck(rules, step, scenarioXfail, r, whole);
      if Cured(rules, step, a, whole) then
        after.reasons == [] && after.lbl == (if Expected(step, scenarioXfail) then XPASS else PASS)
      else after.lbl == a.lbl && after.reasons == a.reasons
  {
    RecheckExactly(rules, step, scenarioXfail, r, whole);
    CuredAlike(rules, step, a, r, whole);
  }

  /** A step before the money checks: cured, or as it was first judged. */
  lemma SettledExactly(setting: Setting, steps: seq<Step>, scenarioXfail: bool, p: Passage, i: nat)
    requires |p.first| == |steps| && i < |steps|
    ensures
      var after := SettledResults(setting, steps, scenarioXfail, p);
      |after| == |steps| &&
      if p.sweep.Some? && Cured(setting.rules, steps[i], p.first[i], Whole(p)) then
        after[i].reasons == [] && after[i].lbl == (if Expected(steps[i], scenarioXfail) then XPASS else PASS)
      else after[i].lbl == p.first[i].lbl && after[i].reasons == p.first[i].reasons
  {
    if p.sweep.Some? {
      SweptExactly(setting.rules, steps[i], scenarioXfail, p.first[i], WithLate(p.first, p.late)[i], Whole(p));
    }
  }

  lemma StepJudged(
      h: History, setting: Setting, tenant: string, steps: seq<Step>, scenarioXfail: bool, p: Passage,
      results: seq<StepResult>, i: nat)
    requires Follows(h, setting, tenant, steps, scenarioXfail, p, results) && i < |steps|
    ensures Judged(h, setting, tenant, steps[i], scenarioXfail, p.records[i], p.first[i])
  {
    assert FollowsIn(h, setting, tenant, steps, scenarioXfail, p, results, Steps);
    assert JudgedAt(h, setting, tenant, steps, scenarioXfail, p.records, p.first, i);
  }

  lemma ResultsAreNetted(
      h: History, setting: Setting, tenant: string, steps: seq<Step>, scenarioXfail: bool, p: Passage,
      results: seq<StepResult>)
    requires Follows(h, setting, tenant, steps, scenarioXfail, p, results)
    ensures results == WithNets(SettledResults(setting, steps, scenarioXfail, p),
                                MoneyFailures(h, setting, tenant, steps, scenarioXfail, p))
  {
    assert FollowsIn(h, setting, tenant, steps, scenarioXfail, p, results, Nets);
  }

  lemma NetsAt(settled: seq<StepResult>, money: seq<Failure>, i: nat)
    requires i < |settled|
    ensures WithNets(settled, money)[i].lbl == (if i == |settled| - 1 && money != [] then FAIL else settled[i].lbl)
    ensures settled[i].reasons <= WithNets(settled, money)[i].reasons
  {
  }

  /** The final label of every step, from its first one. */
  lemma FinalLabelExactly(
      h: History, setting: Setting, tenant: string, steps: seq<Step>, scenarioXfail: bool, p: Passage,
      results: seq<StepResult>, i: nat)
    requires Follows(h, setting, tenant, steps, scenarioXfail, p, results) && i < |steps|
    ensures |results| == |steps|
    ensures results[i].lbl ==
      if i == |steps| - 1 && MoneyFailures(h, setting, tenant, steps, scenarioXfail, p) != [] then FAIL
      else if p.sweep.Some? && Cured(setting.rules, steps[i], p.first[i], Whole(p)) then
        (if Expected(steps[i], scenarioXfail) then XPASS else PASS)
      else p.first[i].lbl
  {
    ResultsAreNetted(h, setting, tenant, steps, scenarioXfail, p, results);
    SettledExactly(setting, steps, scenarioXfail, p, i);
    NetsAt(SettledResults(setting, steps, scenarioXfail, p),
           MoneyFailures(h, setting, tenant, steps, scenarioXfail, p), i);
  }

  /** A first verdict of FAIL on a step that is expected to fail can only be a guard breach. */
  lemma FailedThoughExpected(
      h: History, setting: Setting, tenant: string, step: Step, scenarioXfail: bool, rec: Record, r: StepResult)
    requires Judged(h, setting, tenant, step, scenarioXfail, rec, r)
    requires r.lbl == FAIL && Expected(step, scenarioXfail)
    ensures r.reasons == rec.turn.reasons && |r.reasons| == 1 && r.reasons[0].Breach?
  {
    assert JudgedIn(h, setting, tenant, step, scenarioXfail, rec, r, Capture);
    assert JudgedIn(h, setting, tenant, step, scenarioXfail, rec, r, Verdict);
    CapturedReasons(h, setting, tenant, step.message, rec.turn, rec.win);
  }

  /** Labels over a whole run: nothing changes but a failure that the re-evaluation clears and a last
      step that the money checks fail; only a breach can be cleared into an unexpected pass, and
      neither a timeout nor an unmeasured step is ever upgraded. */
  lemma LabelDiscipline(
      h: History, setting: Setting, tenant: string, steps: seq<Step>, scenarioXfail: bool, p: Passage,
      results: seq<StepResult>, i: nat)
    requires Follows(h, setting, tenant, steps, scenarioXfail, p, results) && i < |steps|
    ensures |results| == |p.first| == |steps|
    ensures results[i].lbl != p.first[i].lbl ==>
              || (p.first[i].lbl == FAIL && results[i].lbl in {PASS, XPASS})
              || (results[i].lbl == FAIL && i == |steps| - 1)
    ensures p.first[i].lbl == FAIL && results[i].lbl == XPASS ==> exists n :: p.first[i].reasons == [Breach(n)]
    ensures p.first[i].lbl in {TIMEOUT, INDETERMINATE} ==> results[i].lbl in {p.first[i].lbl, FAIL}
  {
    FinalLabelExactly(h, setting, tenant, steps, scenarioXfail, p, results, i);
    StepJudged(h, setting, tenant, steps, scenarioXfail, p, results, i);
    if p.first[i].lbl == FAIL && results[i].lbl == XPASS {
      FailedThoughExpected(h, setting, tenant, steps[i], scenarioXfail, p.records[i], p.first[i]);
      assert p.first[i].reasons == [Breach(p.first[i].reasons[0].turns)];
    }
  }

  /** No database failure is lost on the way, nor does its step ever pass because of a later phase. */
  lemma DatabaseFailuresSurvive(
      h: History, setting: Setting, tenant: string, steps: seq<Step>, scenarioXfail: bool, p: Passage,
      results: seq<StepResult>, i: nat,
      f: Failure)
    requires Follows(h, setting, tenant, steps, scenarioXfail, p, results) && i < |steps|
    requires FromDatabase(f) && f in p.first[i].reasons
    ensures |results| == |steps| && f in results[i].reasons
    ensures results[i].lbl in {p.first[i].lbl, FAIL}
  {
    assert !Cured(setting.rules, steps[i], p.first[i], Whole(p));
    ResultsAreNetted(h, setting, tenant, steps, scenarioXfail, p, results);
    SettledExactly(setting, steps, scenarioXfail, p, i);
    NetsAt(SettledResults(setting, steps, scenarioXfail, p),
           MoneyFailures(h, setting, tenant, steps, scenarioXfail, p), i);
  }

  // ---------------------------------------------------------------- what the re-evaluation can cure

  lemma {:induction false} TurnsAround(results: seq<StepResult>, i: nat) returns (before: seq<Turn>, after: seq<Turn>)
    requires i < |results|
    ensures AllTurns(results) == before + results[i].transcript + after
  {
    var n := |results| - 1;
    if i == n {
      before, after := AllTurns(results[..n]), [];
    } else {
      before, after := TurnsAround(results[..n], i);
      after := after + results[n].transcript;
    }
  }

  /** The conversation is the transcripts one after the other, in step order. */
  lemma TurnsInStepOrder(a: seq<StepResult>, r: StepResult, b: seq<StepResult>)
    ensures AllTurns(a + [r] + b) == AllTurns(a) + r.transcript + AllTurns(b)
  {
    TurnsOfBoth(a + [r], b);
    assert (a + [r])[..|a|] == a;
  }

  lemma {:induction false} TurnsOfBoth(a: seq<StepResult>, b: seq<StepResult>)
    ensures AllTurns(a + b) == AllTurns(a) + AllTurns(b)
  {
    if b == [] {
      assert a + b == a && AllTurns(a) + [] == AllTurns(a);
    } else {
      var front := b[..|b| - 1];
      TurnsOfBoth(a, front);
      assert (a + b)[..|a + b| - 1] == a + front;
    }
  }

  /** A step's own captured turns are a contiguous part of the conversation it is re-judged on. */
  lemma OwnPartOfWhole(p: Passage, i: nat) returns (before: seq<Turn>, after: seq<Turn>)
    requires i < |p.first|
    ensures Whole(p) == before + p.first[i].transcript + after
  {
    var swept := WithLate(p.first, p.late);
    before, after := TurnsAround(swept, i);
    var rest: seq<Turn> := if swept[i] == p.first[i] then [] else p.late;
    assert swept[i].transcript == p.first[i].transcript + rest;
    after := rest + after + p.late;
    assert Whole(p) == before + p.first[i].transcript + after;
  }

  /** Re-judging on the whole conversation adds no missing text, silence or missing question to a
      step, and never forgives an unwanted text: a step that first failed on one stays failed. */
  lemma ReevaluationOnlyCures(
      h: History, setting: Setting, tenant: string, steps: seq<Step>, scenarioXfail: bool, p: Passage,
      results: seq<StepResult>, i: nat,
      f: Failure)
    requires Follows(h, setting, tenant, steps, scenarioXfail, p, results) && i < |steps|
    ensures |p.first| == |results| == |steps|
    ensures var status := p.first[i].runStatus;
            Curable(f) && f in TextFailures(setting.rules, Whole(p), status, steps[i]) ==>
            f in TextFailures(setting.rules, p.first[i].transcript, status, steps[i])
    ensures p.first[i].lbl == FAIL && f.UnexpectedText? && f in p.first[i].reasons ==> results[i].lbl == FAIL
  {
    var before, after := OwnPartOfWhole(p, i);
    WholeConversationOnlyCures(setting.rules, before, p.first[i].transcript, after, p.first[i].runStatus, steps[i], f);
    FinalLabelExactly(h, setting, tenant, steps, scenarioXfail, p, results, i);
    if p.first[i].lbl == FAIL && f.UnexpectedText? && f in p.first[i].reasons {
      StepJudged(h, setting, tenant, steps, scenarioXfail, p, results, i);
      TextInReasons(h, setting, tenant, steps[i], scenarioXfail, p.records[i], p.first[i], f);
      FailureOrigins(setting.rules, Whole(p), p.first[i].runStatus, steps[i], f);
    }
  }

  lemma CapturedReasons(h: History, setting: Setting, tenant: string, message: string, turn: StepResult, win: Window)
    requires Captured(h, setting, tenant, message, turn, win)
    ensures turn.reasons == [] || exists n :: turn.reasons == [Breach(n)]
  {
    var new_ := TurnsOf(NewTurns(h(win.after), tenant, ConversationIds(h(win.before), tenant)));
    if turn.reasons != [] {
      assert turn.reasons == [Breach(BreachingTurns(new_))];
    }
  }

  lemma TextInJudge(
      step: Step, scenarioXfail: bool, turn: StepResult, text: seq<Failure>, db: seq<Failure>, state: SettleState,
      f: Failure)
    requires f in Judge(step, scenarioXfail, turn, text, db, state).reasons
    requires !f.TimedOut? && !f.Unsettled? && f !in turn.reasons && f !in db
    ensures f in text
  {
  }

  /** A text failure among a step's first reasons comes from its own transcript. */
  lemma TextInReasons(
      h: History, setting: Setting, tenant: string, step: Step, scenarioXfail: bool, rec: Record, r: StepResult,
      f: Failure)
    requires Judged(h, setting, tenant, step, scenarioXfail, rec, r)
    requires (f.UnexpectedText? || f.Silent?) && f in r.reasons
    ensures f in TextFailures(setting.rules, r.transcript, r.runStatus, step)
  {
    var turn := rec.turn;
    var text := TextFailures(setting.rules, turn.transcript, turn.runStatus, step);
    assert f !in rec.db by {
      assert JudgedIn(h, setting, tenant, step, scenarioXfail, rec, r, Reading);
      RecordedFailuresAreDb(h, tenant, step, rec);
    }
    assert f !in turn.reasons by {
      assert JudgedIn(h, setting, tenant, step, scenarioXfail, rec, r, Capture);
      CapturedReasons(h, setting, tenant, step.message, turn, rec.win);
    }
    assert r == Judge(step, scenarioXfail, turn, text, rec.db, rec.state) by {
      assert JudgedIn(h, setting, tenant, step, scenarioXfail, rec, r, Verdict);
    }
    KeepsTheTurn(step, scenarioXfail, turn, text, rec.db, rec.state);
    TextInJudge(step, scenarioXfail, turn, text, rec.db, rec.state, f);
  }

  lemma RecordedFailuresAreDb(h: History, tenant: string, step: Step, rec: Record)
    requires ReallyRead(h, tenant, step, rec)
    ensures forall f :: f in rec.db ==> FromDatabase(f)
  {
    var run, sid := Some(rec.turn.runId), rec.turn.sid;
    var initial := EvaluateDbAsserts(h(rec.readAt), tenant, run, step.db, sid);
    DbAssertsReportDbFailures(h(rec.readAt), tenant, run, step.db, sid);
    if rec.settling.Some? {
      LastReadIsDb(h, tenant, run, step.db, sid, rec.settling.value, initial);
    }
  }

  lemma LastReadIsDb(
      h: History, tenant: string, run: Option<string>, asserts: DbAsserts, sid: Option<string>, t: Trace,
      initial: seq<Failure>)
    requires forall f :: f in initial ==> FromDatabase(f)
    ensures forall f :: f in LastRead(h, tenant, run, asserts, sid, t, initial) ==> FromDatabase(f)
  {
    if t.readings != [] {
      DbAssertsReportDbFailures(h(t.readings[|t.readings| - 1]), tenant, run, asserts, sid);
    }
  }

  /** What the poll of an unreplied turn has to show for a verdict of silence: there was no run to
      poll; or the whole timeout passed without a look ever finding the run's row; or the last look saw
      the run in a state other than running. */
  ghost predicate SilenceShown(h: History, setting: Setting, r: StepResult, win: Window) {
    match win.poll
    case None => NoRunReason(r.ingressReason)
    case Some(poll) =>
      match r.runStatus
      case None =>
        poll.to >= poll.from + setting.timeout
        && forall k :: 0 <= k < |poll.looks| ==> r.runId !in h(poll.looks[k]).runs
      case Some(v) => v != RUNNING && poll.looks != [] && HasStatus(h(poll.looks[|poll.looks| - 1]), r.runId, v)
  }

  /** A step is first reported silent exactly when it forbids silence, no breach overrides the
      verdict, nothing replied, and the poll did not end on a run still running; the poll, made
      within the turn, then shows it. In particular a run whose row only appears after the timeout
      ends here. */
  lemma SilentExactly(
      h: History, setting: Setting, tenant: string, step: Step, scenarioXfail: bool, rec: Record, r: StepResult)
    requires Judged(h, setting, tenant, step, scenarioXfail, rec, r)
    ensures Silent in r.reasons <==>
            step.noSilent && rec.turn.reasons == [] && Unreplied(r.transcript) && r.runStatus != Some("running")
    ensures Silent in r.reasons ==> SilenceShown(h, setting, r, rec.win) && Timely(rec)
  {
    var turn := rec.turn;
    var text := TextFailures(setting.rules, turn.transcript, turn.runStatus, step);
    assert Silent !in turn.reasons by {
      assert JudgedIn(h, setting, tenant, step, scenarioXfail, rec, r, Capture);
      CapturedReasons(h, setting, tenant, step.message, turn, rec.win);
    }
    assert Silent !in rec.db by {
      assert JudgedIn(h, setting, tenant, step, scenarioXfail, rec, r, Reading);
      RecordedFailuresAreDb(h, tenant, step, rec);
    }
    SilenceExactly(setting.rules, turn.transcript, turn.runStatus, step);
    assert r == Judge(step, scenarioXfail, turn, text, rec.db, rec.state) by {
      assert JudgedIn(h, setting, tenant, step, scenarioXfail, rec, r, Verdict);
    }
    SilentInJudge(step, scenarioXfail, turn, text, rec.db, rec.state);
    ReplyExactly(turn.transcript);
    KeepsTheTurn(step, scenarioXfail, turn, text, rec.db, rec.state);
    assert JudgedIn(h, setting, tenant, step, scenarioXfail, rec, r, Timing);
    PollShowsSilence(h, setting, tenant, step, scenarioXfail, rec, r);
  }

  lemma PollShowsSilence(
      h: History, setting: Setting, tenant: string, step: Step, scenarioXfail: bool, rec: Record, r: StepResult)
    requires Judged(h, setting, tenant, step, scenarioXfail, rec, r)
    requires r.runStatus == rec.turn.runStatus && r.runId == rec.turn.runId && r.ingressReason == rec.turn.ingressReason
    ensures r.runStatus != Some(RUNNING) ==> SilenceShown(h, setting, r, rec.win)
  {
    assert JudgedIn(h, setting, tenant, step, scenarioXfail, rec, r, Polling);
  }

  lemma SilentInJudge(
      step: Step, scenarioXfail: bool, turn: StepResult, text: seq<Failure>, db: seq<Failure>, state: SettleState)
    requires Silent !in turn.reasons && Silent !in db
    ensures Silent in Judge(step, scenarioXfail, turn, text, db, state).reasons <==>
            turn.reasons == [] && !SkipsAsserts(step, turn) && Silent in text
  {
  }

  /** The sweep read the log for the last time at this instant: after every step was over, before the
      money checks, and with the database stable by then or the cap passed. */
  ghost predicate LastFetchedAt(p: Passage, at: nat) {
    p.sweep.Some? && p.sweep.value.ending.Fetched? && p.sweep.value.looks != [] &&
    var sweep := p.sweep.value;
    && at == sweep.looks[|sweep.looks| - 1].at
    && (forall i :: 0 <= i < |p.records| ==> p.records[i].ended <= at) && at <= p.netsAt.0
    && (Stable(sweep.looks) || sweep.to >= sweep.from + SWEEP_CAP)
  }

  lemma FetchedLast(
      h: History, setting: Setting, tenant: string, steps: seq<Step>, scenarioXfail: bool, p: Passage,
      results: seq<StepResult>)
    requires Follows(h, setting, tenant, steps, scenarioXfail, p, results)
    requires p.sweep.Some? && p.sweep.value.ending.Fetched?
    ensures p.sweep.value.looks != []
    ensures
      var at := p.sweep.value.looks[|p.sweep.value.looks| - 1].at;
      LastFetchedAt(p, at) && p.late == LateTurns(p.first, TurnsOf(NewTurns(h(at), tenant, {})))
  {
    assert SweptFrom(h, tenant, p) by {
      assert FollowsIn(h, setting, tenant, steps, scenarioXfail, p, results, Sweeping);
    }
    assert PhasesInOrder(p) by {
      assert FollowsIn(h, setting, tenant, steps, scenarioXfail, p, results, Order);
    }
    FetchedAfterSteps(h, tenant, p);
  }

  lemma FetchedAfterSteps(h: History, tenant: string, p: Passage)
    requires p.sweep.Some? && p.sweep.value.ending.Fetched? && SweptFrom(h, tenant, p) && PhasesInOrder(p)
    ensures p.sweep.value.looks != []
    ensures
      var at := p.sweep.value.looks[|p.sweep.value.looks| - 1].at;
      LastFetchedAt(p, at) && p.late == LateTurns(p.first, TurnsOf(NewTurns(h(at), tenant, {})))
  {
    var sweep := p.sweep.value;
    FetchedWithin(h, tenant, sweep.looks, sweep.from, sweep.to, sweep.ending.turns);
  }

  lemma FetchedWithin(h: History, tenant: string, looks: seq<Look>, from: nat, to: nat, turns: seq<Turn>)
    requires SweptAs(h, tenant, looks, from, to, Fetched(turns))
    ensures looks != []
    ensures
      var at := looks[|looks| - 1].at;
      from <= at <= to && turns == TurnsOf(NewTurns(h(at), tenant, {})) && (Stable(looks) || to >= from + SWEEP_CAP)
  {
    LooksStartAfter(h, tenant, looks, from, to, |looks| - 1);
  }

  lemma LooksStartAfter(h: History, tenant: string, looks: seq<Look>, from: nat, to: nat, k: nat)
    requires LooksReal(h, tenant, looks, from, to) && k < |looks|
    ensures from <= looks[k].at <= to
    decreases k
  {
    assert Real(h, tenant, looks[k]) && looks[k].probedAt <= to;
    if k > 0 {
      LooksStartAfter(h, tenant, looks, from, to, k - 1);
      assert Real(h, tenant, looks[k - 1]) && looks[k - 1].probedAt + SWEEP_POLL <= looks[k].at;
    } else {
      assert from + SWEEP_POLL <= looks[0].at;
    }
  }

  /** Whatever was in the tenant's conversation at the sweep's last look, which came after every step,
      is, by role and head of text, in some step's final transcript. */
  lemma NothingFetchedIsLost(
      h: History, setting: Setting, tenant: string, steps: seq<Step>, scenarioXfail: bool, p: Passage,
      results: seq<StepResult>, at: nat, row: LogRow)
    requires Follows(h, setting, tenant, steps, scenarioXfail, p, results) && steps != []
    requires p.sweep.Some? && p.sweep.value.ending.Fetched? && p.sweep.value.looks != []
    requires at == p.sweep.value.looks[|p.sweep.value.looks| - 1].at && row in NewTurns(h(at), tenant, {})
    ensures LastFetchedAt(p, at) && InTranscripts(results, Key(TurnOf(row)))
  {
    FetchedLast(h, setting, tenant, steps, scenarioXfail, p, results);
    FetchedIsCaptured(p, NewTurns(h(at), tenant, {}), row);
    FinalTranscripts(h, setting, tenant, steps, scenarioXfail, p, results);
    TranscriptsKept(WithLate(p.first, p.late), results, Key(TurnOf(row)));
  }

  lemma FinalTranscripts(
      h: History, setting: Setting, tenant: string, steps: seq<Step>, scenarioXfail: bool, p: Passage,
      results: seq<StepResult>)
    requires Follows(h, setting, tenant, steps, scenarioXfail, p, results) && p.sweep.Some?
    ensures SameTurns(WithLate(p.first, p.late), results)
  {
    ResultsAreNetted(h, setting, tenant, steps, scenarioXfail, p, results);
    SweptTranscripts(setting, steps, scenarioXfail, p);
    NetsKeepTranscripts(SettledResults(setting, steps, scenarioXfail, p),
                        MoneyFailures(h, setting, tenant, steps, scenarioXfail, p));
  }

  predicate SameTurns(a: seq<StepResult>, b: seq<StepResult>) {
    |a| == |b| && forall i :: 0 <= i < |a| ==> a[i].transcript == b[i].transcript
  }

  lemma FetchedIsCaptured(p: Passage, rows: seq<LogRow>, row: LogRow)
    requires p.first != [] && p.late == LateTurns(p.first, TurnsOf(rows)) && row in rows
    ensures InTranscripts(WithLate(p.first, p.late), Key(TurnOf(row)))
  {
    var i :| 0 <= i < |rows| && rows[i] == row;
    assert TurnsOf(rows)[i] in TurnsOf(rows);
    SweepCaptures(p.first, TurnsOf(rows), TurnOf(row));
  }

  lemma SweptTranscripts(setting: Setting, steps: seq<Step>, scenarioXfail: bool, p: Passage)
    requires |p.first| == |steps| && p.sweep.Some?
    ensures var swept, settled := WithLate(p.first, p.late), SettledResults(setting, steps, scenarioXfail, p);
            SameTurns(swept, settled)
  {
  }

  lemma NetsKeepTranscripts(settled: seq<StepResult>, money: seq<Failure>)
    ensures SameTurns(WithNets(settled, money), settled)
  {
  }

  lemma TranscriptsKept(a: seq<StepResult>, b: seq<StepResult>, key: (string, string))
    requires SameTurns(a, b)
    requires InTranscripts(a, key)
    ensures InTranscripts(b, key)
  {
    var r :| r in a && exists t :: t in r.transcript && Key(t) == key;
    var i :| 0 <= i < |a| && a[i] == r;
    assert b[i] in b && b[i].transcript == r.transcript;
  }

  // ---------------------------------------------------------------- latency and verdicts

  /** What a poll that ended on a run still running has seen: the whole timeout passed, some look found
      the run's row, and every look that did saw it running. */
  ghost predicate RunningShown(h: History, setting: Setting, r: StepResult, win: Window) {
    win.poll.Some? &&
    var poll := win.poll.value;
    && poll.to >= poll.from + setting.timeout
    && (forall k :: 0 <= k < |poll.looks| ==> Unfinished(h(poll.looks[k]), r.runId))
    && (exists k :: 0 <= k < |poll.looks| && HasStatus(h(poll.looks[k]), r.runId, RUNNING))
  }

  /** A first label of TIMEOUT means that the poll saw this turn's run running for the whole timeout,
      within the turn, that nothing replied, and that no guard was breached. */
  lemma TimeoutIsObserved(
      h: History, setting: Setting, tenant: string, step: Step, scenarioXfail: bool, rec: Record, r: StepResult)
    requires Judged(h, setting, tenant, step, scenarioXfail, rec, r)
    ensures r.lbl == TIMEOUT <==>
            step.noSilent && rec.turn.reasons == [] && Unreplied(r.transcript) && r.runStatus == Some("running")
    ensures r.lbl == TIMEOUT ==> RunningShown(h, setting, r, rec.win) && Timely(rec)
  {
    assert JudgedIn(h, setting, tenant, step, scenarioXfail, rec, r, Verdict);
    assert JudgedIn(h, setting, tenant, step, scenarioXfail, rec, r, Timing);
    var text := TextFailures(setting.rules, rec.turn.transcript, rec.turn.runStatus, step);
    TimeoutInJudge(step, scenarioXfail, rec.turn, text, rec.db, rec.state);
    ReplyExactly(rec.turn.transcript);
    KeepsTheTurn(step, scenarioXfail, rec.turn, text, rec.db, rec.state);
    PollShowsRunning(h, setting, tenant, step, scenarioXfail, rec, r);
  }

  lemma PollShowsRunning(
      h: History, setting: Setting, tenant: string, step: Step, scenarioXfail: bool, rec: Record, r: StepResult)
    requires Judged(h, setting, tenant, step, scenarioXfail, rec, r)
    requires r.runStatus == rec.turn.runStatus && r.runId == rec.turn.runId
    ensures r.runStatus == Some(RUNNING) ==> RunningShown(h, setting, r, rec.win)
  {
    assert JudgedIn(h, setting, tenant, step, scenarioXfail, rec, r, Polling);
  }

  lemma KeepsTheTurn(
      step: Step, scenarioXfail: bool, turn: StepResult, text: seq<Failure>, db: seq<Failure>, state: SettleState)
    ensures
      var r := Judge(step, scenarioXfail, turn, text, db, state);
      && r.transcript == turn.transcript && r.runStatus == turn.runStatus
      && r.runId == turn.runId && r.ingressReason == turn.ingressReason
  {
  }

  lemma TimeoutInJudge(
      step: Step, scenarioXfail: bool, turn: StepResult, text: seq<Failure>, db: seq<Failure>, state: SettleState)
    ensures Judge(step, scenarioXfail, turn, text, db, state).lbl == TIMEOUT <==>
            step.noSilent && turn.reasons == [] && AssistantTexts(turn.transcript) == []
              && turn.runStatus == Some(RUNNING)
  {
  }

  lemma NothingToSettle(db: Db, tenant: string, run: string, asserts: DbAsserts, sid: Option<string>)
    requires !DeclaresSettling(asserts)
    ensures EvaluateDbAsserts(db, tenant, Some(run), asserts, sid) == []
  {
  }

  /** What stands behind a database failure `f` of a step. Unmeasured: work was in flight at every
      probe until the ceiling had passed, and `f` is among the failures last read. Otherwise: the last
      probe, with all others seeing work, saw none, and `f` was read after it. */
  ghost predicate SettledBehind(h: History, tenant: string, step: Step, rec: Record, unmeasured: bool, f: Failure) {
    var run, sid := Some(rec.turn.runId), rec.turn.sid;
    rec.settling.Some? &&
    var t := rec.settling.value;
    && Rounds(h, tenant, ProbeSid(step.db, sid), t)
    && f in LastRead(h, tenant, run, step.db, sid, t, EvaluateDbAsserts(h(rec.readAt), tenant, run, step.db, sid))
    && if unmeasured then
         AllInFlight(h, tenant, ProbeSid(step.db, sid), t.probes) && t.ended >= t.started + SETTLE_CEILING
       else
         && t.probes != [] && AllInFlight(h, tenant, ProbeSid(step.db, sid), t.probes[..|t.probes| - 1])
         && !InFlight(h, tenant, ProbeSid(step.db, sid), t.probes[|t.probes| - 1])
  }

  /** Latency is never a database verdict. Behind a database failure under FAIL or XFAIL stands a
      settling that ended on a probe without work; behind one under INDETERMINATE, a settling that ran
      into its ceiling with work in flight throughout. Either began after the turn was captured. */
  lemma DatabaseVerdictsAreSettled(
      h: History, setting: Setting, tenant: string, step: Step, scenarioXfail: bool, rec: Record, r: StepResult,
      f: Failure)
    requires Judged(h, setting, tenant, step, scenarioXfail, rec, r)
    requires FromDatabase(f) && f in r.reasons
    ensures r.lbl in {FAIL, XFAIL, INDETERMINATE}
    ensures SettledBehind(h, tenant, step, rec, r.lbl == INDETERMINATE, f)
    ensures Timely(rec) && rec.win.marked <= rec.settling.value.started
  {
    assert JudgedIn(h, setting, tenant, step, scenarioXfail, rec, r, Timing);
    DatabaseFailureIsRecorded(h, setting, tenant, step, scenarioXfail, rec, r, f);
    assert ReallyRead(h, tenant, step, rec) by {
      assert JudgedIn(h, setting, tenant, step, scenarioXfail, rec, r, Reading);
    }
    ReadingsAreSettled(h, tenant, step, rec, f);
  }

  lemma DatabaseFailureIsRecorded(
      h: History, setting: Setting, tenant: string, step: Step, scenarioXfail: bool, rec: Record, r: StepResult,
      f: Failure)
    requires Judged(h, setting, tenant, step, scenarioXfail, rec, r)
    requires FromDatabase(f) && f in r.reasons
    ensures r.lbl in {FAIL, XFAIL, INDETERMINATE} && (r.lbl == INDETERMINATE <==> rec.state.Indeterminate?)
    ensures !SkipsAsserts(step, rec.turn) && f in rec.db
  {
    var text := TextFailures(setting.rules, rec.turn.transcript, rec.turn.runStatus, step);
    assert f !in text by {
      DatabaseFailuresAreNotTextual(setting.rules, rec.turn.transcript, rec.turn.runStatus, step, f);
    }
    assert f !in rec.turn.reasons by {
      assert JudgedIn(h, setting, tenant, step, scenarioXfail, rec, r, Capture);
      CapturedReasons(h, setting, tenant, step.message, rec.turn, rec.win);
    }
    assert r == Judge(step, scenarioXfail, rec.turn, text, rec.db, rec.state) by {
      assert JudgedIn(h, setting, tenant, step, scenarioXfail, rec, r, Verdict);
    }
    DatabaseInJudge(step, scenarioXfail, rec.turn, text, rec.db, rec.state, f);
  }

  lemma DatabaseFailuresAreNotTextual(rules: Rules, turns: seq<Turn>, status: Option<string>, step: Step, f: Failure)
    requires FromDatabase(f)
    ensures f !in TextFailures(rules, turns, status, step)
  {
    TextFailuresAreTextual(rules, turns, status, step);
  }

  lemma ReadingsAreSettled(h: History, tenant: string, step: Step, rec: Record, f: Failure)
    requires ReallyRead(h, tenant, step, rec) && !SkipsAsserts(step, rec.turn) && f in rec.db
    ensures SettledBehind(h, tenant, step, rec, rec.state.Indeterminate?, f)
  {
    if !DeclaresSettling(step.db) {
      NothingToSettle(h(rec.readAt), tenant, rec.turn.runId, step.db, rec.turn.sid);
    }
  }

  lemma DatabaseInJudge(
      step: Step, scenarioXfail: bool, turn: StepResult, text: seq<Failure>, db: seq<Failure>, state: SettleState,
      f: Failure)
    requires FromDatabase(f) && f !in turn.reasons && f !in text
    requires f in Judge(step, scenarioXfail, turn, text, db, state).reasons
    ensures !SkipsAsserts(step, turn) && f in db
    ensures var l := Judge(step, scenarioXfail, turn, text, db, state).lbl;
            l in {FAIL, XFAIL, INDETERMINATE} && (l == INDETERMINATE <==> state.Indeterminate?)
  {
  }

  /** A database failure under a first label of FAIL comes out of a terminal settling. */
  lemma FailedMeansTerminal(
      h: History, setting: Setting, tenant: string, step: Step, scenarioXfail: bool, rec: Record, r: StepResult,
      f: Failure)
    requires Judged(h, setting, tenant, step, scenarioXfail, rec, r)
    requires FromDatabase(f) && f in r.reasons && r.lbl == FAIL
    ensures rec.settling.Some? && f in rec.db && r.runId == rec.turn.runId
    ensures
      var run, sid := Some(rec.turn.runId), rec.turn.sid;
      SettledAs(h, tenant, run, step.db, sid, rec.settling.value,
                EvaluateDbAsserts(h(rec.readAt), tenant, run, step.db, sid), rec.db, Terminal)
  {
    DatabaseFailureIsRecorded(h, setting, tenant, step, scenarioXfail, rec, r, f);
    assert JudgedIn(h, setting, tenant, step, scenarioXfail, rec, r, Verdict);
    assert ReallyRead(h, tenant, step, rec) by {
      assert JudgedIn(h, setting, tenant, step, scenarioXfail, rec, r, Reading);
    }
    ReadMeansTerminal(h, tenant, step, rec, f);
  }

  lemma ReadMeansTerminal(h: History, tenant: string, step: Step, rec: Record, f: Failure)
    requires ReallyRead(h, tenant, step, rec) && !SkipsAsserts(step, rec.turn) && f in rec.db
            && !rec.state.Indeterminate?
    ensures rec.settling.Some? && rec.state == Terminal
  {
    if !DeclaresSettling(step.db) {
      NothingToSettle(h(rec.readAt), tenant, rec.turn.runId, step.db, rec.turn.sid);
    }
  }

  /** A database failure of a turn whose single task is spawned within the grace, and leaves its rows
      committed when done, is still there at every later instant, and the step still fails at the end
      of the run, unless the last probe straddled the spawn. */
  lemma DatabaseFailureIsFinal(
      h: History, setting: Setting, tenant: string, steps: seq<Step>, scenarioXfail: bool, p: Passage,
      results: seq<StepResult>, i: nat, f: Failure, spawn: nat, done: nat, later: nat)
    requires Follows(h, setting, tenant, steps, scenarioXfail, p, results) && i < |steps|
    requires FromDatabase(f) && f in p.first[i].reasons && p.first[i].lbl == FAIL
    requires p.records[i].turn.sid.Some? && !steps[i].db.TenantWide() && later >= p.records[i].ended
    requires Lifecycle(h, tenant, p.records[i].turn.sid.value, spawn, done)
    requires FrozenFrom(h, tenant, Some(p.first[i].runId), steps[i].db, p.records[i].turn.sid, done)
    requires p.records[i].settling.Some? ==>
               var t := p.records[i].settling.value;
               spawn <= t.started + SPAWN_GRACE && (t.probes != [] ==> !Straddles(t.probes[|t.probes| - 1], spawn))
    ensures f in EvaluateDbAsserts(h(later), tenant, Some(p.first[i].runId), steps[i].db, p.records[i].turn.sid)
    ensures |results| == |steps| && results[i].lbl == FAIL && f in results[i].reasons
  {
    StepJudged(h, setting, tenant, steps, scenarioXfail, p, results, i);
    TurnFailureIsFinal(h, setting, tenant, steps[i], scenarioXfail, p.records[i], p.first[i], f, spawn, done, later);
    DatabaseFailuresSurvive(h, setting, tenant, steps, scenarioXfail, p, results, i, f);
  }

  lemma TurnFailureIsFinal(
      h: History, setting: Setting, tenant: string, step: Step, scenarioXfail: bool, rec: Record, r: StepResult,
      f: Failure, spawn: nat, done: nat, later: nat)
    requires Judged(h, setting, tenant, step, scenarioXfail, rec, r)
    requires FromDatabase(f) && f in r.reasons && r.lbl == FAIL
    requires rec.turn.sid.Some? && !step.db.TenantWide() && later >= rec.ended
    requires Lifecycle(h, tenant, rec.turn.sid.value, spawn, done)
    requires FrozenFrom(h, tenant, Some(r.runId), step.db, rec.turn.sid, done)
    requires rec.settling.Some? ==>
               var t := rec.settling.value;
               spawn <= t.started + SPAWN_GRACE && (t.probes != [] ==> !Straddles(t.probes[|t.probes| - 1], spawn))
    ensures f in EvaluateDbAsserts(h(later), tenant, Some(r.runId), step.db, rec.turn.sid)
  {
    assert JudgedIn(h, setting, tenant, step, scenarioXfail, rec, r, Timing);
    FailedMeansTerminal(h, setting, tenant, step, scenarioXfail, rec, r, f);
    TerminalVerdictIsFinal(h, tenant, Some(r.runId), step.db, rec.turn.sid.value, rec.settling.value,
                           EvaluateDbAsserts(h(rec.readAt), tenant, Some(r.runId), step.db, rec.turn.sid), rec.db,
                           spawn, done, later);
  }

  /** The same for asserts of which one is tenant-wide, where there is no race to except: the tenant's
      tasks produce once, from within the grace, and leave their rows committed when done. */
  lemma TenantWideFailureIsFinal(
      h: History, setting: Setting, tenant: string, steps: seq<Step>, scenarioXfail: bool, p: Passage,
      results: seq<StepResult>, i: nat, f: Failure, spawn: nat, done: nat, later: nat)
    requires Follows(h, setting, tenant, steps, scenarioXfail, p, results) && i < |steps|
    requires FromDatabase(f) && f in p.first[i].reasons && p.first[i].lbl == FAIL
    requires steps[i].db.TenantWide() && later >= p.records[i].ended && TenantLifecycle(h, tenant, spawn, done)
    requires FrozenFrom(h, tenant, Some(p.first[i].runId), steps[i].db, p.records[i].turn.sid, done)
    requires p.records[i].settling.Some? ==> spawn <= p.records[i].settling.value.started + SPAWN_GRACE
    ensures f in EvaluateDbAsserts(h(later), tenant, Some(p.first[i].runId), steps[i].db, p.records[i].turn.sid)
    ensures |results| == |steps| && results[i].lbl == FAIL && f in results[i].reasons
  {
    var rec, run := p.records[i], Some(p.first[i].runId);
    StepJudged(h, setting, tenant, steps, scenarioXfail, p, results, i);
    assert JudgedIn(h, setting, tenant, steps[i], scenarioXfail, rec, p.first[i], Timing);
    FailedMeansTerminal(h, setting, tenant, steps[i], scenarioXfail, rec, p.first[i], f);
    TenantWideVerdictIsFinal(h, tenant, run, steps[i].db, rec.turn.sid, rec.settling.value,
                             EvaluateDbAsserts(h(rec.readAt), tenant, run, steps[i].db, rec.turn.sid), rec.db,
                             spawn, done, later);
    DatabaseFailuresSurvive(h, setting, tenant, steps, scenarioXfail, p, results, i, f);
  }

  // ---------------------------------------------------------------- breaches of the send guard

  /** A step that breached the send guard keeps its FAIL exactly when the money checks fail it again,
      or no sweep ran, or it declares no content check, or the whole conversation fails its text
      checks: in every other case the breach is forgotten. */
  lemma BreachSurvivesExactly(
      h: History, setting: Setting, tenant: string, steps: seq<Step>, scenarioXfail: bool, p: Passage,
      results: seq<StepResult>, i: nat)
    requires Follows(h, setting, tenant, steps, scenarioXfail, p, results) && i < |steps|
    requires p.records[i].turn.reasons != []
    ensures |results| == |steps|
    ensures
      var step := steps[i];
      results[i].lbl == FAIL <==>
        || (i == |steps| - 1 && MoneyFailures(h, setting, tenant, steps, scenarioXfail, p) != [])
        || !p.sweep.Some?
        || (step.contains == [] && !step.notD1 && !step.isQuestion)
        || TextFailures(setting.rules, Whole(p), p.first[i].runStatus, step) != []
  {
    StepJudged(h, setting, tenant, steps, scenarioXfail, p, results, i);
    BreachedStep(h, setting, tenant, steps[i], scenarioXfail, p.records[i], p.first[i]);
    CuredBreach(setting.rules, steps[i], p.first[i], Whole(p));
    FinalLabelExactly(h, setting, tenant, steps, scenarioXfail, p, results, i);
  }

  lemma CuredBreach(rules: Rules, step: Step, r: StepResult, whole: seq<Turn>)
    requires r.lbl == FAIL && exists n :: r.reasons == [Breach(n)]
    ensures Cured(rules, step, r, whole) <==>
            (step.contains != [] || step.notD1 || step.isQuestion)
              && TextFailures(rules, whole, r.runStatus, step) == []
  {
    NoneObjects(rules, whole, r.runStatus, step);
  }

  lemma BreachedStep(
      h: History, setting: Setting, tenant: string, step: Step, scenarioXfail: bool, rec: Record, r: StepResult)
    requires Judged(h, setting, tenant, step, scenarioXfail, rec, r) && rec.turn.reasons != []
    ensures r.lbl == FAIL && exists n :: r.reasons == [Breach(n)]
  {
    assert JudgedIn(h, setting, tenant, step, scenarioXfail, rec, r, Verdict);
    assert JudgedIn(h, setting, tenant, step, scenarioXfail, rec, r, Capture);
    CapturedReasons(h, setting, tenant, step.message, rec.turn, rec.win);
  }

  /** The re-evaluation with any other choice of the reasons it keeps. */
  function RecheckKeeping(
      kept: Failure -> bool, rules: Rules, step: Step, scenarioXfail: bool, r: StepResult, whole: seq<Turn>): StepResult
  {
    if Recheckable(step, r) && TextFailures(rules, whole, r.runStatus, step) + Filter(kept, r.reasons) == [] then
      var c := ClassifyStep([], Expected(step, scenarioXfail));
      r.(ok := c.ok, xfail := c.xfail, lbl := c.lbl, reasons := [], sid := None)
    else r
  }

  /** As written, the re-evaluation keeps the database failures and nothing else. */
  lemma RecheckKeepsDatabaseFailures(rules: Rules, step: Step, scenarioXfail: bool, r: StepResult, whole: seq<Turn>)
    ensures Recheck(rules, step, scenarioXfail, r, whole)
            == RecheckKeeping(FromDatabase, rules, step, scenarioXfail, r, whole)
  {
    FilterAgrees((f: Failure) => FromDatabase(f), FromDatabase, r.reasons);
  }

  ghost predicate AlwaysSurvives(kept: Failure -> bool, rules: Rules, f: Failure) {
    forall step: Step, scenarioXfail: bool, r: StepResult, whole: seq<Turn> ::
      r.lbl == FAIL && f in r.reasons ==> RecheckKeeping(kept, rules, step, scenarioXfail, r, whole) == r
  }

  /** Which filter a hard reason needs: it survives every re-evaluation exactly if the filter keeps it.
      So one that keeps breaches beside database failures repairs the defect, and no other does. */
  lemma SurvivalNeedsKeeping(kept: Failure -> bool, rules: Rules, f: Failure)
    ensures AlwaysSurvives(kept, rules, f) <==> kept(f)
  {
    if !kept(f) {
      var step := Step("", false, [], [], false, true, None, None, None, DbAsserts(None, None, None));
      var r := StepResult(false, false, FAIL, [f], [], None, "", "", None);
      var whole := [Turn("assistant", "?", None)];
      assert AssistantTexts(whole) == ["?"] by { assert AssistantTexts(whole[..0]) == []; }
      assert TextFailures(rules, whole, None, step) == [];
      assert Filter(kept, r.reasons) == [];
      assert RecheckKeeping(kept, rules, step, false, r, whole) != r;
    }
  }

  // ---------------------------------------------------------------- the exit code

  /** A result is ok exactly under the three labels that count as good. */
  predicate Shaped(r: StepResult) {
    (r.ok <==> r.lbl in {PASS, XFAIL, XPASS}) && (r.xfail <==> r.lbl == XFAIL)
  }

  lemma JudgeIsShaped(
      step: Step, scenarioXfail: bool, turn: StepResult, text: seq<Failure>, db: seq<Failure>, state: SettleState)
    ensures Shaped(Judge(step, scenarioXfail, turn, text, db, state))
  {
  }

  lemma RecheckIsShaped(rules: Rules, step: Step, scenarioXfail: bool, r: StepResult, whole: seq<Turn>)
    requires Shaped(r)
    ensures Shaped(Recheck(rules, step, scenarioXfail, r, whole))
  {
  }

  lemma ResultsAreShaped(
      h: History, setting: Setting, tenant: string, steps: seq<Step>, scenarioXfail: bool, p: Passage,
      results: seq<StepResult>, i: nat)
    requires Follows(h, setting, tenant, steps, scenarioXfail, p, results) && i < |steps|
    ensures |results| == |steps| && Shaped(results[i])
  {
    StepJudged(h, setting, tenant, steps, scenarioXfail, p, results, i);
    FirstIsShaped(h, setting, tenant, steps[i], scenarioXfail, p.records[i], p.first[i]);
    SettledIsShaped(setting, steps, scenarioXfail, p, i);
    ResultsAreNetted(h, setting, tenant, steps, scenarioXfail, p, results);
    NetsAreShaped(SettledResults(setting, steps, scenarioXfail, p),
                  MoneyFailures(h, setting, tenant, steps, scenarioXfail, p), i);
  }

  lemma FirstIsShaped(
      h: History, setting: Setting, tenant: string, step: Step, scenarioXfail: bool, rec: Record, r: StepResult)
    requires Judged(h, setting, tenant, step, scenarioXfail, rec, r)
    ensures Shaped(r)
  {
    assert JudgedIn(h, setting, tenant, step, scenarioXfail, rec, r, Verdict);
    JudgeIsShaped(step, scenarioXfail, rec.turn,
                  TextFailures(setting.rules, rec.turn.transcript, rec.turn.runStatus, step), rec.db, rec.state);
  }

  lemma SettledIsShaped(setting: Setting, steps: seq<Step>, scenarioXfail: bool, p: Passage, i: nat)
    requires |p.first| == |steps| && i < |steps| && Shaped(p.first[i])
    ensures Shaped(SettledResults(setting, steps, scenarioXfail, p)[i])
  {
    if p.sweep.Some? {
      RecheckIsShaped(setting.rules, steps[i], scenarioXfail, WithLate(p.first, p.late)[i], Whole(p));
    }
  }

  lemma NetsAreShaped(settled: seq<StepResult>, money: seq<Failure>, i: nat)
    requires i < |settled| && Shaped(settled[i])
    ensures Shaped(WithNets(settled, money)[i])
  {
  }

  /** The program exits cleanly exactly when every step is ok or was never measured. */
  lemma CleanExitExactly(
      h: History, setting: Setting, tenant: string, steps: seq<Step>, scenarioXfail: bool, p: Passage,
      results: seq<StepResult>)
    requires Follows(h, setting, tenant, steps, scenarioXfail, p, results)
    ensures ExitCode(results) == 0 <==> forall r :: r in results ==> r.ok || r.lbl == INDETERMINATE
  {
    forall i | 0 <= i < |results| ensures Shaped(results[i]) {
      ResultsAreShaped(h, setting, tenant, steps, scenarioXfail, p, results, i);
    }
    ExitOfShaped(results);
  }

  lemma ExitOfShaped(results: seq<StepResult>)
    requires forall i :: 0 <= i < |results| ==> Shaped(results[i])
    ensures ExitCode(results) == 0 <==> forall r :: r in results ==> r.ok || r.lbl == INDETERMINATE
  {
    ExitZeroExactly(results);
    forall i | 0 <= i < |results| ensures results[i] in results {}
  }

  lemma {:induction false} SameTranscripts(a: seq<StepResult>, b: seq<StepResult>)
    requires SameTurns(a, b)
    ensures AllTurns(a) == AllTurns(b)
  {
    if a != [] {
      SameTranscripts(a[..|a| - 1], b[..|b| - 1]);
    }
  }

  /** The money checks are made after every step, and the sweep if there was one, is over. */
  ghost predicate NetsComeLast(p: Passage) {
    && (forall i :: 0 <= i < |p.records| ==> p.started <= p.records[i].ended <= p.netsAt.0)
    && (p.sweep.Some? ==> p.sweep.value.to <= p.netsAt.0)
    && p.netsAt.0 <= p.netsAt.1 <= p.netsAt.2 <= p.ended
  }

  lemma RecordsEndInRun(
      h: History, setting: Setting, tenant: string, steps: seq<Step>, scenarioXfail: bool, p: Passage,
      results: seq<StepResult>, i: nat)
    requires Follows(h, setting, tenant, steps, scenarioXfail, p, results) && i < |steps|
    ensures p.started <= p.records[i].started <= p.records[i].ended
  {
    assert FollowsIn(h, setting, tenant, steps, scenarioXfail, p, results, Order);
    StepJudged(h, setting, tenant, steps, scenarioXfail, p, results, i);
    assert JudgedIn(h, setting, tenant, steps[i], scenarioXfail, p.records[i], p.first[i], Timing);
  }

  /** A clean exit of a run with steps: the steps came out clean before the money checks, and each
      check passed on the database as it was when the check was made. */
  lemma CleanExitMeansNetsHeld(
      h: History, setting: Setting, tenant: string, steps: seq<Step>, scenarioXfail: bool, p: Passage,
      results: seq<StepResult>)
    requires Follows(h, setting, tenant, steps, scenarioXfail, p, results) && steps != []
    ensures ExitCode(results) == 0 <==>
              && ExitCode(SettledResults(setting, steps, scenarioXfail, p)) == 0
              && AssertNoUnapproved(h(p.netsAt.0), tenant) == []
              && AssertNoDoubleSend(h(p.netsAt.1), tenant) == []
              && AssertStatedCount(h(p.netsAt.2), tenant, setting.stated, ReplyTexts(results)) == []
    ensures NetsComeLast(p)
  {
    forall i | 0 <= i < |p.records| ensures p.started <= p.records[i].ended {
      RecordsEndInRun(h, setting, tenant, steps, scenarioXfail, p, results, i);
    }
    assert FollowsIn(h, setting, tenant, steps, scenarioXfail, p, results, Order);
    var settled := SettledResults(setting, steps, scenarioXfail, p);
    var money := MoneyFailures(h, setting, tenant, steps, scenarioXfail, p);
    ResultsAreNetted(h, setting, tenant, steps, scenarioXfail, p, results);
    NetsDecideTheExit(settled, money);
    NetsKeepReplies(settled, money);
    NetsReadExactly(h, tenant, setting.stated, ReplyTexts(settled), p.netsAt);
  }

  lemma NetsKeepReplies(settled: seq<StepResult>, money: seq<Failure>)
    ensures ReplyTexts(WithNets(settled, money)) == ReplyTexts(settled)
  {
    NetsKeepTranscripts(settled, money);
    SameTranscripts(WithNets(settled, money), settled);
  }

  lemma NetsReadExactly(
      h: History, tenant: string, stated: string -> Option<int>, replies: seq<string>, at: (nat, nat, nat))
    ensures NetsRead(h, tenant, stated, replies, at) == [] <==>
              && AssertNoUnapproved(h(at.0), tenant) == []
              && AssertNoDoubleSend(h(at.1), tenant) == []
              && AssertStatedCount(h(at.2), tenant, stated, replies) == []
  {
  }

  lemma NetsDecideTheExit(settled: seq<StepResult>, money: seq<Failure>)
    requires settled != []
    ensures ExitCode(WithNets(settled, money)) == 0 <==> ExitCode(settled) == 0 && money == []
  {
    ExitZeroExactly(WithNets(settled, money));
    ExitZeroExactly(settled);
    if money != [] {
      assert WithNets(settled, money)[|settled| - 1].lbl == FAIL;
    }
  }

  /** No send arrived, was approved or changed between the three checks. */
  ghost predicate QuietNets(h: History, tenant: string, at: (nat, nat, nat)) {
    Sent(h(at.0), tenant) == Sent(h(at.1), tenant) == Sent(h(at.2), tenant)
  }

  /** End to end: with no send between the checks, a clean exit means that all the steps came out
      clean and that the database the checks read is money-safe for everything the replies said. */
  lemma CleanExitMeansMoneySafe(
      h: History, setting: Setting, tenant: string, steps: seq<Step>, scenarioXfail: bool, p: Passage,
      results: seq<StepResult>)
    requires Follows(h, setting, tenant, steps, scenarioXfail, p, results) && steps != []
    requires QuietNets(h, tenant, p.netsAt)
    ensures ExitCode(results) == 0 <==>
              && ExitCode(SettledResults(setting, steps, scenarioXfail, p)) == 0
              && MoneySafe(h(p.netsAt.0), tenant, setting.stated, ReplyTexts(results))
    ensures NetsComeLast(p)
  {
    var at, replies := p.netsAt, ReplyTexts(results);
    CleanExitMeansNetsHeld(h, setting, tenant, steps, scenarioXfail, p, results);
    NetsExactly(h(at.0), tenant, setting.stated, replies);
    assert AssertNoDoubleSend(h(at.1), tenant) == AssertNoDoubleSend(h(at.0), tenant);
    assert AssertStatedCount(h(at.2), tenant, setting.stated, replies)
      == AssertStatedCount(h(at.0), tenant, setting.stated, replies);
  }

  ghost predicate OnlyKeyedTo(m: Message, c: string, campaigns: seq<string>) {
    KeyedTo(m, c) && forall d :: d in campaigns && KeyedTo(m, d) ==> d == c
  }

  /** After a clean exit every stated count is the sum of what the approved campaigns sent, each
      counted as the side-effect assert counts it, and every sent row belongs to exactly one of them. */
  lemma CleanExitCountsAddUp(
      h: History, setting: Setting, tenant: string, steps: seq<Step>, scenarioXfail: bool, p: Passage,
      results: seq<StepResult>,
      campaigns: seq<string>, m: Message)
    requires Follows(h, setting, tenant, steps, scenarioXfail, p, results) && steps != [] && ExitCode(results) == 0
    requires QuietNets(h, tenant, p.netsAt)
    requires var db := h(p.netsAt.0);
             && CleanIds(db, tenant) && Distinct(campaigns)
             && forall c :: c in campaigns <==> c in ApprovedCampaigns(db, tenant)
    ensures NetsComeLast(p)
    ensures var db := h(p.netsAt.0);
            && SentPerCampaign(db, tenant, campaigns) == |Sent(db, tenant)|
            && (forall n :: n in Stated(setting.stated, ReplyTexts(results)) ==>
                  n == SentPerCampaign(db, tenant, campaigns))
            && (m in Sent(db, tenant) ==> exists c :: c in campaigns && OnlyKeyedTo(m, c, campaigns))
  {
    var db := h(p.netsAt.0);
    CleanExitMeansMoneySafe(h, setting, tenant, steps, scenarioXfail, p, results);
    CampaignCountsAddUp(db, tenant, setting.stated, ReplyTexts(results), campaigns);
    if m in Sent(db, tenant) {
      EachSendHasOneCampaign(db, tenant, setting.stated, ReplyTexts(results), m);
      var c :| c in ApprovedCampaigns(db, tenant) && KeyedTo(m, c)
               && forall d :: d in ApprovedCampaigns(db, tenant) && KeyedTo(m, d) ==> d == c;
      assert c in campaigns && OnlyKeyedTo(m, c, campaigns);
    }
  }

  // ---------------------------------------------------------------- one run per message

  ghost predicate HandledAt(p: Passage, i: nat, sid: string)
    requires i < |p.records|
  {
    HandledIn(p.records[i].win) && Sid(p.records[i]) == sid
  }

  lemma {:induction false} SeenExactly(p: Passage, n: nat, sid: string)
    requires n <= |p.records|
    ensures sid in SeenAfter(p.records[..n], p.seen) <==>
            sid in p.seen || exists i :: 0 <= i < n && HandledAt(p, i, sid)
    decreases n
  {
    if n > 0 {
      assert p.records[..n][..n - 1] == p.records[..n - 1];
      SeenExactly(p, n - 1, sid);
      assert sid in SeenIn(p.records[n - 1]) <==> HandledAt(p, n - 1, sid);
    }
  }

  /** Every step's turn has its MessageSid, as any captured turn does. */
  ghost predicate AllHaveSids(p: Passage) {
    forall i :: 0 <= i < |p.records| ==> p.records[i].turn.sid.Some?
  }

  lemma RunsStep(p: Passage, n: nat)
    requires 0 < n <= |p.records| && AllHaveSids(p)
    ensures
      var rec := p.records[n - 1];
      && AllRuns(p.records[..n])
         == AllRuns(p.records[..n - 1]) + (if HandledIn(rec.win) && !rec.win.post.known then [Sid(rec)] else [])
      && SeenAfter(p.records[..n], p.seen) == SeenAfter(p.records[..n - 1], p.seen) + SeenIn(rec)
  {
    assert p.records[..n][..n - 1] == p.records[..n - 1];
  }

  /** The runs started so far are, once each, the MessageSids seen since. */
  ghost predicate RunsHold(runs: seq<string>, seen0: set<string>, seen: set<string>) {
    seen0 <= seen && Distinct(runs) && forall x :: x in runs <==> x in seen && x !in seen0
  }

  lemma OneMoreRun(runs: seq<string>, seen0: set<string>, seen: set<string>, sid: string, handled: bool)
    requires RunsHold(runs, seen0, seen)
    ensures RunsHold(runs + (if handled && sid !in seen then [sid] else []), seen0,
                     seen + (if handled then {sid} else {}))
  {
  }

  lemma {:induction false} RunsSoFar(p: Passage, n: nat)
    requires n <= |p.records| && PostsInOrder(p.records, p.seen) && AllHaveSids(p)
    ensures RunsHold(AllRuns(p.records[..n]), p.seen, SeenAfter(p.records[..n], p.seen))
    decreases n
  {
    if n > 0 {
      var rec, seen := p.records[n - 1], SeenAfter(p.records[..n - 1], p.seen);
      RunsSoFar(p, n - 1);
      RunsStep(p, n);
      assert rec.win.post.known == (Sid(rec) in seen);
      OneMoreRun(AllRuns(p.records[..n - 1]), p.seen, seen, Sid(rec), HandledIn(rec.win));
    }
  }

  lemma {:induction false} AtMostOneRunEach(p: Passage, n: nat)
    requires n <= |p.records| && AllHaveSids(p)
    ensures |AllRuns(p.records[..n])| <= n
    decreases n
  {
    if n > 0 {
      RunsStep(p, n);
      AtMostOneRunEach(p, n - 1);
    }
  }

  /** Over a whole run no MessageSid starts a second run: the runs it starts are, once each, those of
      the MessageSids that the ingress had not seen before and that some step's posts got through. So n
      steps start at most n runs, however often their posts are repeated, lost or late. */
  lemma OneRunPerMessage(
      h: History, setting: Setting, tenant: string, steps: seq<Step>, scenarioXfail: bool, p: Passage,
      results: seq<StepResult>, sid: string)
    requires Follows(h, setting, tenant, steps, scenarioXfail, p, results)
    ensures Distinct(AllRuns(p.records)) && |AllRuns(p.records)| <= |steps|
    ensures sid in AllRuns(p.records) <==>
            sid !in p.seen && exists i :: 0 <= i < |steps| && HandledAt(p, i, sid)
  {
    assert PostsInOrder(p.records, p.seen) by {
      assert FollowsIn(h, setting, tenant, steps, scenarioXfail, p, results, Posts);
    }
    forall i | 0 <= i < |p.records| ensures p.records[i].turn.sid.Some? {
      StepJudged(h, setting, tenant, steps, scenarioXfail, p, results, i);
      assert JudgedIn(h, setting, tenant, steps[i], scenarioXfail, p.records[i], p.first[i], Capture);
    }
    assert p.records[..|steps|] == p.records;
    RunsSoFar(p, |steps|);
    AtMostOneRunEach(p, |steps|);
    SeenExactly(p, |steps|, sid);
  }

  // ---------------------------------------------------------------- how long a run waits

  /** The longest that one step can sleep: its retries, and its poll and its settling, each with one
      interval over. */
  function StepWait(setting: Setting): nat {
    BACKOFF * RETRIES + setting.timeout + RUN_POLL + SETTLE_CEILING + SETTLE_POLL
  }

  lemma RecordWaits(
      h: History, setting: Setting, tenant: string, step: Step, scenarioXfail: bool, rec: Record, r: StepResult)
    requires Judged(h, setting, tenant, step, scenarioXfail, rec, r)
    ensures RecordSleeps(rec) <= StepWait(setting)
  {
    assert WindowSleeps(rec.turn, rec.win) <= BACKOFF * RETRIES + setting.timeout + RUN_POLL by {
      assert JudgedIn(h, setting, tenant, step, scenarioXfail, rec, r, Polling);
    }
    assert rec.settling.Some? ==>
             SETTLE_POLL * SettleSleeps(rec.settling.value, rec.state) <= SETTLE_CEILING + SETTLE_POLL by {
      assert JudgedIn(h, setting, tenant, step, scenarioXfail, rec, r, Reading);
    }
  }

  lemma {:induction false} RecordsWait(
      h: History, setting: Setting, tenant: string, steps: seq<Step>, scenarioXfail: bool, p: Passage,
      results: seq<StepResult>, n: nat)
    requires Follows(h, setting, tenant, steps, scenarioXfail, p, results) && n <= |steps|
    ensures AllSleeps(p.records[..n]) <= n * StepWait(setting)
    decreases n
  {
    if n > 0 {
      RecordsWait(h, setting, tenant, steps, scenarioXfail, p, results, n - 1);
      assert p.records[..n] == p.records[..n - 1] + [p.records[n - 1]];
      SleepsSnoc(p.records[..n - 1], p.records[n - 1]);
      StepJudged(h, setting, tenant, steps, scenarioXfail, p, results, n - 1);
      RecordWaits(h, setting, tenant, steps[n - 1], scenarioXfail, p.records[n - 1], p.first[n - 1]);
      assert n * StepWait(setting) == (n - 1) * StepWait(setting) + StepWait(setting);
    }
  }

  /** Whatever the system under test does, a run sleeps no longer, in milliseconds, than its steps' retries,
      timeouts and settle ceilings and one sweep cap, give or take a polling interval each. */
  lemma RunWaitsAtMost(
      h: History, setting: Setting, tenant: string, steps: seq<Step>, scenarioXfail: bool, p: Passage,
      results: seq<StepResult>)
    requires Follows(h, setting, tenant, steps, scenarioXfail, p, results)
    ensures PassageSleeps(p) <= |steps| * (setting.timeout + 926_500) + 140_000
  {
    RecordsWait(h, setting, tenant, steps, scenarioXfail, p, results, |steps|);
    assert StepWait(setting) == setting.timeout + 926_500;
    assert p.records[..|steps|] == p.records;
    assert FollowsIn(h, setting, tenant, steps, scenarioXfail, p, results, Sweeping);
  }
}
