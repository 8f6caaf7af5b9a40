/** What the verdict on a step says about its reply and about the database, from the declared checks alone. */
module Judgement {
  import opened Common
  import opened Store
  import opened Asserts
  import opened Verdicts
  import opened Settle
  import opened Sweep
  import opened Scenario
  import opened Phases

  // ---------------------------------------------------------------- the first verdict

  /** The reading of the database that a step's verdict rests on: the last one of its settling, else the
      first. */
  function DecidedAt(rec: Record): nat {
    if rec.settling.Some? && rec.settling.value.readings != [] then
      rec.settling.value.readings[|rec.settling.value.readings| - 1]
    else rec.readAt
  }

  /** A guard breach, or a run that outlived its timeout without a reply, decides without any check. */
  predicate Overridden(step: Step, rec: Record) {
    rec.turn.reasons != []
    || (step.noSilent && Unreplied(rec.turn.transcript) && rec.turn.runStatus == Some("running"))
  }

  lemma OverriddenExactly(step: Step, rec: Record)
    ensures Overridden(step, rec) <==> SkipsAsserts(step, rec.turn)
  {
    ReplyExactly(rec.turn.transcript);
  }

  lemma LastReadingWithin(h: History, tenant: string, sid: Option<string>, t: Trace)
    requires Rounds(h, tenant, sid, t) && t.readings != []
    ensures t.started <= t.readings[|t.readings| - 1] <= t.ended
  {
    StartsBefore(h, tenant, sid, t, |t.readings| - 1);
    assert Round(h, tenant, sid, t, |t.readings| - 1);
  }

  lemma SettledWhenDecided(
      h: History, tenant: string, run: Option<string>, asserts: DbAsserts, sid: Option<string>, t: Trace,
      initial: seq<Failure>, remaining: seq<Failure>, state: SettleState)
    requires SettledAs(h, tenant, run, asserts, sid, t, initial, remaining, state)
    ensures t.readings != [] ==>
              var last := t.readings[|t.readings| - 1];
              t.started <= last <= t.ended && remaining == EvaluateDbAsserts(h(last), tenant, run, asserts, sid)
    ensures t.readings == [] ==> remaining == initial
  {
    if t.readings != [] {
      LastReadingWithin(h, tenant, ProbeSid(asserts, sid), t);
    }
  }

  /** The recorded database failures are what the asserts answered at one instant after the turn. */
  lemma ReadWhenDecided(h: History, tenant: string, step: Step, rec: Record)
    requires ReallyRead(h, tenant, step, rec) && Timely(rec) && !Overridden(step, rec)
    ensures rec.db == EvaluateDbAsserts(h(DecidedAt(rec)), tenant, Some(rec.turn.runId), step.db, rec.turn.sid)
    ensures rec.win.marked <= DecidedAt(rec) <= rec.ended
  {
    OverriddenExactly(step, rec);
    var run, sid := Some(rec.turn.runId), rec.turn.sid;
    if rec.settling.Some? {
      SettledWhenDecided(h, tenant, run, step.db, sid, rec.settling.value,
                         EvaluateDbAsserts(h(rec.readAt), tenant, run, step.db, sid), rec.db, rec.state);
    }
  }

  /** The verdict without its spelling out: the parts of `Judged` that the theorems below use. */
  lemma VerdictParts(
      h: History, setting: Setting, tenant: string, step: Step, scenarioXfail: bool, rec: Record, r: StepResult)
    requires Judged(h, setting, tenant, step, scenarioXfail, rec, r)
    ensures ReallyRead(h, tenant, step, rec) && Timely(rec)
    ensures r == Judge(step, scenarioXfail, rec.turn,
                       TextFailures(setting.rules, rec.turn.transcript, rec.turn.runStatus, step), rec.db, rec.state)
  {
    assert JudgedIn(h, setting, tenant, step, scenarioXfail, rec, r, Reading);
    assert JudgedIn(h, setting, tenant, step, scenarioXfail, rec, r, Timing);
    assert JudgedIn(h, setting, tenant, step, scenarioXfail, rec, r, Verdict);
  }

  /** Where nothing overrides it, a step's reasons are exactly what its text checks object to in its own
      reply, what its asserts reported at the reading that decided, and that the latter is unsettled. */
  lemma ReasonsExactly(
      h: History, setting: Setting, tenant: string, step: Step, scenarioXfail: bool, rec: Record, r: StepResult,
      f: Failure)
    requires Judged(h, setting, tenant, step, scenarioXfail, rec, r) && !Overridden(step, rec)
    ensures r.transcript == rec.turn.transcript && r.runStatus == rec.turn.runStatus && r.runId == rec.turn.runId
    ensures rec.win.marked <= DecidedAt(rec) <= rec.ended
    ensures f in r.reasons <==>
              || Objects(setting.rules, r.transcript, r.runStatus, step, f)
              || f in EvaluateDbAsserts(h(DecidedAt(rec)), tenant, Some(r.runId), step.db, rec.turn.sid)
              || (f == Unsettled && r.lbl == INDETERMINATE)
  {
    VerdictParts(h, setting, tenant, step, scenarioXfail, rec, r);
    var text := TextFailures(setting.rules, rec.turn.transcript, rec.turn.runStatus, step);
    KeepsTheTurn(step, scenarioXfail, rec.turn, text, rec.db, rec.state);
    OverriddenExactly(step, rec);
    ReadWhenDecided(h, tenant, step, rec);
    FailureOrigins(setting.rules, r.transcript, r.runStatus, step, f);
    ReasonInJudge(step, scenarioXfail, rec, text, f);
  }

  lemma ReasonInJudge(step: Step, scenarioXfail: bool, rec: Record, text: seq<Failure>, f: Failure)
    requires !SkipsAsserts(step, rec.turn)
    ensures
      var r := Judge(step, scenarioXfail, rec.turn, text, rec.db, rec.state);
      && (f in r.reasons <==> f in text || f in rec.db || (f == Unsettled && r.lbl == INDETERMINATE))
      && (r.lbl == INDETERMINATE <==> rec.db != [] && rec.state == Indeterminate)
  {
  }

  lemma LabelInJudge(step: Step, scenarioXfail: bool, rec: Record, text: seq<Failure>)
    requires !SkipsAsserts(step, rec.turn) && !(rec.db != [] && rec.state == Indeterminate)
    ensures
      var r := Judge(step, scenarioXfail, rec.turn, text, rec.db, rec.state);
      var marked := match step.expectedFail case Some(own) => own case None => scenarioXfail;
      r.lbl == if r.reasons == [] then (if marked then XPASS else PASS) else if marked then XFAIL else FAIL
  {
  }

  lemma OverridingInJudge(step: Step, scenarioXfail: bool, rec: Record, text: seq<Failure>)
    requires SkipsAsserts(step, rec.turn)
    ensures
      var r := Judge(step, scenarioXfail, rec.turn, text, rec.db, rec.state);
      if rec.turn.reasons != [] then r.lbl == FAIL && r.reasons == rec.turn.reasons
      else r.lbl == TIMEOUT && r.reasons == [TimedOut]
  {
  }

  /** A step first passes exactly if no guard was breached, its run did not outlive the timeout unreplied,
      no declared text check objects to its reply, and everything it declares about the database was so
      at one instant after its turn. */
  lemma PassesExactly(
      h: History, setting: Setting, tenant: string, step: Step, scenarioXfail: bool, rec: Record, r: StepResult)
    requires Judged(h, setting, tenant, step, scenarioXfail, rec, r)
    ensures r.lbl in {PASS, XPASS} <==> r.reasons == []
    ensures r.lbl in {PASS, XPASS} <==>
              && !Overridden(step, rec)
              && (forall f :: !Objects(setting.rules, r.transcript, r.runStatus, step, f))
              && AssertsMet(h(DecidedAt(rec)), tenant, r.runId, step.db, rec.turn.sid)
    ensures !Overridden(step, rec) ==> rec.win.marked <= DecidedAt(rec) <= rec.ended
  {
    VerdictParts(h, setting, tenant, step, scenarioXfail, rec, r);
    var text := TextFailures(setting.rules, rec.turn.transcript, rec.turn.runStatus, step);
    KeepsTheTurn(step, scenarioXfail, rec.turn, text, rec.db, rec.state);
    OverriddenExactly(step, rec);
    NoneObjects(setting.rules, rec.turn.transcript, rec.turn.runStatus, step);
    PassInJudge(step, scenarioXfail, rec, text);
    if !Overridden(step, rec) {
      ReadWhenDecided(h, tenant, step, rec);
      AssertsPassExactly(h(DecidedAt(rec)), tenant, Some(r.runId), step.db, rec.turn.sid);
    }
  }

  lemma PassInJudge(step: Step, scenarioXfail: bool, rec: Record, text: seq<Failure>)
    ensures
      var r := Judge(step, scenarioXfail, rec.turn, text, rec.db, rec.state);
      && (r.lbl in {PASS, XPASS} <==> r.reasons == [])
      && (r.lbl in {PASS, XPASS} <==> !SkipsAsserts(step, rec.turn) && text == [] && rec.db == [])
  {
  }

  /** Which label goes with the reasons. A breach fails; a timeout is its own label; what is unsettled is
      indeterminate; and otherwise the step's own mark, or without one the scenario's, decides between
      FAIL and XFAIL with reasons, and between PASS and XPASS without. */
  lemma LabelExactly(
      h: History, setting: Setting, tenant: string, step: Step, scenarioXfail: bool, rec: Record, r: StepResult)
    requires Judged(h, setting, tenant, step, scenarioXfail, rec, r)
    ensures rec.turn.reasons != [] ==> r.lbl == FAIL && r.reasons == rec.turn.reasons
    ensures rec.turn.reasons == [] && Overridden(step, rec) ==> r.lbl == TIMEOUT && r.reasons == [TimedOut]
    ensures Overridden(step, rec) ==> rec.settling.None? && rec.db == []
    ensures !Overridden(step, rec) && Unsettled in r.reasons ==> r.lbl == INDETERMINATE
    ensures !Overridden(step, rec) && Unsettled !in r.reasons ==>
              var marked := match step.expectedFail case Some(own) => own case None => scenarioXfail;
              r.lbl == if r.reasons == [] then (if marked then XPASS else PASS) else if marked then XFAIL else FAIL
    ensures Unsettled in r.reasons <==> rec.db != [] && rec.state == Indeterminate
  {
    VerdictParts(h, setting, tenant, step, scenarioXfail, rec, r);
    var text := TextFailures(setting.rules, rec.turn.transcript, rec.turn.runStatus, step);
    OverriddenExactly(step, rec);
    UnsettledIsNew(h, setting, tenant, step, scenarioXfail, rec, r);
    if Overridden(step, rec) {
      OverridingInJudge(step, scenarioXfail, rec, text);
    } else {
      ReasonInJudge(step, scenarioXfail, rec, text, Unsettled);
      if Unsettled !in r.reasons {
        LabelInJudge(step, scenarioXfail, rec, text);
      }
    }
  }

  lemma UnsettledIsNew(
      h: History, setting: Setting, tenant: string, step: Step, scenarioXfail: bool, rec: Record, r: StepResult)
    requires Judged(h, setting, tenant, step, scenarioXfail, rec, r)
    ensures Unsettled !in rec.turn.reasons && Unsettled !in rec.db
    ensures Unsettled !in TextFailures(setting.rules, rec.turn.transcript, rec.turn.runStatus, step)
    ensures SkipsAsserts(step, rec.turn) ==> rec.settling.None? && rec.db == [] && rec.state == Settled
  {
    assert Unsettled !in rec.turn.reasons by {
      assert JudgedIn(h, setting, tenant, step, scenarioXfail, rec, r, Capture);
      CapturedReasons(h, setting, tenant, step.message, rec.turn, rec.win);
    }
    assert JudgedIn(h, setting, tenant, step, scenarioXfail, rec, r, Reading);
    RecordedFailuresAreDb(h, tenant, step, rec);
    FailureOrigins(setting.rules, rec.turn.transcript, rec.turn.runStatus, step, Unsettled);
  }

  // ---------------------------------------------------------------- the last verdict

  /** What passing means at the end of a run: no declared text check objects to the step's own reply or, if
      it was cleared by the re-evaluation, to the whole conversation; and unless a breach kept the asserts
      from being read, everything the step declares about the database was so at one instant after its
      turn. */
  lemma PassedMeansMet(
      h: History, setting: Setting, tenant: string, steps: seq<Step>, scenarioXfail: bool, p: Passage,
      results: seq<StepResult>, i: nat)
    requires Follows(h, setting, tenant, steps, scenarioXfail, p, results) && i < |steps|
    ensures |results| == |p.first| == |p.records| == |steps|
    ensures results[i].lbl in {PASS, XPASS} ==>
              || (forall f :: !Objects(setting.rules, p.first[i].transcript, p.first[i].runStatus, steps[i], f))
              || (p.sweep.Some? && forall f :: !Objects(setting.rules, Whole(p), p.first[i].runStatus, steps[i], f))
    ensures results[i].lbl in {PASS, XPASS} && p.records[i].turn.reasons == [] ==>
              && AssertsMet(h(DecidedAt(p.records[i])), tenant, p.first[i].runId, steps[i].db, p.records[i].turn.sid)
              && p.records[i].win.marked <= DecidedAt(p.records[i]) <= p.records[i].ended
  {
    FinalLabelExactly(h, setting, tenant, steps, scenarioXfail, p, results, i);
    StepJudged(h, setting, tenant, steps, scenarioXfail, p, results, i);
    PassesExactly(h, setting, tenant, steps[i], scenarioXfail, p.records[i], p.first[i]);
    if results[i].lbl in {PASS, XPASS} && p.first[i].lbl !in {PASS, XPASS} && p.records[i].turn.reasons == [] {
      LabelExactly(h, setting, tenant, steps[i], scenarioXfail, p.records[i], p.first[i]);
      CuredMeansMet(h, setting, tenant, steps[i], scenarioXfail, p.records[i], p.first[i]);
    }
  }

  lemma NothingReported(
      h: History, setting: Setting, tenant: string, step: Step, scenarioXfail: bool, rec: Record, r: StepResult)
    requires Judged(h, setting, tenant, step, scenarioXfail, rec, r) && !Overridden(step, rec)
    requires forall f :: f in r.reasons ==> !f.Route? && !f.SideEffect? && !f.Grounded? && !f.NoRun?
    ensures rec.db == [] && r.runId == rec.turn.runId
  {
    var text := TextFailures(setting.rules, rec.turn.transcript, rec.turn.runStatus, step);
    VerdictParts(h, setting, tenant, step, scenarioXfail, rec, r);
    KeepsTheTurn(step, scenarioXfail, rec.turn, text, rec.db, rec.state);
    OverriddenExactly(step, rec);
    RecordedFailuresAreDb(h, tenant, step, rec);
    assert rec.db != [] ==> FromDatabase(rec.db[0]);
    if rec.db != [] {
      ReasonInJudge(step, scenarioXfail, rec, text, rec.db[0]);
    }
  }

  /** A failed step without a breach and without a database failure met its asserts. */
  lemma CuredMeansMet(
      h: History, setting: Setting, tenant: string, step: Step, scenarioXfail: bool, rec: Record, r: StepResult)
    requires Judged(h, setting, tenant, step, scenarioXfail, rec, r) && rec.turn.reasons == [] && r.lbl == FAIL
    requires forall f :: f in r.reasons ==> !f.Route? && !f.SideEffect? && !f.Grounded? && !f.NoRun?
    ensures !Overridden(step, rec)
    ensures AssertsMet(h(DecidedAt(rec)), tenant, r.runId, step.db, rec.turn.sid)
    ensures rec.win.marked <= DecidedAt(rec) <= rec.ended
  {
    assert !Overridden(step, rec) by {
      LabelExactly(h, setting, tenant, step, scenarioXfail, rec, r);
    }
    NothingReported(h, setting, tenant, step, scenarioXfail, rec, r);
    assert ReallyRead(h, tenant, step, rec) && Timely(rec) by {
      VerdictParts(h, setting, tenant, step, scenarioXfail, rec, r);
    }
    ReadWhenDecided(h, tenant, step, rec);
    AssertsPassExactly(h(DecidedAt(rec)), tenant, Some(rec.turn.runId), step.db, rec.turn.sid);
  }
}
