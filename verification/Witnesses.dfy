/** Concrete runs of one step in which the harness says something that is not so. */
module Witnesses {
  import opened Common
  import opened Store
  import opened Money
  import opened Verdicts
  import opened Settle
  import opened Sweep
  import opened Scenario
  import opened Transport
  import opened Phases
  import opened Coverage

  /** A reply that states a count. */
  const CLAIM := "Sent 5."
  const PLAIN := Setting(
    Rules(c => [c], c => false, [], []),
    s => "r",
    s => if s == CLAIM then Some(5) else None,
    1_000)
  const TELLING := Step("hi", true, [], [], false, false, None, None, None, DbAsserts(None, None, None))

  lemma OneRow<T(!new)>(keep: T -> bool, x: T)
    ensures Filter(keep, [x]) == if keep(x) then [x] else []
  {
    FilterSnoc(keep, [], x);
    assert [] + [x] == [x];
  }

  /** A database whose log is one row of the tenant's lifetime. */
  lemma OneNewTurn(db: Db, row: LogRow)
    requires db.log == [row] && row.tenant == "t" && SinceTenant(db, "t", row.createdAt)
    ensures NewTurns(db, "t", {}) == [row]
  {
    OneRow((r: LogRow) => r.tenant == "t" && SinceTenant(db, "t", r.createdAt), row);
    assert Ordered([row]) == [row] by { assert [row][..0] == []; }
    var seen: set<string> := {};
    OneRow((r: LogRow) => r.id !in seen, row);
  }

  lemma NothingSeen(db: Db)
    requires db.log == []
    ensures ConversationIds(db, "t") == {} && NewTurns(db, "t", {}) == []
  {
  }

  lemma OneText(t: Turn)
    ensures AssistantTexts([t]) == if IsAssistant(t) then [t.text] else []
  {
    assert [t][..0] == [];
  }

  lemma CapturedSo(h: History, message: string, r: StepResult, win: Window, turns: seq<Turn>)
    requires TurnsOf(NewTurns(h(win.after), "t", ConversationIds(h(win.before), "t"))) == turns
    requires r.sid == Some("x") && r.runId == "r" && CampaignForRun(h(win.marked), "t", Some("r"), r.sid).None?
    requires r.transcript == Transcript(message, "x", turns, false) && r.reasons == BreachReasons(turns)
    requires r.ok == (r.reasons == []) && !r.xfail && r.lbl == (if r.ok then PASS else FAIL)
    ensures Captured(h, PLAIN, "t", message, r, win)
  {
  }

  lemma ReplyIsNew(before: Db, after: Db, row: LogRow)
    requires before.log == [] && after.log == [row] && row.tenant == "t" && SinceTenant(after, "t", row.createdAt)
    ensures TurnsOf(NewTurns(after, "t", ConversationIds(before, "t"))) == [TurnOf(row)]
  {
    NothingSeen(before);
    OneNewTurn(after, row);
  }

  /** A message that is posted, handled and answered at once. */
  const AT_ONCE := Post(k => Answered(None), false, 0, 0)

  lemma StartedHasARun()
    ensures !NoRunReason("started")
  {
    assert "started"[0] == 's' && "http_"[0] == 'h';
  }

  lemma PostedAtOnce(r: StepResult, win: Window)
    requires win.post == AT_ONCE && r.ingressReason == "started"
    ensures PostedIn(r, win)
  {
    assert !AT_ONCE.network(0).NoAnswer?;
  }

  /** A turn whose one new row is a reply. */
  lemma CapturedReply(h: History, r: StepResult, row: LogRow)
    requires h(0).log == [] && h(1).log == [row] && h(1).campaigns == []
    requires row.tenant == "t" && SinceTenant(h(1), "t", row.createdAt)
    requires r.sid == Some("x") && r.runId == "r" && r.transcript == Transcript("hi", "x", [TurnOf(row)], false)
    requires r.reasons == BreachReasons([TurnOf(row)])
    requires r.ok == (r.reasons == []) && !r.xfail && r.lbl == (if r.ok then PASS else FAIL)
    ensures Captured(h, PLAIN, "t", "hi", r, TOLD_WINDOW)
  {
    ReplyIsNew(h(0), h(1), row);
    NoCampaigns(h(1));
    CapturedSo(h, "hi", r, TOLD_WINDOW, [TurnOf(row)]);
  }

  lemma NoCampaigns(db: Db)
    requires db.campaigns == []
    ensures CampaignForRun(db, "t", Some("r"), Some("x")).None?
  {
  }

  lemma RepliesOf(results: seq<StepResult>)
    requires |results| == 1
    ensures forall x :: x in ReplyTexts(results) ==> x in AssistantTexts(results[0].transcript)
  {
    assert AllTurns(results[..0]) == [];
    assert AllTurns(results) == results[0].transcript;
  }

  lemma NothingStated(replies: seq<string>)
    requires CLAIM !in replies
    ensures Stated(PLAIN.stated, replies) == []
  {
    if replies != [] {
      NothingStated(replies[1..]);
    }
  }

  lemma Following(h: History, step: Step, p: Passage, results: seq<StepResult>)
    requires |p.records| == |p.first| == |results| == 1 && p.seen == {} && !p.records[0].win.post.known
    requires Judged(h, PLAIN, "t", step, false, p.records[0], p.first[0])
    requires FollowsIn(h, PLAIN, "t", [step], false, p, results, Sweeping)
    requires FollowsIn(h, PLAIN, "t", [step], false, p, results, Nets)
    requires FollowsIn(h, PLAIN, "t", [step], false, p, results, Order)
    ensures Follows(h, PLAIN, "t", [step], false, p, results)
  {
    assert JudgedAt(h, PLAIN, "t", [step], false, p.records, p.first, 0);
    assert FollowsIn(h, PLAIN, "t", [step], false, p, results, Steps);
    assert FollowsIn(h, PLAIN, "t", [step], false, p, results, Posts) by {
      assert p.records[..0] == [];
    }
  }

  /** Without a sweep, and with nothing for the money checks to report, the first result is the last. */
  lemma NetsPass(h: History, step: Step, p: Passage)
    requires |p.records| == |p.first| == 1 && p.sweep.None?
    requires NetsRead(h, "t", PLAIN.stated, ReplyTexts(p.first), p.netsAt) == []
    ensures FollowsIn(h, PLAIN, "t", [step], false, p, p.first, Nets)
  {
  }

  lemma TellingNeedsNoSweep(r: StepResult)
    ensures !NeedsSweep(PLAIN.rules, [TELLING], [r])
  {
  }

  /** A run of the undemanding step that nothing sweeps and nothing fails afterwards. */
  lemma QuietRun(h: History, p: Passage)
    requires |p.records| == |p.first| == 1 && p.seen == {} && !p.records[0].win.post.known
    requires Judged(h, PLAIN, "t", TELLING, false, p.records[0], p.first[0])
    requires p.sweep.None? && p.late == [] && PhasesInOrder(p)
    requires NetsRead(h, "t", PLAIN.stated, ReplyTexts(p.first), p.netsAt) == []
    ensures Follows(h, PLAIN, "t", [TELLING], false, p, p.first)
  {
    assert p.first == [p.first[0]];
    TellingNeedsNoSweep(p.first[0]);
    NetsPass(h, TELLING, p);
    Following(h, TELLING, p, p.first);
  }

  // ---------------------------------------------------------------- a send between the money checks

  const REPLY := LogRow("t", "1", "assistant", "Done.", None, 0)
  const ANSWERED := Transcript("hi", "x", [TurnOf(REPLY)], false)
  const TOLD := StepResult(true, false, PASS, [], ANSWERED, Some("done"), "started", "r", Some("x"))
  const TOLD_WINDOW := Window(0, AT_ONCE, Some(Poll(0, [0], 0)), 1, 1)
  const TOLD_RECORD := Record(0, TOLD, TOLD_WINDOW, 1, None, [], SettleState.Settled, 1)
  const OVERTAKEN := Passage(0, {}, [TOLD_RECORD], [TOLD.(sid := None)], None, [], (2, 3, 4), 4)

  /** An unapproved message goes out at instant 3. */
  function SendHistory(t: nat): Db {
    Db(map["t" := 0], map["r" := "done"], [], [],
       if t < 3 then [] else [Message("t", Some("c:1"), "sent", 3)],
       [], if t == 0 then [] else [REPLY], true)
  }

  lemma ToldCaptured()
    ensures Captured(SendHistory, PLAIN, "t", "hi", TOLD, TOLD_WINDOW)
  {
    OneRow((t: Turn) => IsAssistant(t) && RealSid(t.sid), TurnOf(REPLY));
    CapturedReply(SendHistory, TOLD, REPLY);
  }

  lemma AnsweredShape()
    ensures ANSWERED == [Turn("owner", "hi", Some("x")), TurnOf(REPLY), Marker(false)]
  {
    OneRow((t: Turn) => !(t.role == "owner" && t.sid == Some("x")), TurnOf(REPLY));
  }

  lemma ToldText()
    ensures AssistantTexts(ANSWERED) == ["Done."]
    ensures TextFailures(PLAIN.rules, ANSWERED, Some("done"), TELLING) == []
  {
    AnsweredShape();
    var owner, reply, marker := Turn("owner", "hi", Some("x")), TurnOf(REPLY), Marker(false);
    assert ANSWERED == [owner] + [reply] + [marker];
    TextsConcat([owner], [reply]);
    TextsConcat([owner] + [reply], [marker]);
    OneText(owner);
    OneText(reply);
    OneText(marker);
    UndemandingSatisfied(TELLING, ANSWERED, Some("done"));
  }

  /** A step that asks nothing of the text but that there is one. */
  predicate Undemanding(step: Step) {
    && step.contains == [] && step.notContains == [] && !step.notD1 && !step.isQuestion
    && step.runReason.None? && step.runReasonNot.None?
  }

  lemma UndemandingSatisfied(step: Step, turns: seq<Turn>, status: Option<string>)
    requires Undemanding(step) && AssistantTexts(turns) != []
    ensures TextFailures(PLAIN.rules, turns, status, step) == []
  {
  }

  /** A poll that finds the run done at its first look, at instant 0. */
  lemma PolledAtOnce(h: History, r: StepResult)
    requires HasStatus(h(0), "r", "done") && r.runId == "r" && r.runStatus == Some("done")
    requires r.ingressReason == "started"
    ensures PolledIn(h, PLAIN, r, TOLD_WINDOW)
  {
    StartedHasARun();
  }

  lemma NothingDeclared(h: History, rec: Record)
    requires rec.db == [] && rec.state == SettleState.Settled && rec.settling.None?
    ensures ReallyRead(h, "t", TELLING, rec)
  {
  }

  lemma JudgedAsText(step: Step, rec: Record, text: seq<Failure>)
    requires rec.turn.reasons == [] && rec.db == [] && (text == [] ==> AssistantTexts(rec.turn.transcript) != [])
    requires text == [Silent] ==> rec.turn.runStatus.None?
    requires (text == [] || text == [Silent]) && step.expectedFail.None?
    ensures Judge(step, false, rec.turn, text, rec.db, rec.state)
         == rec.turn.(ok := text == [], xfail := false, lbl := if text
           == [] then PASS else FAIL, reasons := text, sid := None)
  {
    assert text + rec.db == text;
  }

  lemma ToldJudged()
    ensures Judged(SendHistory, PLAIN, "t", TELLING, false, TOLD_RECORD, TOLD.(sid := None))
  {
    ToldCaptured();
    assert PolledIn(SendHistory, PLAIN, TOLD, TOLD_WINDOW) by { PolledAtOnce(SendHistory, TOLD); }
    PostedAtOnce(TOLD, TOLD_WINDOW);
    assert ReallyRead(SendHistory, "t", TELLING, TOLD_RECORD) by { NothingDeclared(SendHistory, TOLD_RECORD); }
    ToldText();
    JudgedAsText(TELLING, TOLD_RECORD, []);
    JudgedInAll(SendHistory, PLAIN, "t", TELLING, false, TOLD_RECORD, TOLD.(sid := None));
  }

  lemma OvertakenNets(replies: seq<string>)
    requires CLAIM !in replies
    ensures NetsRead(SendHistory, "t", PLAIN.stated, replies, (2, 3, 4)) == []
  {
    NothingStated(replies);
    NetsReadExactly(SendHistory, "t", PLAIN.stated, replies, (2, 3, 4));
    OneSend(3);
    NoDoubleSendExactly(SendHistory(3), "t");
  }

  lemma OneSend(t: nat)
    requires t >= 3
    ensures Sent(SendHistory(t), "t") == [Message("t", Some("c:1"), "sent", 3)]
    ensures AssertNoUnapproved(SendHistory(t), "t") == [UnapprovedSend]
  {
    var m := Message("t", Some("c:1"), "sent", 3);
    OneRow((x: Message) => x.tenant == "t" && IsSent(x), m);
    NoUnapprovedExactly(SendHistory(t), "t");
    assert m in Sent(SendHistory(t), "t");
  }

  lemma PassingExits(results: seq<StepResult>)
    requires |results| == 1 && results[0].lbl == PASS
    ensures ExitCode(results) == 0
  {
    ExitZeroExactly(results);
  }

  lemma FailingExits(results: seq<StepResult>)
    requires |results| == 1 && results[0].lbl == FAIL
    ensures ExitCode(results) == 1
  {
    ExitZeroExactly(results);
  }

  lemma ToldReplies()
    ensures CLAIM !in ReplyTexts([TOLD.(sid := None)])
  {
    RepliesOf([TOLD.(sid := None)]);
    ToldText();
  }

  lemma OvertakenInOrder()
    ensures PhasesInOrder(OVERTAKEN)
  {
  }

  lemma OvertakenFollows()
    ensures Follows(SendHistory, PLAIN, "t", [TELLING], false, OVERTAKEN, OVERTAKEN.first)
  {
    ToldJudged();
    assert NetsRead(SendHistory, "t", PLAIN.stated, ReplyTexts(OVERTAKEN.first), OVERTAKEN.netsAt) == [] by {
      ToldReplies();
      OvertakenNets(ReplyTexts(OVERTAKEN.first));
    }
    assert PhasesInOrder(OVERTAKEN) by { OvertakenInOrder(); }
    QuietRun(SendHistory, OVERTAKEN);
  }

  /** An unapproved send lands after the first check and before the others: the program exits with 0,
      and from the second check on the database has a send without approval. */
  lemma SendBetweenTheNetsIsMissed()
    ensures Follows(SendHistory, PLAIN, "t", [TELLING], false, OVERTAKEN, OVERTAKEN.first)
    ensures ExitCode(OVERTAKEN.first) == 0
    ensures forall t: nat :: OVERTAKEN.netsAt.1 <= t ==> AssertNoUnapproved(SendHistory(t), "t") == [UnapprovedSend]
  {
    OvertakenFollows();
    PassingExits(OVERTAKEN.first);
    forall t: nat | 3 <= t ensures AssertNoUnapproved(SendHistory(t), "t") == [UnapprovedSend] {
      OneSend(t);
    }
  }

  // ---------------------------------------------------------------- a working run called silent

  const UNANSWERED := Transcript("hi", "x", [], false)
  const WAITED := StepResult(true, false, PASS, [], UNANSWERED, None, "started", "r", Some("x"))
  const WAITED_WINDOW := Window(0, AT_ONCE, Some(Poll(0, [0], 1_500)), 1_500, 1_500)
  const WAITED_RECORD := Record(0, WAITED, WAITED_WINDOW, 1_500, None, [], SettleState.Settled, 1_500)
  const SILENCED := WAITED.(ok := false, lbl := FAIL, reasons := [Silent], sid := None)
  const IMPATIENT := Passage(0, {}, [WAITED_RECORD], [SILENCED], None, [], (1_500, 1_500, 1_500), 1_500)

  /** The run's row appears at 2000, running, and its reply at 5000. */
  function SlowHistory(t: nat): Db {
    Db(map["t" := 0], if t < 2_000 then map[] else map["r" := RUNNING], [], [], [], [],
       if t < 5_000 then [] else [REPLY], true)
  }

  lemma WaitedCaptured()
    ensures Captured(SlowHistory, PLAIN, "t", "hi", WAITED, WAITED_WINDOW)
  {
    assert NewTurns(SlowHistory(1_500), "t", ConversationIds(SlowHistory(0), "t")) == [] by {
      NothingSeen(SlowHistory(0));
      NothingSeen(SlowHistory(1_500));
    }
    assert TurnsOf([]) == [];
    assert CampaignForRun(SlowHistory(1_500), "t", Some("r"), Some("x")).None? by { NoCampaigns(SlowHistory(1_500)); }
    CapturedSo(SlowHistory, "hi", WAITED, WAITED_WINDOW, TurnsOf([]));
  }

  lemma WaitedText()
    ensures AssistantTexts(UNANSWERED) == []
    ensures TextFailures(PLAIN.rules, UNANSWERED, None, TELLING) == [Silent]
  {
    var owner, marker := Turn("owner", "hi", Some("x")), Marker(false);
    assert UNANSWERED == [owner] + [marker];
    TextsConcat([owner], [marker]);
    OneText(owner);
    OneText(marker);
    TellingUnsatisfied(UNANSWERED);
  }

  lemma TellingUnsatisfied(turns: seq<Turn>)
    requires AssistantTexts(turns) == []
    ensures TextFailures(PLAIN.rules, turns, None, TELLING) == [Silent]
  {
    assert !FallbackOnly(PLAIN.rules, "");
  }

  lemma WaitedJudged()
    ensures Judged(SlowHistory, PLAIN, "t", TELLING, false, WAITED_RECORD, SILENCED)
  {
    WaitedCaptured();
    assert PolledIn(SlowHistory, PLAIN, WAITED, WAITED_WINDOW) by { StartedHasARun(); }
    PostedAtOnce(WAITED, WAITED_WINDOW);
    assert ReallyRead(SlowHistory, "t", TELLING, WAITED_RECORD) by { NothingDeclared(SlowHistory, WAITED_RECORD); }
    WaitedText();
    JudgedAsText(TELLING, WAITED_RECORD, [Silent]);
    JudgedInAll(SlowHistory, PLAIN, "t", TELLING, false, WAITED_RECORD, SILENCED);
  }

  lemma NoSends(h: History, replies: seq<string>, at: (nat, nat, nat))
    requires h(at.0).messages == [] && h(at.1).messages == [] && h(at.2).messages == [] && CLAIM !in replies
    ensures NetsRead(h, "t", PLAIN.stated, replies, at) == []
  {
    NothingStated(replies);
    NetsReadExactly(h, "t", PLAIN.stated, replies, at);
  }

  lemma ImpatientFollows()
    ensures Follows(SlowHistory, PLAIN, "t", [TELLING], false, IMPATIENT, IMPATIENT.first)
  {
    WaitedJudged();
    RepliesOf(IMPATIENT.first);
    WaitedText();
    NoSends(SlowHistory, ReplyTexts(IMPATIENT.first), IMPATIENT.netsAt);
    QuietRun(SlowHistory, IMPATIENT);
  }

  /** The step fails as silent and the program exits with 1, although the turn's run is at work from
      2000 on and its reply arrives. */
  lemma WorkingRunIsCalledSilent()
    ensures Follows(SlowHistory, PLAIN, "t", [TELLING], false, IMPATIENT, IMPATIENT.first)
    ensures IMPATIENT.first[0].reasons == [Silent] && ExitCode(IMPATIENT.first) == 1
    ensures forall t: nat :: 2_000 <= t ==> HasStatus(SlowHistory(t), "r", RUNNING)
    ensures NewTurns(SlowHistory(5_000), "t", {}) == [REPLY]
  {
    ImpatientFollows();
    FailingExits(IMPATIENT.first);
    OneNewTurn(SlowHistory(5_000), REPLY);
  }

  // ---------------------------------------------------------------- a breach forgotten

  const ROW := LogRow("t", "1", "assistant", "Shall I?", Some("SM"), 0)
  const ASKING := Step("hi", true, [], [], false, true, None, None, None,
                       DbAsserts(None, Some(EffectsSpec(None, None, None, None, Some(5))), None))
  const ROUTELESS := Transcript("hi", "x", [TurnOf(ROW)], false)
  const BREACHED := StepResult(false, false, FAIL, [Breach(1)], ROUTELESS, Some("done"), "started", "r", Some("x"))
  const BREACH_RECORD := Record(0, BREACHED, TOLD_WINDOW, 1, None, [], SettleState.Settled, 1)
  const BREACH_LOOKS := [Look(10_001, 1, 10_001, false), Look(20_001, 1, 20_001, false), Look(30_001, 1, 30_001, false)]
  const FORGETFUL := Passage(
    0, {}, [BREACH_RECORD], [BREACHED.(sid := None)],
    Some(SweepTrace(BREACH_LOOKS, 1, 30_001, Fetched([TurnOf(ROW)]))), [], (30_001, 30_001, 30_001), 30_001)

  function BreachHistory(t: nat): Db {
    Db(map["t" := 0], map["r" := "done"], [], [], [], [], if t == 0 then [] else [ROW], true)
  }

  lemma BreachCaptured()
    ensures Captured(BreachHistory, PLAIN, "t", "hi", BREACHED, TOLD_WINDOW)
  {
    OneRow((t: Turn) => IsAssistant(t) && RealSid(t.sid), TurnOf(ROW));
    CapturedReply(BreachHistory, BREACHED, ROW);
  }

  lemma BreachJudged()
    ensures Judged(BreachHistory, PLAIN, "t", ASKING, false, BREACH_RECORD, BREACHED.(sid := None))
  {
    BreachCaptured();
    assert PolledIn(BreachHistory, PLAIN, BREACHED, TOLD_WINDOW) by { PolledAtOnce(BreachHistory, BREACHED); }
    PostedAtOnce(BREACHED, TOLD_WINDOW);
    HardReasonsJudge(ASKING, BREACH_RECORD, TextFailures(PLAIN.rules, ROUTELESS, Some("done"), ASKING));
    assert ReallyRead(BreachHistory, "t", ASKING, BREACH_RECORD) by { HardReasonsSkip(BreachHistory, ASKING,
      BREACH_RECORD); }
    JudgedInAll(BreachHistory, PLAIN, "t", ASKING, false, BREACH_RECORD, BREACHED.(sid := None));
  }

  lemma HardReasonsJudge(step: Step, rec: Record, text: seq<Failure>)
    requires rec.turn.reasons != [] && !rec.turn.ok && !rec.turn.xfail && rec.turn.lbl == FAIL
    ensures Judge(step, false, rec.turn, text, rec.db, rec.state) == rec.turn.(sid := None)
  {
  }

  lemma HardReasonsSkip(h: History, step: Step, rec: Record)
    requires rec.turn.reasons != [] && rec.db == [] && rec.state == SettleState.Settled && rec.settling.None?
    ensures ReallyRead(h, "t", step, rec)
  {
  }

  lemma BreachText()
    ensures AllTurns(FORGETFUL.first) == ROUTELESS && TurnOf(ROW) in ROUTELESS
    ensures AssistantTexts(ROUTELESS) == ["Shall I?"]
    ensures TextFailures(PLAIN.rules, ROUTELESS, Some("done"), ASKING) == []
  {
    assert AllTurns(FORGETFUL.first[..0]) == [];
    OneRow((t: Turn) => !(t.role == "owner" && t.sid == Some("x")), TurnOf(ROW));
    var owner, reply, marker := Turn("owner", "hi", Some("x")), TurnOf(ROW), Marker(false);
    assert ROUTELESS == [owner] + [reply] + [marker];
    TextsConcat([owner], [reply]);
    TextsConcat([owner] + [reply], [marker]);
    OneText(owner);
    OneText(reply);
    OneText(marker);
    AskingIsSatisfied(ROUTELESS);
  }

  lemma AskingIsSatisfied(turns: seq<Turn>)
    requires AssistantTexts(turns) == ["Shall I?"]
    ensures TextFailures(PLAIN.rules, turns, Some("done"), ASKING) == []
  {
    assert "Shall I?"[7] == '?';
  }

  lemma BreachLook(t: nat)
    requires t > 0
    ensures Real(BreachHistory, "t", Look(t, 1, t, false))
  {
    OneNewTurn(BreachHistory(t), ROW);
  }

  lemma ThreeLooks(h: History, a: Look, b: Look, c: Look, from: nat, to: nat)
    requires Real(h, "t", a) && Real(h, "t", b) && Real(h, "t", c)
    requires from + SWEEP_POLL <= a.at && a.probedAt + SWEEP_POLL <= b.at && b.probedAt + SWEEP_POLL <= c.at
    requires from <= a.at && a.probedAt <= b.probedAt <= c.probedAt <= to
    ensures LooksReal(h, "t", [a, b, c], from, to)
  {
    LookAdded(h, "t", [], from, from, a, a.probedAt);
    LookAdded(h, "t", [a], from, a.probedAt, b, b.probedAt);
    LookAdded(h, "t", [a, b], from, b.probedAt, c, to);
    assert [] + [a] == [a] && [a] + [b] == [a, b] && [a, b] + [c] == [a, b, c];
  }

  lemma BreachLooks()
    ensures LooksReal(BreachHistory, "t", BREACH_LOOKS, 1, 30_001)
  {
    BreachLook(10_001);
    BreachLook(20_001);
    BreachLook(30_001);
    ThreeLooks(BreachHistory, BREACH_LOOKS[0], BREACH_LOOKS[1], BREACH_LOOKS[2], 1, 30_001);
  }

  lemma StableAtThree(looks: seq<Look>)
    requires |looks| == 3
    ensures StableAtLast(looks)
  {
  }

  lemma SweptInThree(h: History, looks: seq<Look>, from: nat, to: nat, row: LogRow)
    requires |looks| == 3 && LooksReal(h, "t", looks, from, to) && Stable(looks) && from <= to
    requires NewTurns(h(looks[2].at), "t", {}) == [row]
    ensures SweptAs(h, "t", looks, from, to, Fetched([TurnOf(row)]))
  {
    StableAtThree(looks);
    assert TurnsOf([row]) == [TurnOf(row)];
  }

  lemma BreachSwept()
    ensures SweptAs(BreachHistory, "t", BREACH_LOOKS, 1, 30_001, Fetched([TurnOf(ROW)]))
  {
    BreachLooks();
    OneNewTurn(BreachHistory(30_001), ROW);
    SweptInThree(BreachHistory, BREACH_LOOKS, 1, 30_001, ROW);
  }

  lemma NothingLate()
    ensures LateTurns(FORGETFUL.first, [TurnOf(ROW)]) == []
  {
    BreachText();
    assert InTranscripts(FORGETFUL.first, Key(TurnOf(ROW))) by {
      assert FORGETFUL.first[0] in FORGETFUL.first && TurnOf(ROW) in FORGETFUL.first[0].transcript;
    }
    OneRow((t: Turn) => !InTranscripts(FORGETFUL.first, Key(t)), TurnOf(ROW));
  }

  lemma BreachSweeps(results: seq<StepResult>)
    ensures FollowsIn(BreachHistory, PLAIN, "t", [ASKING], false, FORGETFUL, results, Sweeping)
  {
    BreachSwept();
    NothingLate();
    assert DeclaresEffects([ASKING][0].db);
  }

  lemma BreachCured() returns (settled: seq<StepResult>)
    ensures settled == SettledResults(PLAIN, [ASKING], false, FORGETFUL)
    ensures |settled| == 1 && settled[0].lbl == PASS
  {
    BreachText();
    settled := SettledResults(PLAIN, [ASKING], false, FORGETFUL);
    assert Whole(FORGETFUL) == ROUTELESS;
    CuredBreach(PLAIN.rules, ASKING, FORGETFUL.first[0], ROUTELESS);
    SettledExactly(PLAIN, [ASKING], false, FORGETFUL, 0);
  }

  lemma BreachReplies(settled: seq<StepResult>)
    requires settled == SettledResults(PLAIN, [ASKING], false, FORGETFUL) && |settled| == 1
    ensures CLAIM !in ReplyTexts(settled)
  {
    RepliesOf(settled);
    BreachText();
    SweptTranscripts(PLAIN, [ASKING], false, FORGETFUL);
    assert settled[0].transcript == ROUTELESS;
  }

  lemma BreachNets(settled: seq<StepResult>)
    requires settled == SettledResults(PLAIN, [ASKING], false, FORGETFUL) && |settled| == 1
    ensures FollowsIn(BreachHistory, PLAIN, "t", [ASKING], false, FORGETFUL, settled, Nets)
  {
    BreachReplies(settled);
    NoSends(BreachHistory, ReplyTexts(settled), FORGETFUL.netsAt);
    NetsPassOn(BreachHistory, ASKING, FORGETFUL, settled);
  }

  lemma SendsStillMissing(t: nat)
    ensures EvaluateDbAsserts(BreachHistory(t), "t", Some("r"), ASKING.db, Some("x")) != []
  {
    NoCampaigns(BreachHistory(t));
    assert SentInScope(BreachHistory(t), "t", None) == 0;
  }

  lemma BreachFollows(results: seq<StepResult>)
    requires results == SettledResults(PLAIN, [ASKING], false, FORGETFUL) && |results| == 1
    ensures Follows(BreachHistory, PLAIN, "t", [ASKING], false, FORGETFUL, results)
  {
    BreachJudged();
    BreachSweeps(results);
    BreachNets(results);
    assert FollowsIn(BreachHistory, PLAIN, "t", [ASKING], false, FORGETFUL, results, Order) by { BreachInOrder(); }
    Following(BreachHistory, ASKING, FORGETFUL, results);
  }

  lemma BreachInOrder()
    ensures PhasesInOrder(FORGETFUL)
  {
  }

  /** A breach is found and the five sends the step asks for never happen; the sweep goes its full
      course, the re-evaluation forgets the breach, and the program exits with 0. */
  lemma BreachForgotten() returns (results: seq<StepResult>)
    ensures FORGETFUL.first[0].lbl == FAIL && FORGETFUL.first[0].reasons == [Breach(1)]
    ensures Follows(BreachHistory, PLAIN, "t", [ASKING], false, FORGETFUL, results) && ExitCode(results) == 0
    ensures forall t: nat :: EvaluateDbAsserts(BreachHistory(t), "t", Some("r"), ASKING.db, Some("x")) != []
  {
    results := BreachCured();
    BreachFollows(results);
    PassingExits(results);
    forall t: nat ensures EvaluateDbAsserts(BreachHistory(t), "t", Some("r"), ASKING.db, Some("x")) != [] {
      SendsStillMissing(t);
    }
  }

  // ---------------------------------------------------------------- a false count between the readings

  const CLAIMED := LogRow("t", "2", "assistant", CLAIM, None, 1)
  const UNHEARD := Passage(0, {}, [TOLD_RECORD], [TOLD.(sid := None)], None, [], (3, 3, 3), 3)

  /** The claim lands at instant 2, after the step's last reading of the log. */
  function ClaimHistory(t: nat): Db {
    Db(map["t" := 0], map["r" := "done"], [], [], [], [],
       if t == 0 then [] else if t == 1 then [REPLY] else [REPLY, CLAIMED], true)
  }

  lemma ClaimCaptured()
    ensures Captured(ClaimHistory, PLAIN, "t", "hi", TOLD, TOLD_WINDOW)
  {
    OneRow((t: Turn) => IsAssistant(t) && RealSid(t.sid), TurnOf(REPLY));
    CapturedReply(ClaimHistory, TOLD, REPLY);
  }

  lemma ClaimJudged()
    ensures Judged(ClaimHistory, PLAIN, "t", TELLING, false, TOLD_RECORD, TOLD.(sid := None))
  {
    ClaimCaptured();
    assert PolledIn(ClaimHistory, PLAIN, TOLD, TOLD_WINDOW) by { PolledAtOnce(ClaimHistory, TOLD); }
    assert PostedIn(TOLD, TOLD_WINDOW) by { PostedAtOnce(TOLD, TOLD_WINDOW); }
    assert ReallyRead(ClaimHistory, "t", TELLING, TOLD_RECORD) by { NothingDeclared(ClaimHistory, TOLD_RECORD); }
    ToldText();
    JudgedAsText(TELLING, TOLD_RECORD, []);
    JudgedInAll(ClaimHistory, PLAIN, "t", TELLING, false, TOLD_RECORD, TOLD.(sid := None));
  }

  lemma UnheardFollows()
    ensures Follows(ClaimHistory, PLAIN, "t", [TELLING], false, UNHEARD, UNHEARD.first)
  {
    ClaimJudged();
    ToldReplies();
    NoSends(ClaimHistory, ReplyTexts(UNHEARD.first), UNHEARD.netsAt);
    QuietRun(ClaimHistory, UNHEARD);
  }

  lemma ClaimIsFalse()
    ensures AssertStatedCount(ClaimHistory(3), "t", PLAIN.stated, [CLAIM]) != []
  {
    assert Stated(PLAIN.stated, [CLAIM][1..]) == [];
    assert Stated(PLAIN.stated, [CLAIM]) == [5];
    OneRow((n: int) => n != |Sent(ClaimHistory(3), "t")|, 5);
  }

  /** A reply with a false count is in the log before the money checks, but in no window of the run:
      the check that would fail on it never reads it, and the program exits with 0. */
  lemma FalseCountIsUnheard()
    ensures Follows(ClaimHistory, PLAIN, "t", [TELLING], false, UNHEARD, UNHEARD.first)
    ensures ExitCode(UNHEARD.first) == 0
    ensures CLAIMED in ClaimHistory(UNHEARD.netsAt.2).log && !RowCaptured(ClaimHistory, "t", UNHEARD, CLAIMED)
    ensures AssertStatedCount(ClaimHistory(UNHEARD.netsAt.2), "t", PLAIN.stated, [CLAIM]) != []
  {
    UnheardFollows();
    PassingExits(UNHEARD.first);
    ClaimIsFalse();
    ClaimEscapes();
  }

  lemma ClaimEscapes()
    ensures !RowCaptured(ClaimHistory, "t", UNHEARD, CLAIMED)
  {
    assert !InWindow(ClaimHistory, "t", UNHEARD, 0, CLAIMED) by {
      OutsideWindow(ClaimHistory, "t", TOLD_WINDOW, CLAIMED);
    }
  }

  lemma OutsideWindow(h: History, tenant: string, win: Window, row: LogRow)
    requires row !in h(win.after).log
    ensures row !in WindowRows(h, tenant, win)
  {
    NewTurnsExactly(h(win.after), tenant, ConversationIds(h(win.before), tenant), row);
  }

  // ---------------------------------------------------------------- a breach that only the sweep brings in

  const OFFER := LogRow("t", "2", "assistant", "Offer!", Some("SM"), 1)
  const HOLDING := TELLING.(db := DbAsserts(None, Some(EffectsSpec(None, None, None, Some(0), None)), None))
  const OFFER_LOOKS := [Look(10_001, 2, 10_001, false), Look(20_001, 2, 20_001, false), Look(30_001, 2, 30_001, false)]
  const OFFER_TURNS := [TurnOf(REPLY), TurnOf(OFFER)]
  const UNSEEN := Passage(
    0, {}, [TOLD_RECORD], [TOLD.(sid := None)], Some(SweepTrace(OFFER_LOOKS, 1, 30_001, Fetched(OFFER_TURNS))),
    [TurnOf(OFFER)], (30_001, 30_001, 30_001), 30_001)
  const OFFERED := TOLD.(sid := None, transcript := ANSWERED + [TurnOf(OFFER)])

  /** A reply with a real SID lands at instant 10000, long after the step. */
  function OfferHistory(t: nat): Db {
    Db(map["t" := 0], map["r" := "done"], [], [], [], [],
       if t == 0 then [] else if t < 10_000 then [REPLY] else [REPLY, OFFER], true)
  }

  lemma HoldingRead()
    ensures ReallyRead(OfferHistory, "t", HOLDING, TOLD_RECORD)
  {
    NoCampaigns(OfferHistory(1));
    assert SentInScope(OfferHistory(1), "t", None) == 0;
  }

  lemma OfferCaptured()
    ensures Captured(OfferHistory, PLAIN, "t", "hi", TOLD, TOLD_WINDOW)
  {
    OneRow((t: Turn) => IsAssistant(t) && RealSid(t.sid), TurnOf(REPLY));
    CapturedReply(OfferHistory, TOLD, REPLY);
  }

  lemma OfferJudged()
    ensures Judged(OfferHistory, PLAIN, "t", HOLDING, false, TOLD_RECORD, TOLD.(sid := None))
  {
    OfferCaptured();
    assert PolledIn(OfferHistory, PLAIN, TOLD, TOLD_WINDOW) by { PolledAtOnce(OfferHistory, TOLD); }
    assert PostedIn(TOLD, TOLD_WINDOW) by { PostedAtOnce(TOLD, TOLD_WINDOW); }
    HoldingRead();
    assert TextFailures(PLAIN.rules, ANSWERED, Some("done"), HOLDING) == [] && AssistantTexts(ANSWERED) != [] by {
      ToldText();
      UndemandingSatisfied(HOLDING, ANSWERED, Some("done"));
    }
    JudgedAsText(HOLDING, TOLD_RECORD, []);
    JudgedInAll(OfferHistory, PLAIN, "t", HOLDING, false, TOLD_RECORD, TOLD.(sid := None));
  }

  lemma TwoRows<T(!new)>(keep: T -> bool, x: T, y: T)
    ensures Filter(keep, [x, y]) == (if keep(x) then [x] else []) + (if keep(y) then [y] else [])
  {
    assert [x, y] == [x] + [y];
    FilterSnoc(keep, [x], y);
    OneRow(keep, x);
  }

  lemma OwnRows(db: Db, tenant: string, rows: seq<LogRow>)
    requires db.log == rows && forall r :: r in rows ==> r.tenant == tenant && SinceTenant(db, tenant, r.createdAt)
    ensures NewTurns(db, tenant, {}) == Ordered(rows)
  {
    FilterKeepsAll((r: LogRow) => r.tenant == tenant && SinceTenant(db, tenant, r.createdAt), rows);
    OrderedMembers(rows);
    var seen: set<string> := {};
    FilterKeepsAll((r: LogRow) => r.id !in seen, Ordered(rows));
  }

  lemma OfferTurns(t: nat)
    requires t >= 10_000
    ensures NewTurns(OfferHistory(t), "t", {}) == [REPLY, OFFER] && TurnsOf([REPLY, OFFER]) == OFFER_TURNS
  {
    OfferOrdered();
    OwnRows(OfferHistory(t), "t", [REPLY, OFFER]);
  }

  lemma OfferOrdered()
    ensures Ordered([REPLY, OFFER]) == [REPLY, OFFER]
  {
    assert [REPLY, OFFER][..1] == [REPLY] && [REPLY][..0] == [];
    assert Ordered([REPLY]) == [REPLY];
    assert Insert(OFFER, [REPLY][1..]) == [OFFER];
  }

  lemma OfferLook(t: nat)
    requires t >= 10_000
    ensures Real(OfferHistory, "t", Look(t, 2, t, false))
  {
    OfferTurns(t);
  }

  lemma OfferLooks()
    ensures LooksReal(OfferHistory, "t", OFFER_LOOKS, 1, 30_001)
  {
    OfferLook(10_001);
    OfferLook(20_001);
    OfferLook(30_001);
    ThreeLooks(OfferHistory, OFFER_LOOKS[0], OFFER_LOOKS[1], OFFER_LOOKS[2], 1, 30_001);
  }

  lemma OfferSwept()
    ensures SweptAs(OfferHistory, "t", OFFER_LOOKS, 1, 30_001, Fetched(OFFER_TURNS))
  {
    OfferLooks();
    StableAtThree(OFFER_LOOKS);
    OfferTurns(30_001);
  }

  lemma OfferIsLate()
    ensures LateTurns(UNSEEN.first, OFFER_TURNS) == [TurnOf(OFFER)]
  {
    AnsweredShape();
    assert InTranscripts(UNSEEN.first, Key(TurnOf(REPLY))) by {
      assert UNSEEN.first[0] in UNSEEN.first && ANSWERED[1] in UNSEEN.first[0].transcript;
    }
    assert Key(TurnOf(OFFER)).1 == "Offer!" && Key(TurnOf(REPLY)).1 == "Done.";
    assert !InTranscripts(UNSEEN.first, Key(TurnOf(OFFER)));
    TwoRows((t: Turn) => !InTranscripts(UNSEEN.first, Key(t)), TurnOf(REPLY), TurnOf(OFFER));
  }

  lemma OfferSweeping()
    ensures FollowsIn(OfferHistory, PLAIN, "t", [HOLDING], false, UNSEEN, [OFFERED], Sweeping)
  {
    OfferSwept();
    OfferIsLate();
    assert DeclaresEffects([HOLDING][0].db);
  }

  lemma OfferSettled()
    ensures SettledResults(PLAIN, [HOLDING], false, UNSEEN) == [OFFERED]
  {
    assert WithLate(UNSEEN.first, UNSEEN.late) == [OFFERED];
  }

  lemma OfferReplies()
    ensures CLAIM !in ReplyTexts([OFFERED])
  {
    RepliesOf([OFFERED]);
    assert AssistantTexts(OFFERED.transcript) == ["Done."] + ["Offer!"] by {
      ToldText();
      TextsConcat(ANSWERED, [TurnOf(OFFER)]);
      OneText(TurnOf(OFFER));
    }
  }

  lemma NetsPassOn(h: History, step: Step, p: Passage, settled: seq<StepResult>)
    requires |p.records| == |p.first| == 1 && settled == SettledResults(PLAIN, [step], false, p)
    requires NetsRead(h, "t", PLAIN.stated, ReplyTexts(settled), p.netsAt) == []
    ensures FollowsIn(h, PLAIN, "t", [step], false, p, settled, Nets)
  {
  }

  lemma OfferNets()
    ensures FollowsIn(OfferHistory, PLAIN, "t", [HOLDING], false, UNSEEN, [OFFERED], Nets)
  {
    OfferSettled();
    OfferReplies();
    NoSends(OfferHistory, ReplyTexts([OFFERED]), UNSEEN.netsAt);
    NetsPassOn(OfferHistory, HOLDING, UNSEEN, [OFFERED]);
  }

  lemma UnseenInOrder()
    ensures PhasesInOrder(UNSEEN)
  {
  }

  lemma UnseenFollows()
    ensures Follows(OfferHistory, PLAIN, "t", [HOLDING], false, UNSEEN, [OFFERED])
  {
    OfferJudged();
    OfferSweeping();
    OfferNets();
    assert FollowsIn(OfferHistory, PLAIN, "t", [HOLDING], false, UNSEEN, [OFFERED], Order) by { UnseenInOrder(); }
    Following(OfferHistory, HOLDING, UNSEEN, [OFFERED]);
  }

  /** A reply with a real SID arrives after the step and is swept into the transcript: no reason anywhere
      mentions it, and the program exits with 0. */
  lemma LateBreachIsUnreported()
    ensures Follows(OfferHistory, PLAIN, "t", [HOLDING], false, UNSEEN, [OFFERED]) && ExitCode([OFFERED]) == 0
    ensures TurnOf(OFFER) in OFFERED.transcript && Breaching(TurnOf(OFFER)) && OFFERED.reasons == []
  {
    UnseenFollows();
    PassingExits([OFFERED]);
    RealSidExactly(TurnOf(OFFER));
  }
}
