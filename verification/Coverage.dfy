/** Which rows of the conversation a run captures, and which guard breaches it can therefore report. */
module Coverage {
  import opened Common
  import opened Numbers
  import opened Store
  import opened Money
  import opened Asserts
  import opened Verdicts
  import opened Settle
  import opened Sweep
  import opened Transport
  import opened Scenario
  import opened Phases

  /** The rows of one step's window: in the log after its run, and not before its message. */
  function WindowRows(h: History, tenant: string, win: Window): seq<LogRow> {
    NewTurns(h(win.after), tenant, ConversationIds(h(win.before), tenant))
  }

  // ---------------------------------------------------------------- one captured turn

  lemma {:induction false} KeptTurns(keep: Turn -> bool, rows: seq<LogRow>)
    ensures Filter(keep, TurnsOf(rows)) == TurnsOf(Filter((r: LogRow) => keep(TurnOf(r)), rows))
  {
    if rows != [] {
      var front, last := rows[..|rows| - 1], rows[|rows| - 1];
      var kept := Filter((r: LogRow) => keep(TurnOf(r)), front);
      KeptTurns(keep, front);
      assert TurnsOf(rows)[..|rows| - 1] == TurnsOf(front);
      assert TurnsOf(kept + [last]) == TurnsOf(kept) + [TurnOf(last)];
    }
  }

  /** The row belongs to a turn: the tenant's, of its lifetime, in the log after the run and with no row of
      its id in the log before the message, and not the recording of the message itself. */
  ghost predicate OfTurn(h: History, tenant: string, win: Window, sid: Option<string>, row: LogRow) {
    && row in h(win.after).log && row.tenant == tenant
    && tenant in h(win.after).tenants && h(win.after).tenants[tenant] <= row.createdAt
    && (forall old_ :: old_ in h(win.before).log && old_.tenant == tenant ==> old_.id != row.id)
    && !(row.role == "owner" && row.sid == sid)
  }

  lemma SeenIdsExactly(db: Db, tenant: string, id: string)
    ensures id in ConversationIds(db, tenant) <==> exists row :: row in db.log && row.tenant == tenant && row.id == id
  {
    if row :| row in db.log && row.tenant == tenant && row.id == id {
      var i :| 0 <= i < |db.log| && db.log[i] == row;
    }
    if id in ConversationIds(db, tenant) {
      var i :| 0 <= i < |db.log| && db.log[i].tenant == tenant && db.log[i].id == id;
      assert db.log[i] in db.log;
    }
  }

  lemma WindowExactly(h: History, tenant: string, win: Window, sid: Option<string>, row: LogRow)
    ensures row in WindowRows(h, tenant, win) && !(row.role == "owner" && row.sid == sid)
       <==> OfTurn(h, tenant, win, sid, row)
  {
    NewTurnsExactly(h(win.after), tenant, ConversationIds(h(win.before), tenant), row);
    SeenIdsExactly(h(win.before), tenant, row.id);
  }

  /** A step's transcript: the message as sent, the rows of the turn in the order of the log, and a marker
      that says whether a campaign was attributable to the turn when it was captured. */
  lemma TranscriptExactly(
      h: History, setting: Setting, tenant: string, step: Step, scenarioXfail: bool, rec: Record, r: StepResult)
      returns (rows: seq<LogRow>)
    requires Judged(h, setting, tenant, step, scenarioXfail, rec, r)
    ensures
      var routed := exists c ::
                      c in h(rec.win.marked).campaigns
                      && Attributable(h(rec.win.marked), tenant, r.runId, rec.turn.sid, false, c);
      r.transcript ==
        [Turn("owner", step.message, rec.turn.sid)] + TurnsOf(rows)
        + [Turn("system", if routed then "[internal route: sales_recovery]" else "[internal route: none]", None)]
    ensures forall row :: row in rows <==> OfTurn(h, tenant, rec.win, rec.turn.sid, row)
    ensures forall i, j :: 0 <= i < j < |rows| ==> rows[i].createdAt <= rows[j].createdAt
  {
    var turns := WindowRows(h, tenant, rec.win);
    assert Captured(h, setting, tenant, step.message, rec.turn, rec.win) by {
      assert JudgedIn(h, setting, tenant, step, scenarioXfail, rec, r, Capture);
    }
    assert r.transcript == rec.turn.transcript && r.runId == rec.turn.runId by {
      assert JudgedIn(h, setting, tenant, step, scenarioXfail, rec, r, Verdict);
      KeepsTheTurn(step, scenarioXfail, rec.turn,
                   TextFailures(setting.rules, rec.turn.transcript, rec.turn.runStatus, step), rec.db, rec.state);
    }
    var foreign := (t: Turn) => !(t.role == "owner" && t.sid == rec.turn.sid);
    rows := Filter((row: LogRow) => foreign(TurnOf(row)), turns);
    KeptTurns(foreign, turns);
    FilterAgrees(foreign, (t: Turn) => !(t.role == "owner" && t.sid == Some(rec.turn.sid.value)), TurnsOf(turns));
    forall row ensures row in rows <==> OfTurn(h, tenant, rec.win, rec.turn.sid, row) {
      WindowExactly(h, tenant, rec.win, rec.turn.sid, row);
    }
    RowsInOrder(h, tenant, rec.win, rec.turn.sid, rows);
    MarkerExactly(h(rec.win.marked), tenant, r.runId, rec.turn.sid);
  }

  lemma RowsInOrder(h: History, tenant: string, win: Window, sid: Option<string>, rows: seq<LogRow>)
    requires
      var foreign := (t: Turn) => !(t.role == "owner" && t.sid == sid);
      rows == Filter((row: LogRow) => foreign(TurnOf(row)), WindowRows(h, tenant, win))
    ensures forall i, j :: 0 <= i < j < |rows| ==> rows[i].createdAt <= rows[j].createdAt
  {
    var foreign := (t: Turn) => !(t.role == "owner" && t.sid == sid);
    OrderedIsInOrder(Filter((r: LogRow) => r.tenant == tenant && SinceTenant(h(win.after), tenant, r.createdAt),
                            h(win.after).log));
    FilterKeepsOrder((r: LogRow) => r.id !in ConversationIds(h(win.before), tenant),
                     Ordered(Filter((r: LogRow) => r.tenant == tenant && SinceTenant(h(win.after), tenant, r.createdAt),
                                    h(win.after).log)));
    FilterKeepsOrder((row: LogRow) => foreign(TurnOf(row)), WindowRows(h, tenant, win));
    assert InOrder(rows);
  }

  lemma MarkerExactly(db: Db, tenant: string, run: string, sid: Option<string>)
    ensures CampaignForRun(db, tenant, Some(run), sid).Some?
       <==> exists c :: c in db.campaigns && Attributable(db, tenant, run, sid, false, c)
  {
    LookupIsAbout(db, tenant, run, sid, false);
    var found := CampaignForRun(db, tenant, Scope(run, false), sid);
    if found.Some? {
      var k: nat :| Subject(db, tenant, run, sid, false, k) && db.campaigns[k].id == found.value;
      assert db.campaigns[k] in db.campaigns;
    }
  }

  /** One of the attempts before `a`, none of which was answered, had been handled by then. */
  ghost predicate HandledMeanwhile(network: nat -> Delivery, a: nat) {
    exists k :: 0 <= k < a && network(k).NoAnswer? && network(k).handledBefore.Some?
                && network(k).handledBefore.value <= a
  }

  lemma MeanwhileExactly(network: nat -> Delivery, a: nat)
    requires forall k :: 0 <= k < a ==> network(k).NoAnswer?
    ensures ReachedBy(network, a) <==> HandledMeanwhile(network, a)
  {
    if HandledMeanwhile(network, a) {
      var k :| 0 <= k < a && network(k).NoAnswer? && network(k).handledBefore.Some?
        && network(k).handledBefore.value <= a;
      assert HandledBy(network, k, a);
    }
  }

  /** A message gets through exactly if one of the attempts up to the answered one is ever handled: without
      an answer but some time later, before a rejection, or with an answer that is no refusal. */
  lemma GetsThroughExactly(win: Window, a: nat)
    requires var network := win.post.network;
             a <= RETRIES && !network(a).NoAnswer? && forall k :: 0 <= k < a ==> network(k).NoAnswer?
    ensures HandledIn(win) <==>
            exists k :: 0 <= k <= a &&
              match win.post.network(k)
              case NoAnswer(before) => before.Some?
              case Rejected(_, handled) => handled
              case Answered(refusal) => refusal.None?
  {
    AnsweredAt(win.post.network, a, win.post.known);
    if HandledIn(win) {
      var k :| 0 <= k <= a && Handled(win.post.network(k));
    }
    if k :| 0 <= k <= a && Handled(win.post.network(k)) {
      assert Reached(win.post.network, a + 1);
    }
  }

  /** The first answered post decides whether the turn's run is polled: not after a rejection, nor after one
      of the refusals that mean there is no run; else it is. */
  lemma PostDecidesPoll(
      h: History, setting: Setting, tenant: string, step: Step, scenarioXfail: bool, rec: Record, r: StepResult,
      a: nat)
    requires Judged(h, setting, tenant, step, scenarioXfail, rec, r)
    requires var network := rec.win.post.network;
             a <= RETRIES && !network(a).NoAnswer? && forall k :: 0 <= k < a ==> network(k).NoAnswer?
    ensures
      match rec.win.post.network(a)
      case Rejected(status, _) =>
        && rec.win.poll.None? && |r.ingressReason| > 5 && r.ingressReason[..5] == "http_"
        && Spells(r.ingressReason[5..], 1, status)
      case Answered(refusal) =>
        if refusal.Some? then
          && r.ingressReason == refusal.value
          && (rec.win.poll.None? <==>
                refusal.value in {"unknown_sender", "rate_limit_exceeded", "error_logged"} || "http_" <= refusal.value)
        else
          && rec.win.poll.Some?
          && r.ingressReason ==
             (if rec.win.post.known || HandledMeanwhile(rec.win.post.network, a) then "dupe" else "started")
  {
    assert JudgedIn(h, setting, tenant, step, scenarioXfail, rec, r, Posting);
    assert JudgedIn(h, setting, tenant, step, scenarioXfail, rec, r, Polling);
    assert r.ingressReason == rec.turn.ingressReason by {
      assert JudgedIn(h, setting, tenant, step, scenarioXfail, rec, r, Verdict);
      KeepsTheTurn(step, scenarioXfail, rec.turn,
                   TextFailures(setting.rules, rec.turn.transcript, rec.turn.runStatus, step), rec.db, rec.state);
    }
    AnsweredAt(rec.win.post.network, a, rec.win.post.known);
    MeanwhileExactly(rec.win.post.network, a);
    if rec.win.post.network(a).Rejected? {
      var status := rec.win.post.network(a).status;
      DecimalSpells(status);
      assert ("http_" + Decimal(status))[5..] == Decimal(status) && ("http_" + Decimal(status))[..5] == "http_";
    } else {
      assert "started"[0] == 's' && "http_"[0] == 'h';
    }
  }

  // ---------------------------------------------------------------- when the sweep runs

  /** Turn `k` is the only reply. */
  predicate OnlyReply(turns: seq<Turn>, k: nat) {
    k < |turns| && turns[k].role == "assistant"
    && forall j :: 0 <= j < |turns| && j != k ==> turns[j].role != "assistant"
  }

  lemma {:induction false} OneText(turns: seq<Turn>) returns (k: nat)
    requires |AssistantTexts(turns)| == 1
    ensures OnlyReply(turns, k) && AssistantTexts(turns) == [turns[k].text]
  {
    var front, last := turns[..|turns| - 1], turns[|turns| - 1];
    if IsAssistant(last) {
      ReplyExactly(front);
      k := |front|;
      forall j | 0 <= j < |front| ensures turns[j].role != "assistant" {
        assert front[j] in front;
      }
    } else {
      k := OneText(front);
      forall j | 0 <= j < |front| ensures turns[j] == front[j] {}
    }
  }

  lemma {:induction false} OneTextOnly(turns: seq<Turn>, k: nat)
    requires OnlyReply(turns, k)
    ensures AssistantTexts(turns) == [turns[k].text]
  {
    var front := turns[..|turns| - 1];
    if k == |front| {
      ReplyExactly(front);
    } else {
      OneTextOnly(front, k);
    }
  }

  /** The only reply of the turn is one of the phrases that promise an answer, or has one in it. */
  ghost predicate OnlyPromises(rules: Rules, turns: seq<Turn>) {
    exists k: nat, m :: OnlyReply(turns, k) && 0 <= m < |rules.interims| && Contains(turns[k].text, rules.interims[m])
  }

  lemma InterimExactly(rules: Rules, r: StepResult)
    ensures InterimOnly(rules, r) <==> OnlyPromises(rules, r.transcript)
  {
    if |AssistantTexts(r.transcript)| == 1 {
      var k := OneText(r.transcript);
      assert forall m :: 0 <= m < |rules.interims| ==>
          Contains(r.transcript[k].text, rules.interims[m])
          == Contains(AssistantTexts(r.transcript)[0], rules.interims[m]);
      if k': nat :| OnlyReply(r.transcript, k') {
        assert k' == k;
      }
    } else if k: nat :| OnlyReply(r.transcript, k) {
      OneTextOnly(r.transcript, k);
    }
  }

  /** The late sweep, and with it the re-evaluation, runs exactly if some step declares an effect or a
      cohort, or some step got only a promise. */
  lemma SweepsExactly(
      h: History, setting: Setting, tenant: string, steps: seq<Step>, scenarioXfail: bool, p: Passage,
      results: seq<StepResult>)
    requires Follows(h, setting, tenant, steps, scenarioXfail, p, results)
    ensures |p.first| == |steps|
    ensures p.sweep.Some? <==>
              || (exists i :: 0 <= i < |steps| &&
                    (steps[i].db.grounded.Some?
                     || (steps[i].db.effects.Some?
                         && steps[i].db.effects.value != EffectsSpec(None, None, None, None, None))))
              || (exists i :: 0 <= i < |steps| && OnlyPromises(setting.rules, p.first[i].transcript))
  {
    assert FollowsIn(h, setting, tenant, steps, scenarioXfail, p, results, Sweeping);
    forall i | 0 <= i < |p.first|
      ensures InterimOnly(setting.rules, p.first[i]) <==> OnlyPromises(setting.rules, p.first[i].transcript)
    {
      InterimExactly(setting.rules, p.first[i]);
    }
  }

  // ---------------------------------------------------------------- the final transcripts

  /** A step's window in its transcript: its rows but for the recording of its own message. */
  lemma TranscriptHolds(message: string, sid: string, turns: seq<Turn>, delegated: bool, t: Turn)
    requires IsAssistant(t)
    ensures t in Transcript(message, sid, turns, delegated) <==> t in turns
  {
    var keep := (x: Turn) => !(x.role == "owner" && x.sid == Some(sid));
    assert t in Filter(keep, turns) <==> t in turns && keep(t);
  }

  lemma FirstHolds(
      h: History, setting: Setting, tenant: string, step: Step, scenarioXfail: bool, rec: Record, r: StepResult,
      t: Turn)
    requires Judged(h, setting, tenant, step, scenarioXfail, rec, r) && IsAssistant(t)
    ensures t in r.transcript <==> t in TurnsOf(WindowRows(h, tenant, rec.win))
  {
    var turns := TurnsOf(WindowRows(h, tenant, rec.win));
    assert r.transcript == rec.turn.transcript by {
      assert JudgedIn(h, setting, tenant, step, scenarioXfail, rec, r, Verdict);
      KeepsTheTurn(step, scenarioXfail, rec.turn,
                   TextFailures(setting.rules, rec.turn.transcript, rec.turn.runStatus, step), rec.db, rec.state);
    }
    assert JudgedIn(h, setting, tenant, step, scenarioXfail, rec, r, Capture);
    TranscriptHolds(step.message, rec.turn.sid.value, turns,
                    CampaignForRun(h(rec.win.marked), tenant, Some(rec.turn.runId), rec.turn.sid).Some?, t);
  }

  lemma LateAtTheEnd(results: seq<StepResult>, late: seq<Turn>, i: nat)
    requires i < |results|
    ensures WithLate(results, late)[i].transcript ==
            if i == |results| - 1 then results[i].transcript + late else results[i].transcript
  {
    assert late == [] ==> results[i].transcript + late == results[i].transcript;
  }

  /** A step's final transcript is its own, and for the last step the swept turns after it. */
  lemma FinalTranscriptExactly(
      h: History, setting: Setting, tenant: string, steps: seq<Step>, scenarioXfail: bool, p: Passage,
      results: seq<StepResult>, i: nat)
    requires Follows(h, setting, tenant, steps, scenarioXfail, p, results) && i < |steps|
    ensures results[i].transcript == if i == |steps| - 1 then p.first[i].transcript + p.late else p.first[i].transcript
  {
    var settled := SettledResults(setting, steps, scenarioXfail, p);
    ResultsAreNetted(h, setting, tenant, steps, scenarioXfail, p, results);
    NetsKeepTranscripts(settled, MoneyFailures(h, setting, tenant, steps, scenarioXfail, p));
    assert results[i].transcript == settled[i].transcript;
    if p.sweep.Some? {
      SweptTranscripts(setting, steps, scenarioXfail, p);
      LateAtTheEnd(p.first, p.late, i);
    } else {
      assert p.late == [] by {
        assert FollowsIn(h, setting, tenant, steps, scenarioXfail, p, results, Sweeping);
      }
      assert p.first[i].transcript + [] == p.first[i].transcript;
    }
  }

  // ---------------------------------------------------------------- which rows are captured

  /** Captured: in some step's window, or among the turns that the sweep added. */
  ghost predicate RowCaptured(h: History, tenant: string, p: Passage, row: LogRow) {
    (exists i :: 0 <= i < |p.records| && InWindow(h, tenant, p, i, row)) || SweptIn(h, tenant, p, row)
  }

  ghost predicate InWindow(h: History, tenant: string, p: Passage, i: nat, row: LogRow)
    requires i < |p.records|
  {
    row in WindowRows(h, tenant, p.records[i].win)
  }

  /** The sweep's last look found the row, and no step had a turn of its role and head of text. */
  ghost predicate SweptIn(h: History, tenant: string, p: Passage, row: LogRow) {
    p.sweep.Some? && p.sweep.value.ending.Fetched? && p.sweep.value.looks != []
    && row in NewTurns(h(p.sweep.value.looks[|p.sweep.value.looks| - 1].at), tenant, {})
    && !InTranscripts(p.first, Key(TurnOf(row)))
  }

  lemma TurnsOfMembers(rows: seq<LogRow>, t: Turn)
    ensures t in TurnsOf(rows) <==> exists row :: row in rows && TurnOf(row) == t
  {
    if row :| row in rows && TurnOf(row) == t {
      var i :| 0 <= i < |rows| && rows[i] == row;
      assert TurnsOf(rows)[i] == t;
    }
    if t in TurnsOf(rows) {
      var i :| 0 <= i < |rows| && TurnsOf(rows)[i] == t;
      assert rows[i] in rows && TurnOf(rows[i]) == t;
    }
  }

  lemma LateRows(
      h: History, setting: Setting, tenant: string, steps: seq<Step>, scenarioXfail: bool, p: Passage,
      results: seq<StepResult>, t: Turn)
    requires Follows(h, setting, tenant, steps, scenarioXfail, p, results)
    ensures t in p.late <==> exists row :: SweptIn(h, tenant, p, row) && TurnOf(row) == t
  {
    assert SweptFrom(h, tenant, p) by {
      assert FollowsIn(h, setting, tenant, steps, scenarioXfail, p, results, Sweeping);
    }
    if p.sweep.Some? && p.sweep.value.ending.Fetched? {
      FetchedLast(h, setting, tenant, steps, scenarioXfail, p, results);
      LateMembers(h, tenant, p, p.sweep.value.looks[|p.sweep.value.looks| - 1].at, t);
    }
  }

  lemma LateMembers(h: History, tenant: string, p: Passage, at: nat, t: Turn)
    requires p.sweep.Some? && p.sweep.value.ending.Fetched? && p.sweep.value.looks != []
    requires at == p.sweep.value.looks[|p.sweep.value.looks| - 1].at
    requires p.late == LateTurns(p.first, TurnsOf(NewTurns(h(at), tenant, {})))
    ensures t in p.late <==> exists row :: SweptIn(h, tenant, p, row) && TurnOf(row) == t
  {
    var rows := NewTurns(h(at), tenant, {});
    TurnsOfMembers(rows, t);
    assert t in p.late <==> t in TurnsOf(rows) && !InTranscripts(p.first, Key(t));
    if t in p.late {
      var row :| row in rows && TurnOf(row) == t;
      assert SweptIn(h, tenant, p, row);
    }
  }

  /** The replies in the final transcripts, which the money checks read, are those of the captured rows
      and no others. */
  lemma RepliesAreCapturedRows(
      h: History, setting: Setting, tenant: string, steps: seq<Step>, scenarioXfail: bool, p: Passage,
      results: seq<StepResult>, t: Turn)
    requires Follows(h, setting, tenant, steps, scenarioXfail, p, results) && steps != [] && IsAssistant(t)
    ensures (exists i :: 0 <= i < |results| && t in results[i].transcript) <==>
            exists row :: RowCaptured(h, tenant, p, row) && TurnOf(row) == t
  {
    LateRows(h, setting, tenant, steps, scenarioXfail, p, results, t);
    forall i | 0 <= i < |steps|
      ensures t in results[i].transcript <==>
              (exists row :: InWindow(h, tenant, p, i, row) && TurnOf(row) == t) || (i == |steps| - 1 && t in p.late)
    {
      StepJudged(h, setting, tenant, steps, scenarioXfail, p, results, i);
      FirstHolds(h, setting, tenant, steps[i], scenarioXfail, p.records[i], p.first[i], t);
      FinalTranscriptExactly(h, setting, tenant, steps, scenarioXfail, p, results, i);
      TurnsOfMembers(WindowRows(h, tenant, p.records[i].win), t);
    }
    if row :| RowCaptured(h, tenant, p, row) && TurnOf(row) == t {
      if SweptIn(h, tenant, p, row) {
        assert t in results[|steps| - 1].transcript;
      } else {
        var i :| 0 <= i < |p.records| && InWindow(h, tenant, p, i, row);
        assert t in results[i].transcript;
      }
    }
    if i :| 0 <= i < |results| && t in results[i].transcript {
      if t in p.late {
        var row :| SweptIn(h, tenant, p, row) && TurnOf(row) == t;
        assert RowCaptured(h, tenant, p, row);
      } else {
        var row :| InWindow(h, tenant, p, i, row) && TurnOf(row) == t;
        assert RowCaptured(h, tenant, p, row);
      }
    }
  }

  /** A row of the tenant that is in the log from `born` on, under an id of its own, and never counts as
      older than the tenant. */
  ghost predicate Appears(h: History, tenant: string, row: LogRow, born: nat) {
    && row.tenant == tenant
    && (forall t: nat :: row in h(t).log <==> born <= t)
    && (forall t: nat, other :: other in h(t).log && other.tenant == tenant && other.id == row.id ==> other == row)
    && (forall t: nat :: born <= t ==> SinceTenant(h(t), tenant, row.createdAt))
  }

  lemma IdSeenExactly(h: History, tenant: string, row: LogRow, born: nat, t: nat)
    requires Appears(h, tenant, row, born)
    ensures row.id in ConversationIds(h(t), tenant) <==> born <= t
  {
    if row.id in ConversationIds(h(t), tenant) {
      var i :| 0 <= i < |h(t).log| && h(t).log[i].tenant == tenant && h(t).log[i].id == row.id;
      assert h(t).log[i] in h(t).log;
    }
    if born <= t {
      assert row in h(t).log;
      var i :| 0 <= i < |h(t).log| && h(t).log[i] == row;
    }
  }

  lemma InWindowExactly(h: History, tenant: string, win: Window, row: LogRow, born: nat)
    requires Appears(h, tenant, row, born)
    ensures row in WindowRows(h, tenant, win) <==> win.before < born <= win.after
  {
    NewTurnsExactly(h(win.after), tenant, ConversationIds(h(win.before), tenant), row);
    IdSeenExactly(h, tenant, row, born, win.before);
    assert row in h(win.after).log <==> born <= win.after;
  }

  /** Of the rows that appear during a run exactly those are captured that land after the first and up
      to the last reading of some step's window, and those that the sweep's last look finds and whose
      role and head of text no step has. A row that lands between two windows, or after the last one,
      is in no transcript unless the sweep adds it. */
  lemma CapturedExactly(h: History, tenant: string, p: Passage, row: LogRow, born: nat)
    requires Appears(h, tenant, row, born)
    ensures
      RowCaptured(h, tenant, p, row) <==>
        || (exists i :: 0 <= i < |p.records| && LandsIn(p.records[i].win, born))
        || (p.sweep.Some? && p.sweep.value.ending.Fetched? && p.sweep.value.looks != []
            && born <= p.sweep.value.looks[|p.sweep.value.looks| - 1].at
            && !InTranscripts(p.first, Key(TurnOf(row))))
  {
    forall i | 0 <= i < |p.records| ensures InWindow(h, tenant, p, i, row) <==> LandsIn(p.records[i].win, born) {
      InWindowExactly(h, tenant, p.records[i].win, row, born);
    }
    if p.sweep.Some? && p.sweep.value.ending.Fetched? && p.sweep.value.looks != [] {
      FetchedExactly(h, tenant, row, born, p.sweep.value.looks[|p.sweep.value.looks| - 1].at);
    }
  }

  lemma FetchedExactly(h: History, tenant: string, row: LogRow, born: nat, at: nat)
    requires Appears(h, tenant, row, born)
    ensures row in NewTurns(h(at), tenant, {}) <==> born <= at
  {
    NewTurnsExactly(h(at), tenant, {}, row);
    assert row in h(at).log <==> born <= at;
  }

  predicate LandsIn(win: Window, born: nat) {
    win.before < born <= win.after
  }

  // ---------------------------------------------------------------- which breaches are reported

  /** An assistant's turn whose SID is not a mocked one: it begins as real ones do, in either case. */
  predicate Breaching(t: Turn) {
    t.role == "assistant" && t.sid.Some? && |t.sid.value| >= 2
    && t.sid.value[..2] in {"SM", "Sm", "sM", "sm", "MM", "Mm", "mM", "mm"}
  }

  /** The breaching rows of a window. */
  ghost function BreachingRows(rows: seq<LogRow>): set<int> {
    set k | 0 <= k < |rows| && Breaching(TurnOf(rows[k]))
  }

  lemma RealSidExactly(t: Turn)
    ensures Breaching(t) <==> IsAssistant(t) && RealSid(t.sid)
  {
    if t.sid.Some? && |t.sid.value| >= 2 {
      assert t.sid.value[..2] == [t.sid.value[0], t.sid.value[1]];
    }
  }

  lemma BreachCount(rows: seq<LogRow>)
    ensures BreachingTurns(TurnsOf(rows)) == |BreachingRows(rows)|
  {
    var bad := (t: Turn) => IsAssistant(t) && RealSid(t.sid);
    CountsKept(bad, TurnsOf(rows));
    forall t: Turn ensures bad(t) == Breaching(t) {
      RealSidExactly(t);
    }
    assert Kept(bad, TurnsOf(rows)) == BreachingRows(rows);
    FilterAgrees(bad, (t: Turn) => IsAssistant(t) && RealSid(t.sid), TurnsOf(rows));
  }

  lemma NetsReportNoBreach(
      h: History, tenant: string, stated: string -> Option<int>, replies: seq<string>, at: (nat, nat, nat), n: nat)
    ensures Breach(n) !in NetsRead(h, tenant, stated, replies, at)
  {
  }

  lemma SettledReasons(setting: Setting, steps: seq<Step>, scenarioXfail: bool, p: Passage, i: nat, n: nat)
    requires |p.first| == |steps| && i < |steps|
    requires Breach(n) in SettledResults(setting, steps, scenarioXfail, p)[i].reasons
    ensures Breach(n) in p.first[i].reasons
  {
    SettledExactly(setting, steps, scenarioXfail, p, i);
  }

  /** A breach stays among the final reasons only if it was found in the step's own turn. */
  lemma BreachesAreFirst(
      h: History, setting: Setting, tenant: string, steps: seq<Step>, scenarioXfail: bool, p: Passage,
      results: seq<StepResult>, i: nat, n: nat)
    requires Follows(h, setting, tenant, steps, scenarioXfail, p, results) && i < |steps|
    requires Breach(n) in results[i].reasons
    ensures Breach(n) in p.first[i].reasons
  {
    var settled := SettledResults(setting, steps, scenarioXfail, p);
    ResultsAreNetted(h, setting, tenant, steps, scenarioXfail, p, results);
    NetsReportNoBreach(h, tenant, setting.stated, ReplyTexts(settled), p.netsAt, n);
    ReasonsBeforeNets(settled, MoneyFailures(h, setting, tenant, steps, scenarioXfail, p), i, n);
    SettledReasons(setting, steps, scenarioXfail, p, i, n);
  }

  lemma ReasonsBeforeNets(settled: seq<StepResult>, money: seq<Failure>, i: nat, n: nat)
    requires i < |settled| && Breach(n) !in money && Breach(n) in WithNets(settled, money)[i].reasons
    ensures Breach(n) in settled[i].reasons
  {
  }

  /** A step's first verdict reports a breach exactly if a reply row with a real SID is in the step's own
      window, and then counts those rows: one that only the sweep brings in is looked at by nothing. */
  lemma BreachReportedExactly(
      h: History, setting: Setting, tenant: string, steps: seq<Step>, scenarioXfail: bool, p: Passage,
      results: seq<StepResult>, i: nat, n: nat)
    requires Follows(h, setting, tenant, steps, scenarioXfail, p, results) && i < |steps|
    ensures Breach(n) in p.first[i].reasons <==>
            n > 0 && n == |BreachingRows(WindowRows(h, tenant, p.records[i].win))|
    ensures (exists m :: Breach(m) in p.first[i].reasons) <==>
            exists row :: InWindow(h, tenant, p, i, row) && Breaching(TurnOf(row))
  {
    StepJudged(h, setting, tenant, steps, scenarioXfail, p, results, i);
    var rows := WindowRows(h, tenant, p.records[i].win);
    BreachCount(rows);
    FirstBreach(h, setting, tenant, steps[i], scenarioXfail, p.records[i], p.first[i]);
    BreachingRow(rows);
    forall row ensures row in rows <==> InWindow(h, tenant, p, i, row) {}
    assert (exists m :: Breach(m) in p.first[i].reasons) <==> Breach(|BreachingRows(rows)|) in p.first[i].reasons;
  }

  lemma BreachingRow(rows: seq<LogRow>)
    ensures |BreachingRows(rows)| > 0 <==> exists row :: row in rows && Breaching(TurnOf(row))
  {
    if |BreachingRows(rows)| > 0 {
      var k :| k in BreachingRows(rows);
      assert rows[k] in rows && Breaching(TurnOf(rows[k]));
    }
    if row :| row in rows && Breaching(TurnOf(row)) {
      var k :| 0 <= k < |rows| && rows[k] == row;
      assert k in BreachingRows(rows);
    }
  }

  lemma FirstBreach(
      h: History, setting: Setting, tenant: string, step: Step, scenarioXfail: bool, rec: Record, r: StepResult)
    requires Judged(h, setting, tenant, step, scenarioXfail, rec, r)
    ensures forall n :: Breach(n) in r.reasons <==>
              n > 0 && n == BreachingTurns(TurnsOf(WindowRows(h, tenant, rec.win)))
  {
    var text := TextFailures(setting.rules, rec.turn.transcript, rec.turn.runStatus, step);
    assert rec.turn.reasons == BreachReasons(TurnsOf(WindowRows(h, tenant, rec.win))) by {
      assert JudgedIn(h, setting, tenant, step, scenarioXfail, rec, r, Capture);
    }
    assert forall n :: Breach(n) !in rec.db by {
      assert JudgedIn(h, setting, tenant, step, scenarioXfail, rec, r, Reading);
      RecordedFailuresAreDb(h, tenant, step, rec);
    }
    assert forall n :: Breach(n) !in text by {
      TextFailuresAreTextual(setting.rules, rec.turn.transcript, rec.turn.runStatus, step);
    }
    assert r == Judge(step, scenarioXfail, rec.turn, text, rec.db, rec.state) by {
      assert JudgedIn(h, setting, tenant, step, scenarioXfail, rec, r, Verdict);
    }
    BreachInJudge(step, scenarioXfail, rec.turn, text, rec.db, rec.state);
  }

  lemma BreachInJudge(
      step: Step, scenarioXfail: bool, turn: StepResult, text: seq<Failure>, db: seq<Failure>, state: SettleState)
    requires forall n :: Breach(n) !in text && Breach(n) !in db
    ensures
      var r := Judge(step, scenarioXfail, turn, text, db, state);
      if turn.reasons != [] then r.reasons == turn.reasons else forall n :: Breach(n) !in r.reasons
  {
  }
}
