/** What the exit code of a run says of the messages really sent and of every reply, in terms of the rows
    and of the final transcripts. */
module Command {
  import opened Common
  import opened World
  import opened Store
  import opened Money
  import opened Asserts
  import opened Verdicts
  import opened Settle
  import opened Sweep
  import opened Transport
  import opened Scenario
  import opened Phases

  // ---------------------------------------------------------------- the nets, row by row

  /** Every message sent for the tenant has a key that begins with an approved campaign of the tenant. */
  ghost predicate EverySendApproved(db: Db, tenant: string) {
    forall m :: m in db.messages && WentOut(tenant, m) ==>
      exists a :: a in db.approvals && a.tenant == tenant && a.decision == Some("approved") && a.campaignId.Some?
                  && m.key.Some? && a.campaignId.value + ":" <= m.key.value
  }

  /** Message `i` was sent for the tenant under this key. */
  ghost predicate SentWith(db: Db, tenant: string, i: int, key: string) {
    0 <= i < |db.messages| && WentOut(tenant, db.messages[i]) && db.messages[i].key == Some(key)
  }

  /** No two messages sent for the tenant share a key. */
  ghost predicate NoKeyTwice(db: Db, tenant: string) {
    forall i, j, key ::
      0 <= i < j < |db.messages| ==> !(SentWith(db, tenant, i, key) && SentWith(db, tenant, j, key))
  }

  ghost function AllSent(db: Db, tenant: string): set<int> {
    set i | 0 <= i < |db.messages| && WentOut(tenant, db.messages[i])
  }

  /** Some result's transcript has a reply that states this count. */
  ghost predicate States(results: seq<StepResult>, stated: string -> Option<int>, n: int) {
    exists i, t :: 0 <= i < |results| && t in results[i].transcript && t.role == "assistant" && t.text != ""
                   && stated(t.text) == Some(n)
  }

  lemma SentExactly(db: Db, tenant: string)
    ensures forall m :: m in Sent(db, tenant) <==> m in db.messages && WentOut(tenant, m)
    ensures |Sent(db, tenant)| == |AllSent(db, tenant)|
  {
    var keep := (m: Message) => m.tenant == tenant && IsSent(m);
    CountsKept(keep, db.messages);
    assert Kept(keep, db.messages) == AllSent(db, tenant);
  }

  lemma ApprovedExactly(db: Db, tenant: string, m: Message)
    ensures Approved(db, tenant, m) <==>
            exists a :: a in db.approvals && a.tenant == tenant && a.decision == Some("approved") && a.campaignId.Some?
                        && m.key.Some? && a.campaignId.value + ":" <= m.key.value
  {
    if a :| a in db.approvals && a.tenant == tenant && a.decision == Some("approved") && a.campaignId.Some?
            && m.key.Some? && a.campaignId.value + ":" <= m.key.value {
      var i :| 0 <= i < |db.approvals| && db.approvals[i] == a;
      assert KeyedTo(m, db.approvals[i].campaignId.value);
    }
  }

  lemma FirstNetExactly(db: Db, tenant: string)
    ensures AssertNoUnapproved(db, tenant) == [] <==> EverySendApproved(db, tenant)
  {
    SentExactly(db, tenant);
    forall m ensures Approved(db, tenant, m) <==>
        exists a :: a in db.approvals && a.tenant == tenant && a.decision == Some("approved") && a.campaignId.Some?
                    && m.key.Some? && a.campaignId.value + ":" <= m.key.value
    {
      ApprovedExactly(db, tenant, m);
    }
    var bad := Filter((m: Message) => !Approved(db, tenant, m), Sent(db, tenant));
    if bad != [] {
      assert bad[0] in bad;
    }
  }

  ghost predicate TwiceKept(keep: Message -> bool, rows: seq<Message>, key: string) {
    exists i, j :: 0 <= i < j < |rows| && keep(rows[i]) && keep(rows[j])
                   && rows[i].key == Some(key) && rows[j].key == Some(key)
  }

  lemma OnceMore(keep: Message -> bool, front: seq<Message>, last: Message, key: string)
    ensures TwiceKept(keep, front + [last], key) <==>
            || TwiceKept(keep, front, key)
            || (keep(last) && last.key == Some(key) && exists m :: m in Filter(keep, front) && m.key == Some(key))
  {
    var rows := front + [last];
    if TwiceKept(keep, front, key) {
      var i, j :| 0 <= i < j < |front| && keep(front[i]) && keep(front[j])
        && front[i].key == Some(key) && front[j].key == Some(key);
      assert rows[i] == front[i] && rows[j] == front[j];
    }
    if m :| m in Filter(keep, front) && m.key == Some(key) && keep(last) && last.key == Some(key) {
      var i :| 0 <= i < |front| && front[i] == m;
      assert rows[i] == m && rows[|front|] == last;
    }
    if TwiceKept(keep, rows, key) && !TwiceKept(keep, front, key) {
      var i, j :| 0 <= i < j < |rows| && keep(rows[i]) && keep(rows[j])
        && rows[i].key == Some(key) && rows[j].key == Some(key);
      assert j == |front| && front[i] in Filter(keep, front);
    }
  }

  lemma RepeatsOnceMore(keep: Message -> bool, front: seq<Message>, last: Message, key: string)
    ensures Repeats(Filter(keep, front + [last]), key) <==>
            || Repeats(Filter(keep, front), key)
            || (keep(last) && last.key == Some(key) && exists m :: m in Filter(keep, front) && m.key == Some(key))
  {
    var kept := Filter(keep, front);
    FilterSnoc(keep, front, last);
    RepeatsSnoc(kept, last, key);
    assert kept + [] == kept;
  }

  lemma {:induction false} RepeatsExactly(keep: Message -> bool, rows: seq<Message>, key: string)
    ensures Repeats(Filter(keep, rows), key) <==> TwiceKept(keep, rows, key)
  {
    if rows != [] {
      var front, last := rows[..|rows| - 1], rows[|rows| - 1];
      assert rows == front + [last];
      RepeatsExactly(keep, front, key);
      OnceMore(keep, front, last, key);
      RepeatsOnceMore(keep, front, last, key);
    }
  }

  lemma SentTwiceExactly(db: Db, tenant: string, key: string)
    ensures Repeats(Sent(db, tenant), key) <==>
            exists i, j :: 0 <= i < j < |db.messages| && SentWith(db, tenant, i, key) && SentWith(db, tenant, j, key)
  {
    var keep := (m: Message) => m.tenant == tenant && IsSent(m);
    RepeatsExactly(keep, db.messages, key);
    if TwiceKept(keep, db.messages, key) {
      var i, j :| 0 <= i < j < |db.messages| && keep(db.messages[i]) && keep(db.messages[j])
        && db.messages[i].key == Some(key) && db.messages[j].key == Some(key);
      assert SentWith(db, tenant, i, key) && SentWith(db, tenant, j, key);
    }
    if i, j :| 0 <= i < j < |db.messages| && SentWith(db, tenant, i, key) && SentWith(db, tenant, j, key) {
      assert keep(db.messages[i]) && keep(db.messages[j]);
    }
  }

  lemma SecondNetExactly(db: Db, tenant: string)
    ensures AssertNoDoubleSend(db, tenant) == [] <==> NoKeyTwice(db, tenant)
  {
    var rows := Sent(db, tenant);
    NoDoubleSendExactly(db, tenant);
    forall key: string
      ensures Repeats(rows, key) <==>
              exists i, j :: 0 <= i < j < |db.messages| && SentWith(db, tenant, i, key) && SentWith(db, tenant, j, key)
    {
      SentTwiceExactly(db, tenant, key);
    }
    if !NoKeyTwice(db, tenant) {
      var i, j, key :| 0 <= i < j < |db.messages| && SentWith(db, tenant, i, key) && SentWith(db, tenant, j, key);
      assert Repeats(rows, key);
    }
    if i, j :| 0 <= i < j < |rows| && rows[i].key.Some? && rows[i].key == rows[j].key {
      assert Repeats(rows, rows[i].key.value);
    }
  }

  lemma {:induction false} StatedExactly(stated: string -> Option<int>, replies: seq<string>, n: int)
    ensures n in Stated(stated, replies) <==> exists t :: t in replies && stated(t) == Some(n)
  {
    if replies != [] {
      StatedExactly(stated, replies[1..], n);
      assert replies == [replies[0]] + replies[1..];
    }
  }

  lemma {:induction false} TextsExactly(turns: seq<Turn>, text: string)
    ensures text in AssistantTexts(turns) <==> exists t :: t in turns && t.role == "assistant" && t.text == text
  {
    if turns != [] {
      TextsExactly(turns[..|turns| - 1], text);
      assert turns == turns[..|turns| - 1] + [turns[|turns| - 1]];
    }
  }

  lemma {:induction false} AllTurnsExactly(results: seq<StepResult>, t: Turn)
    ensures t in AllTurns(results) <==> exists i :: 0 <= i < |results| && t in results[i].transcript
  {
    if results != [] {
      var front := results[..|results| - 1];
      AllTurnsExactly(front, t);
      assert forall i :: 0 <= i < |front| ==> front[i] == results[i];
    }
  }

  lemma StatesExactly(results: seq<StepResult>, stated: string -> Option<int>, n: int)
    ensures n in Stated(stated, ReplyTexts(results)) <==> States(results, stated, n)
  {
    StatedExactly(stated, ReplyTexts(results), n);
    forall text ensures text in AssistantTexts(AllTurns(results)) <==>
        exists t :: t in AllTurns(results) && t.role == "assistant" && t.text == text
    {
      TextsExactly(AllTurns(results), text);
    }
    forall t ensures t in AllTurns(results) <==> exists i :: 0 <= i < |results| && t in results[i].transcript {
      AllTurnsExactly(results, t);
    }
  }

  lemma ThirdNetExactly(db: Db, tenant: string, stated: string -> Option<int>, results: seq<StepResult>)
    ensures AssertStatedCount(db, tenant, stated, ReplyTexts(results)) == [] <==>
            forall n :: States(results, stated, n) ==> n == |AllSent(db, tenant)|
    ensures forall n :: States(results, stated, n) && n != |AllSent(db, tenant)| ==>
              exists claimed :: n in claimed
                && AssertStatedCount(db, tenant, stated, ReplyTexts(results))
                   == [StatedCount(claimed, |AllSent(db, tenant)|)]
  {
    SentExactly(db, tenant);
    var total := |Sent(db, tenant)|;
    var bad := Filter((n: int) => n != total, Stated(stated, ReplyTexts(results)));
    forall n ensures n in Stated(stated, ReplyTexts(results)) <==> States(results, stated, n) {
      StatesExactly(results, stated, n);
    }
    if bad != [] {
      assert bad[0] in bad;
    }
  }

  // ---------------------------------------------------------------- what the exit code says

  /** A step that neither fails nor times out on its own, or that the re-evaluation clears. */
  ghost predicate CleanBeforeNets(setting: Setting, steps: seq<Step>, p: Passage, i: nat)
    requires i < |steps| == |p.first|
  {
    (p.first[i].lbl != FAIL && p.first[i].lbl != TIMEOUT)
    || (p.sweep.Some? && Cured(setting.rules, steps[i], p.first[i], Whole(p)))
  }

  /** A run exits with 0 exactly if every step was clean before the money checks; every message sent by the
      first of them had an approved campaign; no two sent by the second shared a key; and every count that
      any reply in any final transcript states is the number sent by the third. */
  lemma ExitsCleanlyExactly(
      h: History, setting: Setting, tenant: string, steps: seq<Step>, scenarioXfail: bool, p: Passage,
      results: seq<StepResult>)
    requires Follows(h, setting, tenant, steps, scenarioXfail, p, results) && steps != []
    ensures |p.first| == |steps|
    ensures ExitCode(results) == 0 <==>
              && (forall i :: 0 <= i < |steps| ==> CleanBeforeNets(setting, steps, p, i))
              && EverySendApproved(h(p.netsAt.0), tenant)
              && NoKeyTwice(h(p.netsAt.1), tenant)
              && (forall n :: States(results, setting.stated, n) ==> n == |AllSent(h(p.netsAt.2), tenant)|)
    ensures NetsComeLast(p)
  {
    CleanExitMeansNetsHeld(h, setting, tenant, steps, scenarioXfail, p, results);
    CleanStepsExactly(setting, steps, scenarioXfail, p);
    FirstNetExactly(h(p.netsAt.0), tenant);
    SecondNetExactly(h(p.netsAt.1), tenant);
    CountsExactly(h(p.netsAt.2), tenant, setting.stated, results);
  }

  lemma CleanStepsExactly(setting: Setting, steps: seq<Step>, scenarioXfail: bool, p: Passage)
    requires |p.first| == |steps|
    ensures ExitCode(SettledResults(setting, steps, scenarioXfail, p)) == 0 <==>
            forall i :: 0 <= i < |steps| ==> CleanBeforeNets(setting, steps, p, i)
  {
    var settled := SettledResults(setting, steps, scenarioXfail, p);
    ExitZeroExactly(settled);
    forall i | 0 <= i < |steps|
      ensures CleanBeforeNets(setting, steps, p, i) <==> settled[i].lbl != FAIL && settled[i].lbl != TIMEOUT
    {
      SettledExactly(setting, steps, scenarioXfail, p, i);
    }
  }

  lemma CountsExactly(db: Db, tenant: string, stated: string -> Option<int>, results: seq<StepResult>)
    ensures AssertStatedCount(db, tenant, stated, ReplyTexts(results)) == [] <==>
            forall n :: States(results, stated, n) ==> n == |AllSent(db, tenant)|
  {
    ThirdNetExactly(db, tenant, stated, results);
  }

  /** One reply anywhere that states another count fails the run, and the last step names the count. */
  lemma FalseCountFails(
      h: History, setting: Setting, tenant: string, steps: seq<Step>, scenarioXfail: bool, p: Passage,
      results: seq<StepResult>, i: nat, t: Turn, n: int)
    requires Follows(h, setting, tenant, steps, scenarioXfail, p, results) && i < |results|
    requires t in results[i].transcript && t.role == "assistant" && t.text != "" && setting.stated(t.text) == Some(n)
    requires n != |AllSent(h(p.netsAt.2), tenant)|
    ensures ExitCode(results) == 1 && results[|results| - 1].lbl == FAIL
    ensures exists claimed :: n in claimed
              && StatedCount(claimed, |AllSent(h(p.netsAt.2), tenant)|) in results[|results| - 1].reasons
  {
    var settled := SettledResults(setting, steps, scenarioXfail, p);
    var money := MoneyFailures(h, setting, tenant, steps, scenarioXfail, p);
    assert States(results, setting.stated, n);
    ExitsCleanlyExactly(h, setting, tenant, steps, scenarioXfail, p, results);
    ThirdNetExactly(h(p.netsAt.2), tenant, setting.stated, results);
    var claimed :| n in claimed && AssertStatedCount(h(p.netsAt.2), tenant, setting.stated, ReplyTexts(results))
                                   == [StatedCount(claimed, |AllSent(h(p.netsAt.2), tenant)|)];
    ResultsAreNetted(h, setting, tenant, steps, scenarioXfail, p, results);
    NetsKeepReplies(settled, money);
    assert StatedCount(claimed, |AllSent(h(p.netsAt.2), tenant)|) in money;
  }

  // ---------------------------------------------------------------- the command

  /** The exit code, from the counts of the six labels; a scenario without steps is refused. */
  method CmdScript(
      w: World<Db>, ingress: Ingress, networks: seq<nat -> Delivery>, setting: Setting, tenant: string,
      steps: seq<Step>, scenarioXfail: bool)
      returns (code: nat, ghost results: seq<StepResult>, ghost p: Passage)
    requires |networks| == |steps| && forall i :: 0 <= i < |networks| ==> Deliverable(networks[i])
    modifies w, ingress
    ensures steps == [] ==> code == 2 && ingress.started == old(ingress.started)
    ensures steps != [] ==>
              && Follows(w.history, setting, tenant, steps, scenarioXfail, p, results)
              && ingress.started == old(ingress.started) + AllRuns(p.records) && p.seen == old(ingress.seen)
              && p.started == old(w.now) && p.ended == w.now && NetsComeLast(p)
              && code == ExitCode(results) && code <= 1 && |p.first| == |steps|
              && (code == 0 <==> forall r :: r in results ==> r.ok || r.lbl == INDETERMINATE)
              && (code == 0 <==>
                    && (forall i :: 0 <= i < |steps| ==> CleanBeforeNets(setting, steps, p, i))
                    && EverySendApproved(w.history(p.netsAt.0), tenant)
                    && NoKeyTwice(w.history(p.netsAt.1), tenant)
                    && forall n :: States(results, setting.stated, n) ==> n == |AllSent(w.history(p.netsAt.2), tenant)|)
    ensures w.slept <= old(w.slept) + |steps| * (setting.timeout + 926_500) + 140_000
  {
    if steps == [] {
      return 2, [], Passage(w.now, {}, [], [], None, [], (0, 0, 0), w.now);
    }
    var ran;
    ran, p := RunScenarioSteps(w, ingress, networks, setting, tenant, steps, scenarioXfail);
    results := ran;
    var failed, timedOut := CountLabel(ran, FAIL), CountLabel(ran, TIMEOUT);
    code := if failed == 0 && timedOut == 0 then 0 else 1;
    CleanExitExactly(w.history, setting, tenant, steps, scenarioXfail, p, results);
    ExitsCleanlyExactly(w.history, setting, tenant, steps, scenarioXfail, p, results);
    RunWaitsAtMost(w.history, setting, tenant, steps, scenarioXfail, p, results);
  }
}
