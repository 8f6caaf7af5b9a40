/** The rows the conversation harness reads, its queries over them, and its checks of what the
    system really did. */
module Store {
  import opened Common

  datatype Campaign = Campaign(tenant: string, id: string, runId: string, createdAt: int, cohortSize: Option<int>)
  datatype Approval = Approval(
    id: string,
    tenant: string,
    campaignId: Option<string>,
    decision: Option<string>,
    requestedAt: int)
  datatype Message = Message(tenant: string, key: Option<string>, status: string, createdAt: int)
  datatype Task = Task(
    id: string,
    tenant: string,
    sourceRef: Option<string>,
    status: string,
    awaitingRunId: Option<string>)
  datatype LogRow = LogRow(tenant: string, id: string, role: string, text: string, sid: Option<string>, createdAt: int)

  /** A snapshot of the database; `tenants` maps a tenant to the instant its row was created, and
      `up` says whether a statement made at this instant is answered or fails. */
  datatype Db = Db(
    tenants: map<string, int>,
    runs: map<string, string>,  // pipeline run to status
    campaigns: seq<Campaign>,
    approvals: seq<Approval>,
    messages: seq<Message>,
    tasks: seq<Task>,
    log: seq<LogRow>,
    up: bool)

  /** Rows from before the tenant itself was created are not this conversation's. */
  predicate SinceTenant(db: Db, tenant: string, createdAt: int) {
    tenant in db.tenants && createdAt >= db.tenants[tenant]
  }

  // ---------------------------------------------------------------- selecting rows

  function Filter<T(!new)>(keep: T -> bool, rows: seq<T>): (r: seq<T>)
    ensures forall x :: x in r <==> x in rows && keep(x)
  {
    if rows == [] then []
    else
      var last := rows[|rows| - 1];
      assert rows == rows[..|rows| - 1] + [last];
      Filter(keep, rows[..|rows| - 1]) + (if keep(last) then [last] else [])
  }

  /** `ORDER BY at DESC LIMIT 1`; among equals the row stored first. */
  function Latest<T(!new)>(at: T -> int, rows: seq<T>): (r: Option<T>)
    ensures r.None? <==> rows == []
    ensures r.Some? ==> r.value in rows && forall x :: x in rows ==> at(x) <= at(r.value)
  {
    if rows == [] then None
    else
      var last := rows[|rows| - 1];
      assert rows == rows[..|rows| - 1] + [last];
      match Latest(at, rows[..|rows| - 1])
      case None => Some(last)
      case Some(best) => if at(best) < at(last) then Some(last) else Some(best)
  }

  /** `ORDER BY created_at ASC, id ASC`, by insertion. */
  function Insert(row: LogRow, rows: seq<LogRow>): seq<LogRow> {
    if rows == [] then [row]
    else if Precedes(row, rows[0]) then [row] + rows
    else [rows[0]] + Insert(row, rows[1..])
  }

  predicate Precedes(a: LogRow, b: LogRow) {
    a.createdAt < b.createdAt || (a.createdAt == b.createdAt && LexLess(a.id, b.id))
  }

  function Ordered(rows: seq<LogRow>): seq<LogRow> {
    if rows == [] then [] else Insert(rows[|rows| - 1], Ordered(rows[..|rows| - 1]))
  }

  lemma {:induction false} InsertMembers(row: LogRow, rows: seq<LogRow>)
    ensures forall x :: x in Insert(row, rows) <==> x == row || x in rows
  {
    if rows != [] && !Precedes(row, rows[0]) {
      InsertMembers(row, rows[1..]);
      assert rows == [rows[0]] + rows[1..];
    }
  }

  lemma {:induction false} OrderedMembers(rows: seq<LogRow>)
    ensures forall x :: x in Ordered(rows) <==> x in rows
  {
    if rows != [] {
      OrderedMembers(rows[..|rows| - 1]);
      InsertMembers(rows[|rows| - 1], Ordered(rows[..|rows| - 1]));
      assert rows == rows[..|rows| - 1] + [rows[|rows| - 1]];
    }
  }

  predicate InOrder(rows: seq<LogRow>) {
    forall i, j :: 0 <= i < j < |rows| ==> !Precedes(rows[j], rows[i])
  }

  lemma PrecedesTransitive(a: LogRow, b: LogRow, c: LogRow)
    requires Precedes(a, b) && Precedes(b, c)
    ensures Precedes(a, c) && !Precedes(c, a)
  {
    if a.createdAt == b.createdAt == c.createdAt {
      LexTransitive(a.id, b.id, c.id);
      LexAsymmetric(a.id, c.id);
    }
  }

  lemma {:induction false} InsertKeepsOrder(row: LogRow, rows: seq<LogRow>)
    requires InOrder(rows)
    ensures InOrder(Insert(row, rows))
  {
    if rows != [] {
      if Precedes(row, rows[0]) {
        forall j | 0 <= j < |rows| ensures !Precedes(rows[j], row) {
          if Precedes(rows[j], row) {
            PrecedesTransitive(rows[j], row, rows[0]);
          }
        }
      } else {
        var rest := Insert(row, rows[1..]);
        InsertKeepsOrder(row, rows[1..]);
        InsertMembers(row, rows[1..]);
        forall k | 0 <= k < |rest| ensures !Precedes(rest[k], rows[0]) {
          assert rest[k] in rest;
        }
      }
    }
  }

  lemma {:induction false} OrderedIsInOrder(rows: seq<LogRow>)
    ensures InOrder(Ordered(rows))
  {
    if rows != [] {
      OrderedIsInOrder(rows[..|rows| - 1]);
      InsertKeepsOrder(rows[|rows| - 1], Ordered(rows[..|rows| - 1]));
    }
  }

  lemma {:induction false} FilterKeepsOrder(keep: LogRow -> bool, rows: seq<LogRow>)
    requires InOrder(rows)
    ensures InOrder(Filter(keep, rows))
  {
    if rows != [] {
      var front, last := rows[..|rows| - 1], rows[|rows| - 1];
      FilterKeepsOrder(keep, front);
      var kept := Filter(keep, front);
      forall i | 0 <= i < |kept| ensures !Precedes(last, kept[i]) {
        assert kept[i] in kept;
        var k :| 0 <= k < |front| && front[k] == kept[i];
        assert rows[k] == kept[i];
      }
    }
  }

  // ---------------------------------------------------------------- conversation and campaigns

  /** `_conversation_ids`: not fenced, every row the tenant ever had. */
  function ConversationIds(db: Db, tenant: string): set<string> {
    set i | 0 <= i < |db.log| && db.log[i].tenant == tenant :: db.log[i].id
  }

  /** `_new_conversation_turns`: the tenant's rows since its creation, in order, minus those already
      seen. */
  function NewTurns(db: Db, tenant: string, seen: set<string>): seq<LogRow> {
    Filter((r: LogRow) => r.id !in seen,
           Ordered(Filter((r: LogRow) => r.tenant == tenant && SinceTenant(db, tenant, r.createdAt), db.log)))
  }

  /** A conversation read returns exactly the tenant's unseen rows from its own lifetime, each as often as
      it is stored, oldest first and by id where the instants are equal. */
  lemma NewTurnsExactly(db: Db, tenant: string, seen: set<string>, row: LogRow)
    ensures
      var own := row.tenant == tenant && tenant in db.tenants && db.tenants[tenant] <= row.createdAt;
      var rows := NewTurns(db, tenant, seen);
      && (row in rows <==> row in db.log && own && row.id !in seen)
      && multiset(rows)[row] == (if own && row.id !in seen then multiset(db.log)[row] else 0)
      && forall i, j :: 0 <= i < j < |rows| ==>
           || rows[i].createdAt < rows[j].createdAt
           || (rows[i].createdAt == rows[j].createdAt && !LexLess(rows[j].id, rows[i].id))
  {
    var keep := (r: LogRow) => r.tenant == tenant && SinceTenant(db, tenant, r.createdAt);
    var unseen := (r: LogRow) => r.id !in seen;
    var own := Filter(keep, db.log);
    OrderedMembers(own);
    OrderedIsInOrder(own);
    FilterKeepsOrder(unseen, Ordered(own));
    FilterCounts(keep, db.log, row);
    OrderedCounts(own);
    FilterCounts(unseen, Ordered(own), row);
    assert InOrder(NewTurns(db, tenant, seen));
  }

  lemma {:induction false} FilterCounts<T(!new)>(keep: T -> bool, rows: seq<T>, x: T)
    ensures multiset(Filter(keep, rows))[x] == if keep(x) then multiset(rows)[x] else 0
  {
    if rows != [] {
      var front, last := rows[..|rows| - 1], rows[|rows| - 1];
      assert rows == front + [last];
      FilterCounts(keep, front, x);
    }
  }

  lemma {:induction false} InsertCounts(row: LogRow, rows: seq<LogRow>)
    ensures multiset(Insert(row, rows)) == multiset(rows) + multiset{row}
  {
    if rows != [] && !Precedes(row, rows[0]) {
      InsertCounts(row, rows[1..]);
      assert rows == [rows[0]] + rows[1..];
    }
  }

  lemma {:induction false} OrderedCounts(rows: seq<LogRow>)
    ensures multiset(Ordered(rows)) == multiset(rows)
  {
    if rows != [] {
      var front, last := rows[..|rows| - 1], rows[|rows| - 1];
      OrderedCounts(front);
      InsertCounts(last, Ordered(front));
      assert multiset(rows) == multiset(front) + multiset{last} by {
        assert rows == front + [last];
      }
    }
  }

  /** Runs that drafted a campaign for the turn's message on a task of their own. */
  function AwaitingRuns(db: Db, tenant: string, sid: string): set<string> {
    set i | 0 <= i < |db.tasks| && db.tasks[i].tenant == tenant && db.tasks[i].sourceRef == Some(sid)
            && db.tasks[i].awaitingRunId.Some? :: db.tasks[i].awaitingRunId.value
  }

  predicate CampaignMatches(db: Db, tenant: string, run: Option<string>, sid: Option<string>, c: Campaign) {
    c.tenant == tenant &&
    match run
    case None => SinceTenant(db, tenant, c.createdAt)
    case Some(r) => c.runId == r || (sid.Some? && c.runId in AwaitingRuns(db, tenant, sid.value))
  }

  /** `_campaign_id_for_run`; no run means tenant-wide. */
  function CampaignForRun(db: Db, tenant: string, run: Option<string>, sid: Option<string>): Option<string> {
    match Latest((c: Campaign) => c.createdAt,
                 Filter((c: Campaign) => CampaignMatches(db, tenant, run, sid, c), db.campaigns))
    case None => None
    case Some(c) => Some(c.id)
  }

  /** The lookup finds a newest attributable campaign, and nothing only if none is attributable. */
  lemma CampaignForRunExactly(db: Db, tenant: string, run: Option<string>, sid: Option<string>)
    ensures
      var found := CampaignForRun(db, tenant, run, sid);
      && (found.None? <==> forall c :: c in db.campaigns ==> !CampaignMatches(db, tenant, run, sid, c))
      && (found.Some? ==>
            exists c :: c in db.campaigns && CampaignMatches(db, tenant, run, sid, c) && c.id == found.value
                        && NoNewer(db, tenant, run, sid, c))
  {
    var rows := Filter((c: Campaign) => CampaignMatches(db, tenant, run, sid, c), db.campaigns);
    if rows != [] {
      var c := Latest((c: Campaign) => c.createdAt, rows).value;
      assert c in rows && NoNewer(db, tenant, run, sid, c);
    }
  }

  predicate NoNewer(db: Db, tenant: string, run: Option<string>, sid: Option<string>, c: Campaign) {
    forall d :: d in db.campaigns && CampaignMatches(db, tenant, run, sid, d) ==> d.createdAt <= c.createdAt
  }

  // ---------------------------------------------------------------- is work still in flight?

  /** The task states in which a reply is still being composed. */
  predicate Producing(status: string) {
    status == "planned" || status == "running" || status == "verifying"
  }

  predicate TurnHasTask(db: Db, tenant: string, sid: string) {
    exists t :: t in db.tasks && t.tenant == tenant && t.sourceRef == Some(sid)
  }

  predicate TurnProducing(db: Db, tenant: string, sid: string) {
    exists t :: t in db.tasks && t.tenant == tenant && t.sourceRef == Some(sid) && Producing(t.status)
  }

  predicate TenantProducing(db: Db, tenant: string) {
    exists t :: t in db.tasks && t.tenant == tenant && Producing(t.status)
  }

  // ---------------------------------------------------------------- failures

  /** A failure reason, by kind; the text the program prints is not modelled, only what it says. */
  datatype Failure =
    | Silent
    | MissingText(needle: string)
    | UnexpectedText(needle: string)
    | OnlyFallback
    | NoQuestion
    | RunReasonUnsupported(reason: string)
    | Route(delegation: bool)
    | SideEffect(what: Effect)
    | Grounded(expectedCount: int)
    | NoRun
    | Breach(turns: nat)
    | TimedOut
    | Unsettled
    | UnapprovedSend
    | DoubleSend
    | StatedCount(claimed: seq<int>, found: int)

  datatype Effect =
    | CampaignPresence(present: bool)
    | NoCampaignToDecide
    | Decision(decision: string)
    | SentCount(wanted: int, found: int, campaignScoped: bool)
    | SentAtLeast(floor: int, found: int, campaignScoped: bool)

  /** The failures that the database asserts report. */
  predicate FromDatabase(f: Failure) {
    f.Route? || f.SideEffect? || f.Grounded? || f.NoRun?
  }

  // ---------------------------------------------------------------- database asserts

  datatype RouteSpec = RouteSpec(expectDelegation: bool, tenantWide: bool)
  datatype EffectsSpec = EffectsSpec(
    tenantWide: Option<bool>,
    campaign: Option<bool>,
    decision: Option<string>,
    sent: Option<int>,
    sentAtLeast: Option<int>)
  datatype GroundedSpec = GroundedSpec(expectedCount: int, tenantWide: bool)

  function AssertRoute(
      db: Db, tenant: string, run: Option<string>, sid: Option<string>, delegated: bool): seq<Failure>
  {
    if CampaignForRun(db, tenant, run, sid).Some? != delegated then [Route(delegated)] else []
  }

  /** The route check passes exactly when delegation was expected just if a campaign is attributable. */
  lemma RouteExactly(db: Db, tenant: string, run: Option<string>, sid: Option<string>, delegated: bool)
    ensures AssertRoute(db, tenant, run, sid, delegated) == [] <==>
            (delegated <==> exists c :: c in db.campaigns && CampaignMatches(db, tenant, run, sid, c))
  {
    CampaignForRunExactly(db, tenant, run, sid);
  }

  predicate IsSent(m: Message) {
    m.status == "sent" || m.status == "template_sent"
  }

  predicate KeyedTo(m: Message, campaign: string) {
    m.key.Some? && campaign + ":" <= m.key.value
  }

  function Count<T(!new)>(keep: T -> bool, rows: seq<T>): nat {
    |Filter(keep, rows)|
  }

  /** Sent rows of the campaign; without an attributable campaign, every send since the tenant's
      creation: the question is asked of the database either way. */
  function SentInScope(db: Db, tenant: string, campaign: Option<string>): nat {
    Count((m: Message) => m.tenant == tenant && IsSent(m) &&
            (match campaign case Some(c) => KeyedTo(m, c) case None => SinceTenant(db, tenant, m.createdAt)),
          db.messages)
  }

  function DecisionFor(db: Db, tenant: string, campaign: string): Option<string> {
    match Latest((a: Approval) => a.requestedAt,
                 Filter((a: Approval) => a.tenant == tenant && a.campaignId == Some(campaign), db.approvals))
    case None => None
    case Some(a) => a.decision
  }

  function PresenceFailures(campaign: Option<string>, expected: Option<bool>): seq<Failure> {
    if expected.Some? && campaign.Some? != expected.value then [SideEffect(CampaignPresence(expected.value))] else []
  }

  /** The decision a row must have for an expectation; "pending" means none yet. */
  function Wanted(expected: string): Option<string> {
    if expected == "pending" then None else Some(expected)
  }

  function DecisionFailures(db: Db, tenant: string, campaign: Option<string>, expected: Option<string>): seq<Failure> {
    if expected.None? then []
    else if campaign.None? then [SideEffect(NoCampaignToDecide)]
    else
      if DecisionFor(db, tenant, campaign.value) == Wanted(expected.value) then []
      else [SideEffect(Decision(expected.value))]
  }

  function SentFailures(
      db: Db, tenant: string, campaign: Option<string>, sent: Option<int>, atLeast: Option<int>): seq<Failure>
  {
    var n := SentInScope(db, tenant, campaign);
    (if sent.Some? && n != sent.value then [SideEffect(SentCount(sent.value, n, campaign.Some?))] else [])
    + (if atLeast.Some? && n < atLeast.value then [SideEffect(SentAtLeast(atLeast.value, n, campaign.Some?))] else [])
  }

  function AssertSideEffects(
      db: Db, tenant: string, run: Option<string>, sid: Option<string>, spec: EffectsSpec): seq<Failure>
  {
    var campaign := CampaignForRun(db, tenant, run, sid);
    PresenceFailures(campaign, spec.campaign)
    + DecisionFailures(db, tenant, campaign, spec.decision)
    + SentFailures(db, tenant, campaign, spec.sent, spec.sentAtLeast)
  }

  function CohortOf(db: Db, tenant: string, campaign: string): Option<int> {
    var rows := Filter((c: Campaign) => c.tenant == tenant && c.id == campaign, db.campaigns);
    if rows == [] then None else rows[0].cohortSize
  }

  function AssertGroundedCount(
      db: Db, tenant: string, run: Option<string>, sid: Option<string>, expected: int): seq<Failure>
  {
    match CampaignForRun(db, tenant, run, sid)
    case None => [Grounded(expected)]
    case Some(c) => if CohortOf(db, tenant, c) != Some(expected) then [Grounded(expected)] else []
  }

  /** What a step asks of the database. */
  datatype DbAsserts = DbAsserts(
    route: Option<RouteSpec>,
    effects: Option<EffectsSpec>,
    grounded: Option<GroundedSpec>)
  {
    predicate TenantWide() {
      (route.Some? && route.value.tenantWide)
      || (effects.Some? && effects.value.tenantWide == Some(true))
      || (grounded.Some? && grounded.value.tenantWide)
    }
  }

  function Scope(run: string, tenantWide: bool): Option<string> {
    if tenantWide then None else Some(run)
  }

  function RouteFailures(
      db: Db, tenant: string, run: string, spec: Option<RouteSpec>, sid: Option<string>): seq<Failure>
  {
    match spec
    case None => []
    case Some(s) => AssertRoute(db, tenant, Scope(run, s.tenantWide), sid, s.expectDelegation)
  }

  function EffectFailures(
      db: Db, tenant: string, run: string, spec: Option<EffectsSpec>, sid: Option<string>): seq<Failure>
  {
    match spec
    case None => []
    case Some(s) => AssertSideEffects(db, tenant, Scope(run, s.tenantWide == Some(true)), sid, s)
  }

  function GroundedFailures(
      db: Db, tenant: string, run: string, spec: Option<GroundedSpec>, sid: Option<string>): seq<Failure>
  {
    match spec
    case None => []
    case Some(s) => AssertGroundedCount(db, tenant, Scope(run, s.tenantWide), sid, s.expectedCount)
  }

  /** `_evaluate_db_asserts`: what is declared is checked, and what cannot be checked is a failure. */
  function EvaluateDbAsserts(
      db: Db, tenant: string, run: Option<string>, asserts: DbAsserts, sid: Option<string>): seq<Failure>
  {
    if asserts.route.None? && asserts.effects.None? && asserts.grounded.None? then []
    else if run.None? then [NoRun]
    else
      RouteFailures(db, tenant, run.value, asserts.route, sid)
      + EffectFailures(db, tenant, run.value, asserts.effects, sid)
      + GroundedFailures(db, tenant, run.value, asserts.grounded, sid)
  }

  lemma DbAssertsReportDbFailures(db: Db, tenant: string, run: Option<string>, asserts: DbAsserts, sid: Option<string>)
    ensures forall f :: f in EvaluateDbAsserts(db, tenant, run, asserts, sid) ==> FromDatabase(f)
  {
    if run.Some? {
      assert forall f :: f in RouteFailures(db, tenant, run.value, asserts.route, sid) ==> f.Route?;
      assert forall f :: f in GroundedFailures(db, tenant, run.value, asserts.grounded, sid) ==> f.Grounded?;
      if asserts.effects.Some? {
        var s := asserts.effects.value;
        var campaign := CampaignForRun(db, tenant, Scope(run.value, s.tenantWide == Some(true)), sid);
        assert forall f :: f in PresenceFailures(campaign, s.campaign) ==> f.SideEffect?;
        assert forall f :: f in DecisionFailures(db, tenant, campaign, s.decision) ==> f.SideEffect?;
        assert forall f :: f in SentFailures(db, tenant, campaign, s.sent, s.sentAtLeast) ==> f.SideEffect?;
      }
      assert forall f :: f in EffectFailures(db, tenant, run.value, asserts.effects, sid) ==> f.SideEffect?;
    }
  }

  /** The newest approval rows of a campaign. */
  ghost predicate NewestApproval(db: Db, tenant: string, campaign: string, a: Approval) {
    && a in db.approvals && a.tenant == tenant && a.campaignId == Some(campaign)
    && (forall b :: b in db.approvals && b.tenant == tenant && b.campaignId == Some(campaign) ==>
          b.requestedAt <= a.requestedAt)
  }

  ghost predicate HasApproval(db: Db, tenant: string, campaign: string) {
    exists a :: a in db.approvals && a.tenant == tenant && a.campaignId == Some(campaign)
  }

  lemma DecisionForExactly(db: Db, tenant: string, campaign: string)
    ensures !HasApproval(db, tenant, campaign) ==> DecisionFor(db, tenant, campaign).None?
    ensures HasApproval(db, tenant, campaign) ==>
              exists a :: NewestApproval(db, tenant, campaign, a) && a.decision == DecisionFor(db, tenant, campaign)
  {
    var rows := Filter((a: Approval) => a.tenant == tenant && a.campaignId == Some(campaign), db.approvals);
    if HasApproval(db, tenant, campaign) {
      var a :| a in db.approvals && a.tenant == tenant && a.campaignId == Some(campaign);
      assert a in rows;
    }
    if rows != [] {
      var newest := Latest((a: Approval) => a.requestedAt, rows).value;
      assert newest in rows && NewestApproval(db, tenant, campaign, newest);
    }
  }

  /** When an expected decision passes: a newest approval row has it; all of them having it suffices,
      should several be newest at once. Where no approval row exists, exactly expecting "pending"
      passes. */
  lemma DecisionPassesExactly(db: Db, tenant: string, campaign: string, expected: string)
    ensures
      var passes := DecisionFailures(db, tenant, Some(campaign), Some(expected)) == [];
      if HasApproval(db, tenant, campaign) then
        && (passes ==> exists a :: NewestApproval(db, tenant, campaign, a) && a.decision == Wanted(expected))
        && ((forall a :: NewestApproval(db, tenant, campaign, a) ==> a.decision == Wanted(expected)) ==> passes)
      else passes <==> expected == "pending"
  {
    DecisionForExactly(db, tenant, campaign);
  }

  /** A database with a campaign and no approval row, on which expecting "pending" passes. */
  lemma PendingWithoutARow()
    ensures
      var db := Db(map["t" := 0], map[], [Campaign("t", "c", "r", 1, None)], [], [], [], [], true);
      && !HasApproval(db, "t", "c")
      && AssertSideEffects(db, "t", Some("r"), None, EffectsSpec(None, Some(true), Some("pending"), None, None)) == []
  {
    var c := Campaign("t", "c", "r", 1, None);
    var db := Db(map["t" := 0], map[], [c], [], [], [], [], true);
    var keep := (x: Campaign) => CampaignMatches(db, "t", Some("r"), None, x);
    assert db.campaigns[..0] == [];
    assert Filter(keep, db.campaigns[..0]) == [];
    assert Filter(keep, db.campaigns) == [c];
    assert CampaignForRun(db, "t", Some("r"), None) == Some("c") by {
      CampaignForRunExactly(db, "t", Some("r"), None);
      assert c in db.campaigns && CampaignMatches(db, "t", Some("r"), None, c);
    }
    assert DecisionFor(db, "t", "c").None? by {
      DecisionForExactly(db, "t", "c");
    }
  }

  /** A declared count of zero sends can only pass on a database that has none in scope: there is no
      vacuous pass when no campaign is attributable to the turn. */
  lemma ZeroSendsIsNeverVacuous(db: Db, tenant: string, run: Option<string>, sid: Option<string>, spec: EffectsSpec)
    requires spec.sent == Some(0) && AssertSideEffects(db, tenant, run, sid, spec) == []
    ensures
      var campaign := CampaignForRun(db, tenant, run, sid);
      forall m :: m in db.messages && m.tenant == tenant && IsSent(m) ==>
        (campaign.None? ==> !SinceTenant(db, tenant, m.createdAt)) && (campaign.Some? ==> !KeyedTo(m, campaign.value))
  {
    var campaign := CampaignForRun(db, tenant, run, sid);
    assert SentFailures(db, tenant, campaign, spec.sent, spec.sentAtLeast) == [];
    var keep := (m: Message) => m.tenant == tenant && IsSent(m) &&
            (match campaign case Some(c) => KeyedTo(m, c) case None => SinceTenant(db, tenant, m.createdAt));
    assert Filter(keep, db.messages) == [];
    forall m | m in db.messages && m.tenant == tenant && IsSent(m) ensures !keep(m) {
      assert m !in Filter(keep, db.messages);
    }
  }

  // ---------------------------------------------------------------- the three money nets

  function Sent(db: Db, tenant: string): seq<Message> {
    Filter((m: Message) => m.tenant == tenant && IsSent(m), db.messages)
  }

  predicate Approved(db: Db, tenant: string, m: Message) {
    exists i :: 0 <= i < |db.approvals| && db.approvals[i].tenant == tenant
      && db.approvals[i].decision == Some("approved")
                && db.approvals[i].campaignId.Some? && KeyedTo(m, db.approvals[i].campaignId.value)
  }

  /** A sent row without an approved campaign behind it, including one whose key is null or of
      another shape. */
  function AssertNoUnapproved(db: Db, tenant: string): seq<Failure> {
    if Filter((m: Message) => !Approved(db, tenant, m), Sent(db, tenant)) != [] then [UnapprovedSend] else []
  }

  function KeyCount(rows: seq<Message>, key: string): nat {
    Count((m: Message) => m.key == Some(key), rows)
  }

  function AssertNoDoubleSend(db: Db, tenant: string): seq<Failure> {
    var rows := Sent(db, tenant);
    if exists i :: 0 <= i < |rows| && rows[i].key.Some? && KeyCount(rows, rows[i].key.value) > 1
    then [DoubleSend] else []
  }

  /** The counts the replies state, read by the product's own extractor. */
  function Stated(stated: string -> Option<int>, replies: seq<string>): seq<int> {
    if replies == [] then []
    else (match stated(replies[0]) case Some(n) => [n] case None => []) + Stated(stated, replies[1..])
  }

  function AssertStatedCount(
      db: Db, tenant: string, stated: string -> Option<int>, replies: seq<string>): seq<Failure>
  {
    var total := |Sent(db, tenant)|;
    var bad := Filter((n: int) => n != total, Stated(stated, replies));
    if bad != [] then [StatedCount(bad, total)] else []
  }

  function NetFailures(db: Db, tenant: string, stated: string -> Option<int>, replies: seq<string>): seq<Failure> {
    AssertNoUnapproved(db, tenant) + AssertNoDoubleSend(db, tenant) + AssertStatedCount(db, tenant, stated, replies)
  }
}
