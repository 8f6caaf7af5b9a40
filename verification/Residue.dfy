/** The accumulated-state residue that `--dirty` lays under a fresh tenant, and why no observation
    of the conversation sees it. */
module Residue {
  import opened Common
  import opened Store
  import opened Money

  const DAY := 86_400_000  // milliseconds

  /** The ids of the seeded rows; all fresh when seeded. */
  datatype Residue = Residue(
    campaign: string,
    approval: string,
    task: string,
    history: seq<string>,
    agedRun: string,
    escalatedRun: string)
  {
    predicate OwnsRun(run: string) {
      run == agedRun || run == escalatedRun
    }
  }

  /** The database without the residue. */
  function Clean(db: Db, r: Residue): Db {
    db.(runs := map run | run in db.runs && !r.OwnsRun(run) :: db.runs[run],
        campaigns := Filter((c: Campaign) => c.id != r.campaign, db.campaigns),
        approvals := Filter((a: Approval) => a.id != r.approval, db.approvals),
        tasks := Filter((t: Task) => t.id != r.task, db.tasks),
        log := Filter((l: LogRow) => l.id !in r.history, db.log))
  }

  /** What the observations rely on: residue that is older than the tenant, bound to no campaign, no
      message and no live work, on runs that nothing else refers to. The stranded approval may have
      been decided since. */
  ghost predicate Aged(db: Db, tenant: string, r: Residue) {
    && tenant in db.tenants
    && (forall c :: c in db.campaigns && c.id == r.campaign ==> r.OwnsRun(c.runId) && c.createdAt < db.tenants[tenant])
    && (forall a :: a in db.approvals && a.id == r.approval ==> a.campaignId.None?)
    && (forall t :: t in db.tasks && t.id == r.task ==> t.sourceRef.None? && !Producing(t.status))
    && (forall t :: t in db.tasks && t.awaitingRunId.Some? ==> !r.OwnsRun(t.awaitingRunId.value))
    && (forall l :: l in db.log && l.id in r.history ==> l.createdAt < db.tenants[tenant])
  }

  // ---------------------------------------------------------------- invisibility, query by query

  /** A query that only keeps surviving rows gives the same answer on the survivors. */
  lemma FilterThrough<T(!new)>(survives: T -> bool, keep: T -> bool, rows: seq<T>)
    requires forall x :: x in rows && keep(x) ==> survives(x)
    ensures Filter(keep, Filter(survives, rows)) == Filter(keep, rows)
  {
    FilterTwice(survives, keep, keep, rows);
  }

  lemma ConversationUnchanged(db: Db, tenant: string, r: Residue, seen: set<string>)
    requires Aged(db, tenant, r)
    ensures NewTurns(Clean(db, r), tenant, seen) == NewTurns(db, tenant, seen)
  {
    var clean := Clean(db, r);
    var keep := (l: LogRow) => l.tenant == tenant && SinceTenant(db, tenant, l.createdAt);
    FilterThrough((l: LogRow) => l.id !in r.history, keep, db.log);
    FilterAgrees(keep, (l: LogRow) => l.tenant == tenant && SinceTenant(clean, tenant, l.createdAt), clean.log);
  }

  lemma AwaitingRunsUnchanged(db: Db, tenant: string, r: Residue, sid: string)
    requires Aged(db, tenant, r)
    ensures AwaitingRuns(Clean(db, r), tenant, sid) == AwaitingRuns(db, tenant, sid)
    ensures forall run :: run in AwaitingRuns(db, tenant, sid) ==> !r.OwnsRun(run)
  {
    var clean := Clean(db, r);
    forall run | run in AwaitingRuns(db, tenant, sid)
      ensures run in AwaitingRuns(clean, tenant, sid) && !r.OwnsRun(run)
    {
      var i :| 0 <= i < |db.tasks| && db.tasks[i].tenant == tenant && db.tasks[i].sourceRef == Some(sid)
               && db.tasks[i].awaitingRunId == Some(run);
      assert db.tasks[i] in clean.tasks;
      var j :| 0 <= j < |clean.tasks| && clean.tasks[j] == db.tasks[i];
    }
    forall run | run in AwaitingRuns(clean, tenant, sid) ensures run in AwaitingRuns(db, tenant, sid) {
      var j :| 0 <= j < |clean.tasks| && clean.tasks[j].tenant == tenant && clean.tasks[j].sourceRef == Some(sid)
               && clean.tasks[j].awaitingRunId == Some(run);
      assert clean.tasks[j] in db.tasks;
      var i :| 0 <= i < |db.tasks| && db.tasks[i] == clean.tasks[j];
    }
  }

  lemma CampaignLookupUnchanged(db: Db, tenant: string, r: Residue, run: Option<string>, sid: Option<string>)
    requires Aged(db, tenant, r) && (run.Some? ==> !r.OwnsRun(run.value))
    ensures CampaignForRun(Clean(db, r), tenant, run, sid) == CampaignForRun(db, tenant, run, sid)
    ensures CampaignForRun(db, tenant, run, sid) != Some(r.campaign)
  {
    var clean := Clean(db, r);
    var keep := (c: Campaign) => CampaignMatches(db, tenant, run, sid, c);
    if sid.Some? {
      AwaitingRunsUnchanged(db, tenant, r, sid.value);
    }
    forall c | c in db.campaigns && c.id == r.campaign ensures !keep(c) {}
    FilterThrough((c: Campaign) => c.id != r.campaign, keep, db.campaigns);
    FilterAgrees(keep, (c: Campaign) => CampaignMatches(clean, tenant, run, sid, c), clean.campaigns);
  }

  lemma DecisionUnchanged(db: Db, tenant: string, r: Residue, campaign: string)
    requires Aged(db, tenant, r)
    ensures DecisionFor(Clean(db, r), tenant, campaign) == DecisionFor(db, tenant, campaign)
  {
    var keep := (a: Approval) => a.tenant == tenant && a.campaignId == Some(campaign);
    FilterThrough((a: Approval) => a.id != r.approval, keep, db.approvals);
  }

  lemma SentUnchanged(db: Db, tenant: string, r: Residue, campaign: Option<string>)
    ensures SentInScope(Clean(db, r), tenant, campaign) == SentInScope(db, tenant, campaign)
    ensures Sent(Clean(db, r), tenant) == Sent(db, tenant)
  {
    var clean := Clean(db, r);
    FilterAgrees((m: Message) => m.tenant == tenant && IsSent(m) &&
                   (match campaign case Some(c) => KeyedTo(m, c) case None => SinceTenant(db, tenant, m.createdAt)),
                 (m: Message) => m.tenant == tenant && IsSent(m) &&
                   (match campaign case Some(c) => KeyedTo(m, c) case None => SinceTenant(clean, tenant, m.createdAt)),
                 db.messages);
  }

  lemma CohortUnchanged(db: Db, tenant: string, r: Residue, campaign: string)
    requires campaign != r.campaign
    ensures CohortOf(Clean(db, r), tenant, campaign) == CohortOf(db, tenant, campaign)
  {
    FilterThrough((c: Campaign) => c.id != r.campaign, (c: Campaign) => c.tenant == tenant && c.id == campaign,
                  db.campaigns);
  }

  lemma RouteUnchanged(db: Db, tenant: string, r: Residue, run: string, spec: Option<RouteSpec>, sid: Option<string>)
    requires Aged(db, tenant, r) && !r.OwnsRun(run)
    ensures RouteFailures(Clean(db, r), tenant, run, spec, sid) == RouteFailures(db, tenant, run, spec, sid)
  {
    if spec.Some? {
      CampaignLookupUnchanged(db, tenant, r, Scope(run, spec.value.tenantWide), sid);
    }
  }

  lemma EffectsSameIn(db: Db, clean: Db, tenant: string, run: string, s: EffectsSpec, sid: Option<string>)
    requires var scope := Scope(run, s.tenantWide == Some(true));
             var campaign := CampaignForRun(db, tenant, scope, sid);
             && CampaignForRun(clean, tenant, scope, sid) == campaign
             && SentInScope(clean, tenant, campaign) == SentInScope(db, tenant, campaign)
             && (campaign.Some? ==>
                   DecisionFor(clean, tenant, campaign.value) == DecisionFor(db, tenant, campaign.value))
    ensures EffectFailures(clean, tenant, run, Some(s), sid) == EffectFailures(db, tenant, run, Some(s), sid)
  {
  }

  lemma EffectsUnchanged(
      db: Db, tenant: string, r: Residue, run: string, spec: Option<EffectsSpec>, sid: Option<string>)
    requires Aged(db, tenant, r) && !r.OwnsRun(run)
    ensures EffectFailures(Clean(db, r), tenant, run, spec, sid) == EffectFailures(db, tenant, run, spec, sid)
  {
    if spec.Some? {
      var scope := Scope(run, spec.value.tenantWide == Some(true));
      CampaignLookupUnchanged(db, tenant, r, scope, sid);
      var campaign := CampaignForRun(db, tenant, scope, sid);
      SentUnchanged(db, tenant, r, campaign);
      if campaign.Some? {
        DecisionUnchanged(db, tenant, r, campaign.value);
      }
      EffectsSameIn(db, Clean(db, r), tenant, run, spec.value, sid);
    }
  }

  lemma GroundedUnchanged(
      db: Db, tenant: string, r: Residue, run: string, spec: Option<GroundedSpec>, sid: Option<string>)
    requires Aged(db, tenant, r) && !r.OwnsRun(run)
    ensures GroundedFailures(Clean(db, r), tenant, run, spec, sid) == GroundedFailures(db, tenant, run, spec, sid)
  {
    if spec.Some? {
      var scope := Scope(run, spec.value.tenantWide);
      CampaignLookupUnchanged(db, tenant, r, scope, sid);
      var campaign := CampaignForRun(db, tenant, scope, sid);
      if campaign.Some? {
        CohortUnchanged(db, tenant, r, campaign.value);
      }
    }
  }

  lemma ApprovedUnchanged(db: Db, tenant: string, r: Residue, m: Message)
    requires Aged(db, tenant, r)
    ensures Approved(Clean(db, r), tenant, m) == Approved(db, tenant, m)
  {
    var clean := Clean(db, r);
    if Approved(db, tenant, m) {
      var i :| 0 <= i < |db.approvals| && db.approvals[i].tenant == tenant
        && db.approvals[i].decision == Some("approved")
               && db.approvals[i].campaignId.Some? && KeyedTo(m, db.approvals[i].campaignId.value);
      assert db.approvals[i] in clean.approvals;
      var j :| 0 <= j < |clean.approvals| && clean.approvals[j] == db.approvals[i];
    }
    if Approved(clean, tenant, m) {
      var j :| 0 <= j < |clean.approvals| && clean.approvals[j].tenant == tenant
        && clean.approvals[j].decision == Some("approved")
               && clean.approvals[j].campaignId.Some? && KeyedTo(m, clean.approvals[j].campaignId.value);
      assert clean.approvals[j] in db.approvals;
      var i :| 0 <= i < |db.approvals| && db.approvals[i] == clean.approvals[j];
    }
  }

  lemma UnapprovedUnchanged(db: Db, tenant: string, r: Residue)
    requires Aged(db, tenant, r)
    ensures AssertNoUnapproved(Clean(db, r), tenant) == AssertNoUnapproved(db, tenant)
  {
    var clean := Clean(db, r);
    SentUnchanged(db, tenant, r, None);
    forall m ensures Approved(clean, tenant, m) == Approved(db, tenant, m) {
      ApprovedUnchanged(db, tenant, r, m);
    }
    FilterAgrees((m: Message) => !Approved(db, tenant, m), (m: Message) => !Approved(clean, tenant, m),
                 Sent(db, tenant));
  }

  lemma NetsUnchanged(db: Db, tenant: string, r: Residue, stated: string -> Option<int>, replies: seq<string>)
    requires Aged(db, tenant, r)
    ensures NetFailures(Clean(db, r), tenant, stated, replies) == NetFailures(db, tenant, stated, replies)
  {
    UnapprovedUnchanged(db, tenant, r);
    SentUnchanged(db, tenant, r, None);
  }

  lemma ProbesUnchanged(db: Db, tenant: string, r: Residue, sid: string)
    requires Aged(db, tenant, r)
    ensures TurnHasTask(Clean(db, r), tenant, sid) == TurnHasTask(db, tenant, sid)
    ensures TurnProducing(Clean(db, r), tenant, sid) == TurnProducing(db, tenant, sid)
    ensures TenantProducing(Clean(db, r), tenant) == TenantProducing(db, tenant)
  {
    var clean := Clean(db, r);
    forall t | t in db.tasks && (t.sourceRef.Some? || Producing(t.status)) ensures t in clean.tasks {}
    forall t | t in clean.tasks ensures t in db.tasks {}
  }

  /** In any database, at any later time and whatever else has happened, removing aged residue
      changes no conversation read, no campaign lookup, no database assert, no money check and no
      in-flight probe. */
  lemma ResidueIsInvisible(
      db: Db, tenant: string, r: Residue, seen: set<string>, run: string, asserts: DbAsserts, sid: string,
      stated: string -> Option<int>, replies: seq<string>)
    requires Aged(db, tenant, r) && !r.OwnsRun(run)
    ensures NewTurns(Clean(db, r), tenant, seen) == NewTurns(db, tenant, seen)
    ensures CampaignForRun(Clean(db, r), tenant, None, None) == CampaignForRun(db, tenant, None, None)
    ensures CampaignForRun(Clean(db, r), tenant, Some(run), Some(sid))
            == CampaignForRun(db, tenant, Some(run), Some(sid))
    ensures EvaluateDbAsserts(Clean(db, r), tenant, Some(run), asserts, Some(sid))
         == EvaluateDbAsserts(db, tenant, Some(run), asserts, Some(sid))
    ensures NetFailures(Clean(db, r), tenant, stated, replies) == NetFailures(db, tenant, stated, replies)
    ensures TurnHasTask(Clean(db, r), tenant, sid) == TurnHasTask(db, tenant, sid)
    ensures TurnProducing(Clean(db, r), tenant, sid) == TurnProducing(db, tenant, sid)
    ensures TenantProducing(Clean(db, r), tenant) == TenantProducing(db, tenant)
  {
    ConversationUnchanged(db, tenant, r, seen);
    CampaignLookupUnchanged(db, tenant, r, None, None);
    CampaignLookupUnchanged(db, tenant, r, Some(run), Some(sid));
    RouteUnchanged(db, tenant, r, run, asserts.route, Some(sid));
    EffectsUnchanged(db, tenant, r, run, asserts.effects, Some(sid));
    GroundedUnchanged(db, tenant, r, run, asserts.grounded, Some(sid));
    NetsUnchanged(db, tenant, r, stated, replies);
    ProbesUnchanged(db, tenant, r, sid);
  }

  // ---------------------------------------------------------------- seeding

  const AGES := [21, 21, 14, 14, 14, 14, 5, 5, 3, 2]
  const ROLES := ["owner", "assistant", "owner", "assistant", "owner", "assistant", "owner", "assistant",
                 "assistant", "owner"]

  /** A seeding: the instant it happens, the fresh ids, and the ten turns' texts and inbound ids. */
  datatype Seeding = Seeding(now: int, ids: Residue, texts: seq<string>, sids: seq<Option<string>>) {
    predicate Valid() {
      |ids.history| == |texts| == |sids| == |AGES| == |ROLES|
    }
  }

  function HistoryRow(tenant: string, s: Seeding, i: nat): LogRow
    requires s.Valid() && i < |AGES|
  {
    LogRow(tenant, s.ids.history[i], ROLES[i], s.texts[i], s.sids[i], s.now - AGES[i] * DAY)
  }

  function History(tenant: string, s: Seeding, n: nat): (rows: seq<LogRow>)
    requires s.Valid() && n <= |AGES|
    ensures |rows| == n && forall i :: 0 <= i < n ==> rows[i] == HistoryRow(tenant, s, i)
  {
    if n == 0 then [] else History(tenant, s, n - 1) + [HistoryRow(tenant, s, n - 1)]
  }

  function SeededCampaign(tenant: string, s: Seeding): Campaign {
    Campaign(tenant, s.ids.campaign, s.ids.agedRun, s.now - 14 * DAY, Some(6))
  }

  function Seeded(db: Db, tenant: string, s: Seeding): Db
    requires s.Valid()
  {
    db.(runs := db.runs[s.ids.agedRun := "completed"][s.ids.escalatedRun := "escalated"],
        campaigns := db.campaigns + [SeededCampaign(tenant, s)],
        approvals := db.approvals + [Approval(s.ids.approval, tenant, None, None, s.now - 3 * DAY)],
        tasks := db.tasks + [Task(s.ids.task, tenant, None, "dead_letter", None)],
        log := db.log + History(tenant, s, |AGES|))
  }

  /** The database as an object whose tables the seeding appends to. */
  class Database {
    var tenants: map<string, int>
    var runs: map<string, string>
    var campaigns: seq<Campaign>
    var approvals: seq<Approval>
    var messages: seq<Message>
    var tasks: seq<Task>
    var log: seq<LogRow>
    const up: bool

    constructor (db: Db)
      ensures Snapshot() == db
    {
      tenants, runs, campaigns := db.tenants, db.runs, db.campaigns;
      approvals, messages, tasks, log := db.approvals, db.messages, db.tasks, db.log;
      up := db.up;
    }

    function Snapshot(): Db
      reads this
    {
      Db(tenants, runs, campaigns, approvals, messages, tasks, log, up)
    }

    /** `_seed_dirty_state`, insert by insert. */
    method SeedDirtyState(tenant: string, s: Seeding)
      requires s.Valid()
      modifies this
      ensures Snapshot() == Seeded(old(Snapshot()), tenant, s)
    {
      runs := runs[s.ids.agedRun := "completed"];
      campaigns := campaigns + [Campaign(tenant, s.ids.campaign, s.ids.agedRun, s.now - 14 * DAY, Some(6))];
      runs := runs[s.ids.escalatedRun := "escalated"];
      approvals := approvals + [Approval(s.ids.approval, tenant, None, None, s.now - 3 * DAY)];
      tasks := tasks + [Task(s.ids.task, tenant, None, "dead_letter", None)];
      for i := 0 to |AGES|
        invariant log == old(log) + History(tenant, s, i)
        invariant tenants == old(tenants) && messages == old(messages)
        invariant runs == old(runs)[s.ids.agedRun := "completed"][s.ids.escalatedRun := "escalated"]
        invariant campaigns == old(campaigns) + [SeededCampaign(tenant, s)]
        invariant approvals == old(approvals) + [Approval(s.ids.approval, tenant, None, None, s.now - 3 * DAY)]
        invariant tasks == old(tasks) + [Task(s.ids.task, tenant, None, "dead_letter", None)]
      {
        log := log + [HistoryRow(tenant, s, i)];
      }
    }
  }

  /** What a seeded tenant carries besides what it had: a completed and an escalated run, a two weeks old
      campaign for six customers on the first, an approval that nobody has decided and no campaign claims,
      a task given up for good that no message asked for, and ten turns between three weeks and two days
      old, the oldest and the youngest of them the owner's. */
  lemma SeedingLeavesResidue(db: Db, tenant: string, s: Seeding)
    requires s.Valid()
    ensures
      var dirty := Seeded(db, tenant, s);
      && dirty.tenants == db.tenants && dirty.messages == db.messages && dirty.up == db.up
      && dirty.runs == db.runs[s.ids.agedRun := "completed"][s.ids.escalatedRun := "escalated"]
      && (exists c :: dirty.campaigns == db.campaigns + [c] && c.tenant == tenant && c.id == s.ids.campaign
                      && c.runId == s.ids.agedRun && c.cohortSize == Some(6) && s.now - c.createdAt == 1_209_600_000)
      && (exists a :: dirty.approvals == db.approvals + [a] && a.tenant == tenant && a.id == s.ids.approval
                      && a.decision.None? && a.campaignId.None? && s.now - a.requestedAt == 259_200_000)
      && (exists t :: dirty.tasks == db.tasks + [t] && t.tenant == tenant && t.id == s.ids.task
                      && t.status == "dead_letter" && t.sourceRef.None? && t.awaitingRunId.None?)
      && (exists rows :: dirty.log == db.log + rows && |rows| == 10 && SeededTurns(tenant, s, rows))
  {
    var dirty := Seeded(db, tenant, s);
    var c := SeededCampaign(tenant, s);
    assert dirty.campaigns == db.campaigns + [c] && s.now - c.createdAt == 1_209_600_000;
    var a := Approval(s.ids.approval, tenant, None, None, s.now - 3 * DAY);
    assert dirty.approvals == db.approvals + [a] && s.now - a.requestedAt == 259_200_000;
    assert dirty.tasks == db.tasks + [Task(s.ids.task, tenant, None, "dead_letter", None)];
    HistoryIsTurns(tenant, s);
    assert dirty.log == db.log + History(tenant, s, |AGES|);
  }

  lemma HistoryIsTurns(tenant: string, s: Seeding)
    requires s.Valid()
    ensures SeededTurns(tenant, s, History(tenant, s, |AGES|))
  {
    var rows := History(tenant, s, |AGES|);
    forall i | 0 <= i < 10
      ensures rows[i] == LogRow(tenant, s.ids.history[i], ROLES[i], s.texts[i], s.sids[i], s.now - AGES[i] * DAY)
    {
      assert rows[i] == HistoryRow(tenant, s, i);
    }
    RolesAlternate();
  }

  lemma RolesAlternate()
    ensures |ROLES| == 10 && ROLES[8] == "assistant" && ROLES[9] == "owner"
    ensures forall i :: 0 <= i < 8 ==> ROLES[i] == if i % 2 == 0 then "owner" else "assistant"
  {
  }

  /** Oldest first: the first exchange, four turns from the instant of the campaign, one about a sheet, the
      offer from the instant of the approval that nobody answered, and a last question. */
  ghost predicate SeededTurns(tenant: string, s: Seeding, rows: seq<LogRow>)
    requires s.Valid()
  {
    && |rows| == 10
    && (forall i :: 0 <= i < 10 ==>
          && rows[i].tenant == tenant && rows[i].id == s.ids.history[i]
          && rows[i].text == s.texts[i] && rows[i].sid == s.sids[i])
    && rows[0].createdAt == rows[1].createdAt == s.now - 1_814_400_000
    && (forall i :: 2 <= i < 6 ==> rows[i].createdAt == s.now - 1_209_600_000)
    && rows[6].createdAt == rows[7].createdAt == s.now - 432_000_000
    && rows[8].createdAt == s.now - 259_200_000 && rows[9].createdAt == s.now - 172_800_000
    && (forall i :: 0 <= i < 8 ==> rows[i].role == if i % 2 == 0 then "owner" else "assistant")
    && rows[8].role == "assistant" && rows[9].role == "owner"
  }

  ghost predicate FreshIds(db: Db, r: Residue) {
    && !(r.agedRun in db.runs) && !(r.escalatedRun in db.runs)
    && (forall c :: c in db.campaigns ==> c.id != r.campaign)
    && (forall a :: a in db.approvals ==> a.id != r.approval)
    && (forall t :: t in db.tasks ==> t.id != r.task && (t.awaitingRunId.Some? ==> !r.OwnsRun(t.awaitingRunId.value)))
    && (forall l :: l in db.log ==> l.id !in r.history)
  }

  lemma {:induction false} FilterDropsAll<T(!new)>(keep: T -> bool, rows: seq<T>)
    requires forall x :: x in rows ==> !keep(x)
    ensures Filter(keep, rows) == []
  {
    if rows != [] {
      FilterDropsAll(keep, rows[..|rows| - 1]);
    }
  }

  lemma FilterUndoesAppend<T(!new)>(keep: T -> bool, old_: seq<T>, added: seq<T>)
    requires (forall x :: x in old_ ==> keep(x)) && (forall x :: x in added ==> !keep(x))
    ensures Filter(keep, old_ + added) == old_
  {
    FilterAppend(keep, old_, added);
    FilterKeepsAll(keep, old_);
    FilterDropsAll(keep, added);
  }

  lemma CampaignsRestored(db: Db, tenant: string, s: Seeding)
    requires s.Valid() && FreshIds(db, s.ids)
    ensures Clean(Seeded(db, tenant, s), s.ids).campaigns == db.campaigns
  {
    FilterUndoesAppend((c: Campaign) => c.id != s.ids.campaign, db.campaigns, [SeededCampaign(tenant, s)]);
  }

  lemma ApprovalsRestored(db: Db, tenant: string, s: Seeding)
    requires s.Valid() && FreshIds(db, s.ids)
    ensures Clean(Seeded(db, tenant, s), s.ids).approvals == db.approvals
  {
    FilterUndoesAppend((a: Approval) => a.id != s.ids.approval, db.approvals,
                       [Approval(s.ids.approval, tenant, None, None, s.now - 3 * DAY)]);
  }

  lemma TasksRestored(db: Db, tenant: string, s: Seeding)
    requires s.Valid() && FreshIds(db, s.ids)
    ensures Clean(Seeded(db, tenant, s), s.ids).tasks == db.tasks
  {
    FilterUndoesAppend((t: Task) => t.id != s.ids.task, db.tasks,
                       [Task(s.ids.task, tenant, None, "dead_letter", None)]);
  }

  lemma LogRestored(db: Db, tenant: string, s: Seeding)
    requires s.Valid() && FreshIds(db, s.ids)
    ensures Clean(Seeded(db, tenant, s), s.ids).log == db.log
  {
    FilterUndoesAppend((l: LogRow) => l.id !in s.ids.history, db.log, History(tenant, s, |AGES|));
  }

  /** What was seeded is exactly what cleaning takes away. */
  lemma CleanUndoesSeeding(db: Db, tenant: string, s: Seeding)
    requires s.Valid() && FreshIds(db, s.ids)
    ensures Clean(Seeded(db, tenant, s), s.ids) == db
  {
    CampaignsRestored(db, tenant, s);
    ApprovalsRestored(db, tenant, s);
    TasksRestored(db, tenant, s);
    LogRestored(db, tenant, s);
    RunsRestored(db.runs, s.ids);
  }

  lemma RunsRestored(runs: map<string, string>, r: Residue)
    requires !(r.agedRun in runs) && !(r.escalatedRun in runs)
    ensures
      var dirty := runs[r.agedRun := "completed"][r.escalatedRun := "escalated"];
      (map run | run in dirty && !r.OwnsRun(run) :: dirty[run]) == runs
  {
  }

  lemma SeededIsAged(db: Db, tenant: string, s: Seeding)
    requires s.Valid() && FreshIds(db, s.ids) && tenant in db.tenants && s.now - 2 * DAY < db.tenants[tenant]
    ensures Aged(Seeded(db, tenant, s), tenant, s.ids)
  {
    var dirty := Seeded(db, tenant, s);
    forall l | l in dirty.log && l.id in s.ids.history ensures l.createdAt < db.tenants[tenant] {
      if l in History(tenant, s, |AGES|) {
        var i :| 0 <= i < |AGES| && History(tenant, s, |AGES|)[i] == l;
        assert AGES[i] >= 2;
      }
    }
  }

  /** The fence works exactly for tenants less than two days old at the moment of seeding: on an
      older tenant the youngest residue turn is read as part of the conversation. */
  lemma InvisibleExactlyOnYoungTenants(db: Db, tenant: string, s: Seeding)
    requires s.Valid() && FreshIds(db, s.ids) && tenant in db.tenants
    ensures NewTurns(Seeded(db, tenant, s), tenant, {}) == NewTurns(db, tenant, {}) <==>
            s.now - 2 * DAY < db.tenants[tenant]
  {
    var dirty := Seeded(db, tenant, s);
    if s.now - 2 * DAY < db.tenants[tenant] {
      SeededIsAged(db, tenant, s);
      CleanUndoesSeeding(db, tenant, s);
      ConversationUnchanged(dirty, tenant, s.ids, {});
    } else {
      var row := HistoryRow(tenant, s, 9);
      assert row == History(tenant, s, |AGES|)[9];
      assert row in dirty.log && row !in db.log;
      OrderedMembers(Filter((r: LogRow) => r.tenant == tenant && SinceTenant(dirty, tenant, r.createdAt), dirty.log));
      OrderedMembers(Filter((r: LogRow) => r.tenant == tenant && SinceTenant(db, tenant, r.createdAt), db.log));
      assert row in NewTurns(dirty, tenant, {});
      assert row !in NewTurns(db, tenant, {});
    }
  }
}
