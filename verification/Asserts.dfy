/** The database asserts in terms of the rows: which rows each of them is about, when it passes, and what
    it reports when it does not. */
module Asserts {
  import opened Common
  import opened Store
  import opened Money

  // ---------------------------------------------------------------- the campaign an assert is about

  /** A campaign of the tenant since its creation; or one of this run, or of a run that a task of the
      turn's own message is waiting on. */
  predicate Attributable(db: Db, tenant: string, run: string, sid: Option<string>, tenantWide: bool, c: Campaign) {
    c.tenant == tenant &&
    if tenantWide then tenant in db.tenants && db.tenants[tenant] <= c.createdAt
    else
      || c.runId == run
      || (sid.Some? && exists t :: t in db.tasks && t.tenant == tenant && t.sourceRef == sid
                         && t.awaitingRunId == Some(c.runId))
  }

  /** Row `k` is the first of the newest attributable campaigns. */
  predicate Subject(db: Db, tenant: string, run: string, sid: Option<string>, tenantWide: bool, k: nat) {
    && k < |db.campaigns| && Attributable(db, tenant, run, sid, tenantWide, db.campaigns[k])
    && forall j :: 0 <= j < |db.campaigns| && Attributable(db, tenant, run, sid, tenantWide, db.campaigns[j]) ==>
         || db.campaigns[j].createdAt < db.campaigns[k].createdAt
         || (db.campaigns[j].createdAt == db.campaigns[k].createdAt && k <= j)
  }

  /** The campaign that an assert of this scope is about, if there is one. */
  ghost predicate IsAbout(
      db: Db, tenant: string, run: string, sid: Option<string>, tenantWide: bool, campaign: Option<string>)
  {
    match campaign
    case None => forall c :: c in db.campaigns ==> !Attributable(db, tenant, run, sid, tenantWide, c)
    case Some(id) => exists k: nat :: Subject(db, tenant, run, sid, tenantWide, k) && db.campaigns[k].id == id
  }

  /** Row `k` is the first of those kept that come last. */
  ghost predicate FirstBest<T(!new)>(at: T -> int, keep: T -> bool, rows: seq<T>, k: nat) {
    && k < |rows| && keep(rows[k])
    && forall j :: 0 <= j < |rows| && keep(rows[j]) ==>
         at(rows[j]) < at(rows[k]) || (at(rows[j]) == at(rows[k]) && k <= j)
  }

  lemma LatestSnoc<T(!new)>(at: T -> int, rows: seq<T>, x: T)
    ensures Latest(at, rows + [x]) ==
            match Latest(at, rows)
            case None => Some(x)
            case Some(best) => if at(best) < at(x) then Some(x) else Some(best)
  {
    assert (rows + [x])[..|rows|] == rows;
  }

  lemma NoneKept<T(!new)>(keep: T -> bool, rows: seq<T>)
    requires Filter(keep, rows) == []
    ensures forall j :: 0 <= j < |rows| ==> !keep(rows[j])
  {
    forall j | 0 <= j < |rows| ensures !keep(rows[j]) {
      assert rows[j] in rows && rows[j] !in Filter(keep, rows);
    }
  }

  lemma BestOfMore<T(!new)>(
      at: T -> int, keep: T -> bool, front: seq<T>, last: T, kept: seq<T>, best: nat) returns (k: nat)
    requires FirstBest(at, keep, front, best) && Latest(at, kept) == Some(front[best])
    ensures FirstBest(at, keep, front + [last], k)
    ensures Latest(at, if keep(last) then kept + [last] else kept) == Some((front + [last])[k])
  {
    LatestSnoc(at, kept, last);
    k := if keep(last) && at(front[best]) < at(last) then |front| else best;
  }

  lemma BestOfOne<T(!new)>(at: T -> int, keep: T -> bool, front: seq<T>, last: T) returns (k: nat)
    requires keep(last) && forall j :: 0 <= j < |front| ==> !keep(front[j])
    ensures FirstBest(at, keep, front + [last], k) && Latest(at, [last]) == Some((front + [last])[k])
  {
    assert [last][..0] == [];
    k := |front|;
  }

  lemma {:induction false} FirstLatest<T(!new)>(at: T -> int, keep: T -> bool, rows: seq<T>) returns (k: nat)
    requires Filter(keep, rows) != []
    ensures FirstBest(at, keep, rows, k) && Latest(at, Filter(keep, rows)) == Some(rows[k])
  {
    var front, last := rows[..|rows| - 1], rows[|rows| - 1];
    var kept := Filter(keep, front);
    assert rows == front + [last];
    FilterSnoc(keep, front, last);
    if kept == [] {
      NoneKept(keep, front);
      assert Filter(keep, rows) == [last];
      k := BestOfOne(at, keep, front, last);
    } else {
      var best := FirstLatest(at, keep, front);
      assert Filter(keep, rows) == if keep(last) then kept + [last] else kept;
      k := BestOfMore(at, keep, front, last, kept, best);
    }
  }

  lemma MatchesExactly(db: Db, tenant: string, run: string, sid: Option<string>, tenantWide: bool, c: Campaign)
    ensures CampaignMatches(db, tenant, Scope(run, tenantWide), sid, c)
       <==> Attributable(db, tenant, run, sid, tenantWide, c)
  {
    if sid.Some? && c.runId in AwaitingRuns(db, tenant, sid.value) {
      var i :| 0 <= i < |db.tasks| && db.tasks[i].tenant == tenant && db.tasks[i].sourceRef == sid
        && db.tasks[i].awaitingRunId == Some(c.runId);
      assert db.tasks[i] in db.tasks;
    }
    if t :| t in db.tasks && t.tenant == tenant && t.sourceRef == sid && t.awaitingRunId == Some(c.runId) {
      var i :| 0 <= i < |db.tasks| && db.tasks[i] == t;
    }
  }

  /** The lookup finds the campaign that an assert of its scope is about, and nothing if there is none. */
  lemma LookupIsAbout(db: Db, tenant: string, run: string, sid: Option<string>, tenantWide: bool)
    ensures IsAbout(db, tenant, run, sid, tenantWide, CampaignForRun(db, tenant, Scope(run, tenantWide), sid))
  {
    var scope := Scope(run, tenantWide);
    var keep := (c: Campaign) => CampaignMatches(db, tenant, scope, sid, c);
    forall c ensures keep(c) <==> Attributable(db, tenant, run, sid, tenantWide, c) {
      MatchesExactly(db, tenant, run, sid, tenantWide, c);
    }
    if Filter(keep, db.campaigns) != [] {
      var k := FirstLatest((c: Campaign) => c.createdAt, keep, db.campaigns);
      assert Subject(db, tenant, run, sid, tenantWide, k);
    }
  }

  lemma OneSubject(
      db: Db, tenant: string, run: string, sid: Option<string>, tenantWide: bool, a: Option<string>, b: Option<string>)
    requires IsAbout(db, tenant, run, sid, tenantWide, a) && IsAbout(db, tenant, run, sid, tenantWide, b)
    ensures a == b
  {
    if a.Some? {
      var k: nat :| Subject(db, tenant, run, sid, tenantWide, k) && db.campaigns[k].id == a.value;
      assert db.campaigns[k] in db.campaigns;
    }
    if b.Some? {
      var k: nat :| Subject(db, tenant, run, sid, tenantWide, k) && db.campaigns[k].id == b.value;
      assert db.campaigns[k] in db.campaigns;
    }
  }

  lemma AboutExactly(
      db: Db, tenant: string, run: string, sid: Option<string>, tenantWide: bool, campaign: Option<string>)
    ensures IsAbout(db, tenant, run, sid, tenantWide, campaign)
       <==> campaign == CampaignForRun(db, tenant, Scope(run, tenantWide), sid)
  {
    LookupIsAbout(db, tenant, run, sid, tenantWide);
    if IsAbout(db, tenant, run, sid, tenantWide, campaign) {
      OneSubject(db, tenant, run, sid, tenantWide, campaign, CampaignForRun(db, tenant, Scope(run, tenantWide), sid));
    }
  }

  // ---------------------------------------------------------------- what is counted and read

  /** A message really sent. */
  predicate WentOut(tenant: string, m: Message) {
    m.tenant == tenant && (m.status == "sent" || m.status == "template_sent")
  }

  /** One of the sent messages of a campaign, told by their keys; without one, of those since the
      tenant's creation. */
  predicate Counted(db: Db, tenant: string, campaign: Option<string>, m: Message) {
    WentOut(tenant, m) &&
    match campaign
    case Some(c) => m.key.Some? && c + ":" <= m.key.value
    case None => tenant in db.tenants && db.tenants[tenant] <= m.createdAt
  }

  ghost function SentRows(db: Db, tenant: string, campaign: Option<string>): set<int> {
    set i | 0 <= i < |db.messages| && Counted(db, tenant, campaign, db.messages[i])
  }

  ghost function Kept<T(!new)>(keep: T -> bool, rows: seq<T>): set<int> {
    set i | 0 <= i < |rows| && keep(rows[i])
  }

  lemma {:induction false} CountsKept<T(!new)>(keep: T -> bool, rows: seq<T>)
    ensures |Filter(keep, rows)| == |Kept(keep, rows)|
  {
    if rows != [] {
      var front, last := rows[..|rows| - 1], rows[|rows| - 1];
      CountsKept(keep, front);
      assert Kept(keep, rows) == Kept(keep, front) + (if keep(last) then {|front|} else {});
    }
  }

  lemma SentCounted(db: Db, tenant: string, campaign: Option<string>)
    ensures SentInScope(db, tenant, campaign) == |SentRows(db, tenant, campaign)|
  {
    var keep := (m: Message) => Counted(db, tenant, campaign, m);
    CountsKept(keep, db.messages);
    assert SentRows(db, tenant, campaign) == Kept(keep, db.messages);
    FilterAgrees(keep, (m: Message) => m.tenant == tenant && IsSent(m) &&
                   (match campaign case Some(c) => KeyedTo(m, c) case None => SinceTenant(db, tenant, m.createdAt)),
                 db.messages);
  }

  ghost predicate ApprovalOf(db: Db, tenant: string, campaign: string, a: nat) {
    a < |db.approvals| && db.approvals[a].tenant == tenant && db.approvals[a].campaignId == Some(campaign)
  }

  /** Row `a` is the first of the newest approvals of the campaign. */
  ghost predicate NewestOf(db: Db, tenant: string, campaign: string, a: nat) {
    && ApprovalOf(db, tenant, campaign, a)
    && forall b: nat :: ApprovalOf(db, tenant, campaign, b) ==>
         || db.approvals[b].requestedAt < db.approvals[a].requestedAt
         || (db.approvals[b].requestedAt == db.approvals[a].requestedAt && a <= b)
  }

  /** The newest approval has the decision, where "pending" is that of none yet, and of no approval at all. */
  ghost predicate DecidedAs(db: Db, tenant: string, campaign: string, decision: string) {
    if exists a: nat :: ApprovalOf(db, tenant, campaign, a) then
      exists a: nat :: NewestOf(db, tenant, campaign, a)
        && db.approvals[a].decision == if decision == "pending" then None else Some(decision)
    else decision == "pending"
  }

  lemma NewestIsBest(db: Db, tenant: string, campaign: string, k: nat)
    requires
      var keep := (a: Approval) => a.tenant == tenant && a.campaignId == Some(campaign);
      FirstBest((a: Approval) => a.requestedAt, keep, db.approvals, k)
    ensures NewestOf(db, tenant, campaign, k)
  {
  }

  lemma DecisionRead(db: Db, tenant: string, campaign: string) returns (a: Option<nat>)
    ensures a.None? ==>
              DecisionFor(db, tenant, campaign).None? && forall b: nat :: !ApprovalOf(db, tenant, campaign, b)
    ensures a.Some? ==>
              NewestOf(db, tenant, campaign, a.value)
              && DecisionFor(db, tenant, campaign) == db.approvals[a.value].decision
  {
    var keep := (a: Approval) => a.tenant == tenant && a.campaignId == Some(campaign);
    if Filter(keep, db.approvals) == [] {
      NoneKept(keep, db.approvals);
      a := None;
    } else {
      var k := FirstLatest((a: Approval) => a.requestedAt, keep, db.approvals);
      NewestIsBest(db, tenant, campaign, k);
      a := Some(k);
    }
  }

  lemma DecisionExactly(db: Db, tenant: string, campaign: string, decision: string)
    ensures DecisionFor(db, tenant, campaign) == Wanted(decision) <==> DecidedAs(db, tenant, campaign, decision)
  {
    var a := DecisionRead(db, tenant, campaign);
    assert a.Some? ==> ApprovalOf(db, tenant, campaign, a.value);
  }

  /** The cohort that the campaign of this id was planned for. */
  ghost predicate Planned(db: Db, tenant: string, campaign: string, size: int) {
    exists k :: 0 <= k < |db.campaigns| && RowOfId(db, tenant, campaign, k)
                && db.campaigns[k].cohortSize == Some(size)
  }

  predicate RowOfId(db: Db, tenant: string, campaign: string, k: nat)
    requires k < |db.campaigns|
  {
    && db.campaigns[k].tenant == tenant && db.campaigns[k].id == campaign
    && forall j :: 0 <= j < k ==> !(db.campaigns[j].tenant == tenant && db.campaigns[j].id == campaign)
  }

  lemma FirstKept<T(!new)>(keep: T -> bool, rows: seq<T>) returns (k: nat)
    requires Filter(keep, rows) != []
    ensures FirstBest((x: T) => 0, keep, rows, k) && Filter(keep, rows)[0] == rows[k]
  {
    k := FirstLatest((x: T) => 0, keep, rows);
    FirstIsLatest(Filter(keep, rows));
  }

  lemma {:induction false} FirstIsLatest<T(!new)>(rows: seq<T>)
    requires rows != []
    ensures Latest((x: T) => 0, rows) == Some(rows[0])
  {
    var front := rows[..|rows| - 1];
    assert rows == front + [rows[|rows| - 1]];
    LatestSnoc((x: T) => 0, front, rows[|rows| - 1]);
    if front != [] {
      FirstIsLatest(front);
    }
  }

  lemma CohortExactly(db: Db, tenant: string, campaign: string, size: int)
    ensures CohortOf(db, tenant, campaign) == Some(size) <==> Planned(db, tenant, campaign, size)
  {
    var keep := (c: Campaign) => c.tenant == tenant && c.id == campaign;
    if Filter(keep, db.campaigns) == [] {
      NoneKept(keep, db.campaigns);
    } else {
      var k := FirstKept(keep, db.campaigns);
      assert RowOfId(db, tenant, campaign, k);
    }
  }

  // ---------------------------------------------------------------- what is reported

  /** Each of the three checks reports its own kind of failure. */
  lemma PartsReported(db: Db, tenant: string, run: string, asserts: DbAsserts, sid: Option<string>, f: Failure)
    ensures f in EvaluateDbAsserts(db, tenant, Some(run), asserts, sid) <==>
            || (f.Route? && f in RouteFailures(db, tenant, run, asserts.route, sid))
            || (f.SideEffect? && f in EffectFailures(db, tenant, run, asserts.effects, sid))
            || (f.Grounded? && f in GroundedFailures(db, tenant, run, asserts.grounded, sid))
  {
    assert forall g :: g in RouteFailures(db, tenant, run, asserts.route, sid) ==> g.Route?;
    assert forall g :: g in GroundedFailures(db, tenant, run, asserts.grounded, sid) ==> g.Grounded?;
    EffectsAreEffects(db, tenant, run, asserts.effects, sid);
  }

  lemma RouteIsAsked(db: Db, tenant: string, run: string, sid: Option<string>, s: RouteSpec)
    ensures AssertRoute(db, tenant, Scope(run, s.tenantWide), sid, s.expectDelegation) == [] <==>
            RouteMet(db, tenant, run, sid, s)
  {
    RouteExactly(db, tenant, Scope(run, s.tenantWide), sid, s.expectDelegation);
    forall c ensures CampaignMatches(db, tenant, Scope(run, s.tenantWide), sid, c)
                <==> Attributable(db, tenant, run, sid, s.tenantWide, c)
    {
      MatchesExactly(db, tenant, run, sid, s.tenantWide, c);
    }
  }

  /** An expectation about the route is met if a campaign is attributable just when one was expected. */
  ghost predicate RouteMet(db: Db, tenant: string, run: string, sid: Option<string>, s: RouteSpec) {
    s.expectDelegation <==> exists c :: c in db.campaigns && Attributable(db, tenant, run, sid, s.tenantWide, c)
  }

  /** An expectation about the route is reported exactly if it is declared and a campaign is attributable
      just when none was expected. */
  lemma RouteReportedExactly(
      db: Db, tenant: string, run: string, asserts: DbAsserts, sid: Option<string>, delegated: bool)
    ensures Route(delegated) in EvaluateDbAsserts(db, tenant, Some(run), asserts, sid) <==>
            && asserts.route.Some? && asserts.route.value.expectDelegation == delegated
            && !RouteMet(db, tenant, run, sid, asserts.route.value)
  {
    PartsReported(db, tenant, run, asserts, sid, Route(delegated));
    if asserts.route.Some? {
      RouteIsAsked(db, tenant, run, sid, asserts.route.value);
    }
  }

  lemma EffectsAreEffects(db: Db, tenant: string, run: string, spec: Option<EffectsSpec>, sid: Option<string>)
    ensures forall f :: f in EffectFailures(db, tenant, run, spec, sid) ==> f.SideEffect?
  {
    DbAssertsReportDbFailures(db, tenant, Some(run), DbAsserts(None, spec, None), sid);
    if spec.Some? {
      var campaign := CampaignForRun(db, tenant, Scope(run, spec.value.tenantWide == Some(true)), sid);
      assert forall f :: f in DecisionFailures(db, tenant, campaign, spec.value.decision) ==> f.SideEffect?;
    }
  }

  /** What one effect check reports, where the effects are about this campaign. */
  ghost predicate Reported(db: Db, tenant: string, e: EffectsSpec, campaign: Option<string>, what: Effect) {
    var found := |SentRows(db, tenant, campaign)|;
    match what
    case CampaignPresence(present) => e.campaign == Some(present) && campaign.Some? != present
    case NoCampaignToDecide => e.decision.Some? && campaign.None?
    case Decision(decision) =>
      e.decision == Some(decision) && campaign.Some? && !DecidedAs(db, tenant, campaign.value, decision)
    case SentCount(wanted, n, scoped) =>
      e.sent == Some(wanted) && found != wanted && n == found && scoped == campaign.Some?
    case SentAtLeast(floor, n, scoped) =>
      e.sentAtLeast == Some(floor) && found < floor && n == found && scoped == campaign.Some?
  }

  ghost predicate EffectsAreAbout(
      db: Db, tenant: string, run: string, sid: Option<string>, e: EffectsSpec, campaign: Option<string>)
  {
    IsAbout(db, tenant, run, sid, e.tenantWide == Some(true), campaign)
  }

  /** Each effect is reported exactly if it is declared and the rows of the campaign that the asserts are
      about say otherwise: tenant-wide the tenant's newest, else the newest of the run or of the turn's
      own tasks. */
  lemma EffectReportedExactly(
      db: Db, tenant: string, run: string, asserts: DbAsserts, sid: Option<string>, campaign: Option<string>,
      what: Effect)
    requires asserts.effects.Some? && EffectsAreAbout(db, tenant, run, sid, asserts.effects.value, campaign)
    ensures SideEffect(what) in EvaluateDbAsserts(db, tenant, Some(run), asserts, sid) <==>
            Reported(db, tenant, asserts.effects.value, campaign, what)
  {
    var e := asserts.effects.value;
    AboutExactly(db, tenant, run, sid, e.tenantWide == Some(true), campaign);
    EffectAsked(db, tenant, e, campaign, what);
    PartsReported(db, tenant, run, asserts, sid, SideEffect(what));
  }

  lemma EffectAsked(db: Db, tenant: string, e: EffectsSpec, campaign: Option<string>, what: Effect)
    ensures
      SideEffect(what) in PresenceFailures(campaign, e.campaign)
        + DecisionFailures(db, tenant, campaign, e.decision)
        + SentFailures(db, tenant, campaign, e.sent, e.sentAtLeast)
      <==> Reported(db, tenant, e, campaign, what)
  {
    SentCounted(db, tenant, campaign);
    if campaign.Some? && e.decision.Some? {
      DecisionExactly(db, tenant, campaign.value, e.decision.value);
    }
  }

  /** An expected cohort is reported exactly if no campaign is attributable or the one found was planned
      for another number. */
  lemma CohortReportedExactly(
      db: Db, tenant: string, run: string, asserts: DbAsserts, sid: Option<string>, campaign: Option<string>, n: int)
    requires asserts.grounded.Some?
    requires IsAbout(db, tenant, run, sid, asserts.grounded.value.tenantWide, campaign)
    ensures Grounded(n) in EvaluateDbAsserts(db, tenant, Some(run), asserts, sid) <==>
            asserts.grounded.value.expectedCount == n && (campaign.Some? ==> !Planned(db, tenant, campaign.value, n))
  {
    AboutExactly(db, tenant, run, sid, asserts.grounded.value.tenantWide, campaign);
    PartsReported(db, tenant, run, asserts, sid, Grounded(n));
    if campaign.Some? {
      CohortExactly(db, tenant, campaign.value, n);
    }
  }

  // ---------------------------------------------------------------- when all of them pass

  ghost predicate EffectsMet(db: Db, tenant: string, run: string, sid: Option<string>, e: EffectsSpec) {
    exists campaign ::
      EffectsAreAbout(db, tenant, run, sid, e, campaign)
      && forall what :: !Reported(db, tenant, e, campaign, what)
  }

  ghost predicate CohortMet(db: Db, tenant: string, run: string, sid: Option<string>, s: GroundedSpec) {
    exists campaign :: IsAbout(db, tenant, run, sid, s.tenantWide, campaign)
      && campaign.Some? && Planned(db, tenant, campaign.value, s.expectedCount)
  }

  /** Everything a step declares about the database is so. */
  ghost predicate AssertsMet(db: Db, tenant: string, run: string, asserts: DbAsserts, sid: Option<string>) {
    && (asserts.route.Some? ==> RouteMet(db, tenant, run, sid, asserts.route.value))
    && (asserts.effects.Some? ==> EffectsMet(db, tenant, run, sid, asserts.effects.value))
    && (asserts.grounded.Some? ==> CohortMet(db, tenant, run, sid, asserts.grounded.value))
  }

  lemma RoutePasses(db: Db, tenant: string, run: string, asserts: DbAsserts, sid: Option<string>)
    ensures RouteFailures(db, tenant, run, asserts.route, sid) == []
       <==> (asserts.route.Some? ==> RouteMet(db, tenant, run, sid, asserts.route.value))
  {
    if asserts.route.Some? {
      RouteIsAsked(db, tenant, run, sid, asserts.route.value);
    }
  }

  lemma EffectsPass(db: Db, tenant: string, run: string, asserts: DbAsserts, sid: Option<string>)
    ensures EffectFailures(db, tenant, run, asserts.effects, sid) == []
       <==> (asserts.effects.Some? ==> EffectsMet(db, tenant, run, sid, asserts.effects.value))
  {
    if asserts.effects.Some? {
      var e := asserts.effects.value;
      var campaign := CampaignForRun(db, tenant, Scope(run, e.tenantWide == Some(true)), sid);
      var fs := EffectFailures(db, tenant, run, asserts.effects, sid);
      EffectsAreEffects(db, tenant, run, asserts.effects, sid);
      LookupIsAbout(db, tenant, run, sid, e.tenantWide == Some(true));
      assert EffectsAreAbout(db, tenant, run, sid, e, campaign);
      forall what ensures SideEffect(what) in fs <==> Reported(db, tenant, e, campaign, what) {
        EffectAsked(db, tenant, e, campaign, what);
      }
      if EffectsMet(db, tenant, run, sid, e) {
        var other :| EffectsAreAbout(db, tenant, run, sid, e, other)
          && forall what :: !Reported(db, tenant, e, other, what);
        OneSubject(db, tenant, run, sid, e.tenantWide == Some(true), campaign, other);
      }
      if fs != [] {
        assert fs[0] in fs && fs[0] == SideEffect(fs[0].what);
      }
    }
  }

  lemma CohortPasses(db: Db, tenant: string, run: string, asserts: DbAsserts, sid: Option<string>)
    ensures GroundedFailures(db, tenant, run, asserts.grounded, sid) == []
       <==> (asserts.grounded.Some? ==> CohortMet(db, tenant, run, sid, asserts.grounded.value))
  {
    if asserts.grounded.Some? {
      var s := asserts.grounded.value;
      var campaign := CampaignForRun(db, tenant, Scope(run, s.tenantWide), sid);
      LookupIsAbout(db, tenant, run, sid, s.tenantWide);
      if CohortMet(db, tenant, run, sid, s) {
        var other :| IsAbout(db, tenant, run, sid, s.tenantWide, other)
          && other.Some? && Planned(db, tenant, other.value, s.expectedCount);
        OneSubject(db, tenant, run, sid, s.tenantWide, campaign, other);
      }
      if campaign.Some? {
        CohortExactly(db, tenant, campaign.value, s.expectedCount);
      }
    }
  }

  /** The asserts of a turn pass exactly if everything declared is so; without a turn, exactly if nothing
      is declared. */
  lemma AssertsPassExactly(db: Db, tenant: string, run: Option<string>, asserts: DbAsserts, sid: Option<string>)
    ensures run.Some? ==>
              (EvaluateDbAsserts(db, tenant, run, asserts, sid) == [] <==>
                 AssertsMet(db, tenant, run.value, asserts, sid))
    ensures run.None? ==>
              EvaluateDbAsserts(db, tenant, run, asserts, sid)
              == if asserts == DbAsserts(None, None, None) then [] else [NoRun]
  {
    if run.Some? {
      RoutePasses(db, tenant, run.value, asserts, sid);
      EffectsPass(db, tenant, run.value, asserts, sid);
      CohortPasses(db, tenant, run.value, asserts, sid);
    }
  }
}
