/** What the three always-on money checks establish about the messages really sent. */
module Money {
  import opened Common
  import opened Store

  // ---------------------------------------------------------------- filters

  lemma {:induction false} FilterAgrees<T(!new)>(p: T -> bool, q: T -> bool, rows: seq<T>)
    requires forall x :: x in rows ==> p(x) == q(x)
    ensures Filter(p, rows) == Filter(q, rows)
  {
    if rows != [] {
      FilterAgrees(p, q, rows[..|rows| - 1]);
    }
  }

  lemma FilterSnoc<T(!new)>(p: T -> bool, rows: seq<T>, x: T)
    ensures Filter(p, rows + [x]) == Filter(p, rows) + (if p(x) then [x] else [])
  {
    assert (rows + [x])[..|rows|] == rows;
  }

  lemma {:induction false} FilterTwice<T(!new)>(p: T -> bool, q: T -> bool, both: T -> bool, rows: seq<T>)
    requires forall x :: x in rows ==> (both(x) <==> p(x) && q(x))
    ensures Filter(q, Filter(p, rows)) == Filter(both, rows)
  {
    if rows != [] {
      var front, last := rows[..|rows| - 1], rows[|rows| - 1];
      assert rows == front + [last];
      FilterTwice(p, q, both, front);
      if p(last) {
        FilterSnoc(q, Filter(p, front), last);
        assert Filter(p, rows) == Filter(p, front) + [last];
      } else {
        assert Filter(p, rows) == Filter(p, front);
      }
    }
  }

  lemma {:induction false} FilterAppend<T(!new)>(p: T -> bool, a: seq<T>, b: seq<T>)
    ensures Filter(p, a + b) == Filter(p, a) + Filter(p, b)
  {
    if b == [] {
      assert a + b == a;
    } else {
      FilterAppend(p, a, b[..|b| - 1]);
      assert (a + b)[..|a + b| - 1] == a + b[..|b| - 1];
    }
  }

  lemma {:induction false} FilterKeepsAll<T(!new)>(keep: T -> bool, rows: seq<T>)
    requires forall x :: x in rows ==> keep(x)
    ensures Filter(keep, rows) == rows
  {
    if rows != [] {
      var front, last := rows[..|rows| - 1], rows[|rows| - 1];
      assert rows == front + [last];
      FilterKeepsAll(keep, front);
    }
  }

  // ---------------------------------------------------------------- campaigns and keys

  /** Campaign ids are UUIDs, so none contains the separator. */
  predicate ColonFree(id: string) {
    forall i :: 0 <= i < |id| ==> id[i] != ':'
  }

  function ApprovedCampaigns(db: Db, tenant: string): set<string> {
    set i | 0 <= i < |db.approvals| && db.approvals[i].tenant == tenant && db.approvals[i].decision == Some("approved")
            && db.approvals[i].campaignId.Some? :: db.approvals[i].campaignId.value
  }

  ghost predicate CleanIds(db: Db, tenant: string) {
    forall c :: c in ApprovedCampaigns(db, tenant) ==> ColonFree(c)
  }

  lemma ApprovedMeansKeyed(db: Db, tenant: string, m: Message)
    ensures Approved(db, tenant, m) <==> exists c :: c in ApprovedCampaigns(db, tenant) && KeyedTo(m, c)
  {
    if Approved(db, tenant, m) {
      var i :| 0 <= i < |db.approvals| && db.approvals[i].tenant == tenant
        && db.approvals[i].decision == Some("approved")
               && db.approvals[i].campaignId.Some? && KeyedTo(m, db.approvals[i].campaignId.value);
      assert db.approvals[i].campaignId.value in ApprovedCampaigns(db, tenant);
    }
  }

  /** A key names at most one campaign. */
  lemma OneCampaignPerKey(m: Message, a: string, b: string)
    requires ColonFree(a) && ColonFree(b) && KeyedTo(m, a) && KeyedTo(m, b)
    ensures a == b
  {
    var k := m.key.value;
    assert k[|a|] == ':' && k[|b|] == ':';
    assert forall i :: 0 <= i < |a| ==> k[i] == a[i];
    assert forall i :: 0 <= i < |b| ==> k[i] == b[i];
    assert a == k[..|a|] && b == k[..|b|];
  }

  lemma {:induction false} KeyCounts(rows: seq<Message>, key: string)
    ensures KeyCount(rows, key) > 0 <==> exists i :: 0 <= i < |rows| && rows[i].key == Some(key)
  {
    if rows != [] {
      var front := rows[..|rows| - 1];
      KeyCounts(front, key);
      KeyCountStep(rows, key);
      if i :| 0 <= i < |front| && front[i].key == Some(key) {
        assert rows[i].key == Some(key);
      }
      if i :| 0 <= i < |rows| && rows[i].key == Some(key) {
        assert i < |front| ==> front[i].key == Some(key);
      }
    }
  }

  ghost predicate Repeats(rows: seq<Message>, key: string) {
    exists i, j :: 0 <= i < j < |rows| && rows[i].key == Some(key) && rows[j].key == Some(key)
  }

  lemma RepeatsSnoc(rows: seq<Message>, last: Message, key: string)
    ensures Repeats(rows + [last], key) <==>
            Repeats(rows, key) || (last.key == Some(key) && exists i :: 0 <= i < |rows| && rows[i].key == Some(key))
  {
    var longer := rows + [last];
    assert longer[|rows|] == last;
    if i, j :| 0 <= i < j < |rows| && rows[i].key == Some(key) && rows[j].key == Some(key) {
      assert longer[i].key == Some(key) && longer[j].key == Some(key);
    }
    if i :| 0 <= i < |rows| && rows[i].key == Some(key) {
      assert longer[i].key == Some(key);
    }
    if i, j :| 0 <= i < j < |longer| && longer[i].key == Some(key) && longer[j].key == Some(key) {
      assert rows[i].key == Some(key);
      assert j < |rows| ==> rows[j].key == Some(key);
    }
  }

  lemma {:induction false} RepeatedKeyCounts(rows: seq<Message>, key: string)
    ensures KeyCount(rows, key) > 1 <==> Repeats(rows, key)
  {
    if rows != [] {
      var front, last := rows[..|rows| - 1], rows[|rows| - 1];
      assert rows == front + [last];
      RepeatedKeyCounts(front, key);
      KeyCounts(front, key);
      KeyCountStep(rows, key);
      RepeatsSnoc(front, last, key);
    }
  }

  lemma KeyCountStep(rows: seq<Message>, key: string)
    requires rows != []
    ensures KeyCount(rows, key)
         == KeyCount(rows[..|rows| - 1], key) + (if rows[|rows| - 1].key == Some(key) then 1 else 0)
  {
    var p := (m: Message) => m.key == Some(key);
    FilterAgrees(p, (m: Message) => m.key == Some(key), rows);
  }

  // ---------------------------------------------------------------- exactly what the nets establish

  /** Every send has one approved campaign behind it, no recipient was sent twice, and every count a
      reply stated is the true one. */
  ghost predicate MoneySafe(db: Db, tenant: string, stated: string -> Option<int>, replies: seq<string>) {
    var rows := Sent(db, tenant);
    && (forall i :: 0 <= i < |rows| ==> exists c :: c in ApprovedCampaigns(db, tenant) && KeyedTo(rows[i], c))
    && (forall i, j :: 0 <= i < j < |rows| ==> rows[i].key != rows[j].key)
    && (forall n :: n in Stated(stated, replies) ==> n == |rows|)
  }

  lemma NoUnapprovedExactly(db: Db, tenant: string)
    ensures AssertNoUnapproved(db, tenant) == [] <==>
            forall m :: m in Sent(db, tenant) ==> exists c :: c in ApprovedCampaigns(db, tenant) && KeyedTo(m, c)
  {
    forall m ensures Approved(db, tenant, m) <==> exists c :: c in ApprovedCampaigns(db, tenant) && KeyedTo(m, c) {
      ApprovedMeansKeyed(db, tenant, m);
    }
    var bad := Filter((m: Message) => !Approved(db, tenant, m), Sent(db, tenant));
    if bad != [] {
      assert bad[0] in bad;
    }
  }

  lemma NoDoubleSendExactly(db: Db, tenant: string)
    ensures AssertNoDoubleSend(db, tenant) == [] <==>
            var rows := Sent(db, tenant);
            forall i, j :: 0 <= i < j < |rows| && rows[i].key.Some? ==> rows[i].key != rows[j].key
  {
    var rows := Sent(db, tenant);
    forall key: string ensures KeyCount(rows, key) > 1 <==> Repeats(rows, key) {
      RepeatedKeyCounts(rows, key);
    }
    if i, j :| 0 <= i < j < |rows| && rows[i].key.Some? && rows[i].key == rows[j].key {
      assert KeyCount(rows, rows[i].key.value) > 1;
    }
  }

  /** The three checks pass together exactly on money-safe databases. */
  lemma NetsExactly(db: Db, tenant: string, stated: string -> Option<int>, replies: seq<string>)
    ensures NetFailures(db, tenant, stated, replies) == [] <==> MoneySafe(db, tenant, stated, replies)
  {
    NoUnapprovedExactly(db, tenant);
    NoDoubleSendExactly(db, tenant);
    var rows := Sent(db, tenant);
    var bad := Filter((n: int) => n != |rows|, Stated(stated, replies));
    if bad != [] {
      assert bad[0] in bad;
    }
    assert AssertStatedCount(db, tenant, stated, replies) == [] <==> bad == [] by {
      FilterAgrees((n: int) => n != |rows|, (n: int) => n != |rows|, Stated(stated, replies));
    }
    forall i | 0 <= i < |rows| ensures rows[i] in rows {}
  }

  /** In a money-safe database each send's key is non-null and names exactly one approved campaign. */
  lemma EachSendHasOneCampaign(db: Db, tenant: string, stated: string -> Option<int>, replies: seq<string>, m: Message)
    requires CleanIds(db, tenant) && MoneySafe(db, tenant, stated, replies) && m in Sent(db, tenant)
    ensures m.key.Some?
    ensures exists c :: c in ApprovedCampaigns(db, tenant) && KeyedTo(m, c)
              && forall d :: d in ApprovedCampaigns(db, tenant) && KeyedTo(m, d) ==> d == c
  {
    var i :| 0 <= i < |Sent(db, tenant)| && Sent(db, tenant)[i] == m;
    var c :| c in ApprovedCampaigns(db, tenant) && KeyedTo(m, c);
    forall d | d in ApprovedCampaigns(db, tenant) && KeyedTo(m, d) ensures d == c {
      OneCampaignPerKey(m, c, d);
    }
  }

  // ---------------------------------------------------------------- the counts add up

  function PerCampaign(rows: seq<Message>, campaigns: seq<string>): nat {
    if campaigns == [] then 0
    else PerCampaign(rows, campaigns[..|campaigns| - 1])
         + Count((m: Message) => KeyedTo(m, campaigns[|campaigns| - 1]), rows)
  }

  function Owners(m: Message, campaigns: seq<string>): nat {
    if campaigns == [] then 0
    else Owners(m, campaigns[..|campaigns| - 1]) + (if KeyedTo(m, campaigns[|campaigns| - 1]) then 1 else 0)
  }

  lemma {:induction false} PerCampaignStep(rows: seq<Message>, m: Message, campaigns: seq<string>)
    ensures PerCampaign(rows + [m], campaigns) == PerCampaign(rows, campaigns) + Owners(m, campaigns)
  {
    if campaigns != [] {
      PerCampaignStep(rows, m, campaigns[..|campaigns| - 1]);
      var p := (x: Message) => KeyedTo(x, campaigns[|campaigns| - 1]);
      assert (rows + [m])[..|rows|] == rows;
      FilterAgrees(p, (x: Message) => KeyedTo(x, campaigns[|campaigns| - 1]), rows + [m]);
      FilterAgrees(p, (x: Message) => KeyedTo(x, campaigns[|campaigns| - 1]), rows);
    }
  }

  lemma {:induction false} PerCampaignOfNone(campaigns: seq<string>)
    ensures PerCampaign([], campaigns) == 0
  {
    if campaigns != [] {
      PerCampaignOfNone(campaigns[..|campaigns| - 1]);
    }
  }

  lemma {:induction false} OneOwner(m: Message, campaigns: seq<string>)
    requires Distinct(campaigns) && forall c :: c in campaigns ==> ColonFree(c)
    ensures Owners(m, campaigns) == if exists c :: c in campaigns && KeyedTo(m, c) then 1 else 0
  {
    if campaigns != [] {
      var front, last := campaigns[..|campaigns| - 1], campaigns[|campaigns| - 1];
      assert campaigns == front + [last];
      OneOwner(m, front);
      if c :| c in front && KeyedTo(m, c) && KeyedTo(m, last) {
        OneCampaignPerKey(m, c, last);
      }
    }
  }

  ghost predicate Owned(m: Message, campaigns: seq<string>) {
    exists c :: c in campaigns && KeyedTo(m, c)
  }

  lemma {:induction false} EveryRowOwned(rows: seq<Message>, campaigns: seq<string>)
    requires Distinct(campaigns) && forall c :: c in campaigns ==> ColonFree(c)
    requires forall m :: m in rows ==> Owned(m, campaigns)
    ensures PerCampaign(rows, campaigns) == |rows|
  {
    if rows == [] {
      PerCampaignOfNone(campaigns);
    } else {
      var front, last := rows[..|rows| - 1], rows[|rows| - 1];
      assert rows == front + [last];
      EveryRowOwned(front, campaigns);
      PerCampaignStep(front, last, campaigns);
      assert Owned(last, campaigns);
      OneOwner(last, campaigns);
    }
  }

  function SentPerCampaign(db: Db, tenant: string, campaigns: seq<string>): nat {
    if campaigns == [] then 0
    else SentPerCampaign(db, tenant, campaigns[..|campaigns| - 1])
         + SentInScope(db, tenant, Some(campaigns[|campaigns| - 1]))
  }

  lemma {:induction false} ScopedCountsAgree(db: Db, tenant: string, campaigns: seq<string>)
    ensures SentPerCampaign(db, tenant, campaigns) == PerCampaign(Sent(db, tenant), campaigns)
  {
    if campaigns != [] {
      ScopedCountsAgree(db, tenant, campaigns[..|campaigns| - 1]);
      OneScopedCount(db, tenant, campaigns[|campaigns| - 1]);
    }
  }

  lemma OneScopedCount(db: Db, tenant: string, c: string)
    ensures SentInScope(db, tenant, Some(c)) == Count((m: Message) => KeyedTo(m, c), Sent(db, tenant))
  {
    var campaign := Some(c);
    FilterTwice((m: Message) => m.tenant == tenant && IsSent(m), (m: Message) => KeyedTo(m, c),
                (m: Message) => m.tenant == tenant && IsSent(m) &&
                  (match campaign case Some(c) => KeyedTo(m, c) case None => SinceTenant(db, tenant, m.createdAt)),
                db.messages);
  }

  /** In a money-safe database the counts of the approved campaigns, each as the side-effect assert
      counts it, add up to the tenant's total, which is what every stated count says. */
  lemma CampaignCountsAddUp(
      db: Db, tenant: string, stated: string -> Option<int>, replies: seq<string>, campaigns: seq<string>)
    requires CleanIds(db, tenant) && MoneySafe(db, tenant, stated, replies)
    requires Distinct(campaigns) && forall c :: c in campaigns <==> c in ApprovedCampaigns(db, tenant)
    ensures SentPerCampaign(db, tenant, campaigns) == |Sent(db, tenant)|
    ensures forall n :: n in Stated(stated, replies) ==> n == SentPerCampaign(db, tenant, campaigns)
  {
    var rows := Sent(db, tenant);
    forall m | m in rows ensures Owned(m, campaigns) {
      var i :| 0 <= i < |rows| && rows[i] == m;
      var c :| c in ApprovedCampaigns(db, tenant) && KeyedTo(rows[i], c);
      assert c in campaigns;
    }
    EveryRowOwned(rows, campaigns);
    ScopedCountsAgree(db, tenant, campaigns);
  }
}
