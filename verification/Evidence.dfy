/** Resolving the status of forum claims from independent evidence, and the claim predicate. */
module Evidence {
  import opened Common

  datatype Support = Support(legacyId: string, stance: string, locator: string, qualifies: bool)
  datatype Source = Source(id: string, cluster: string, supports: seq<Support>)
  datatype Edge = Edge(sourceId: string, cluster: string, stance: string, locator: string, qualifies: bool)
  datatype Status = Candidate | Disputed | ResearchOnly
  datatype Row = Row(legacyId: string, status: Status, edges: seq<Edge>, corroborating: nat, clusters: nat)

  // ---------------------------------------------------------------- aggregation

  function EdgeOf(source: Source, item: Support): Edge {
    Edge(source.id, source.cluster, item.stance, item.locator, item.qualifies)
  }

  /** The edges the first `n` supports of a source give to one claim. */
  function EdgesFrom(source: Source, n: nat, legacyId: string): seq<Edge>
    requires n <= |source.supports|
  {
    if n == 0 then []
    else
      var item := source.supports[n - 1];
      EdgesFrom(source, n - 1, legacyId) + (if item.legacyId == legacyId then [EdgeOf(source, item)] else [])
  }

  function EdgesFor(sources: seq<Source>, legacyId: string): seq<Edge> {
    if sources == [] then []
    else
      var last := sources[|sources| - 1];
      EdgesFor(sources[..|sources| - 1], legacyId) + EdgesFrom(last, |last.supports|, legacyId)
  }

  function Corroborating(edges: seq<Edge>): set<string> {
    set i | 0 <= i < |edges| && edges[i].qualifies && edges[i].stance == "corroborates" :: edges[i].cluster
  }

  function Qualifying(edges: seq<Edge>): set<string> {
    set i | 0 <= i < |edges| && edges[i].qualifies :: edges[i].cluster
  }

  predicate HasRefutation(edges: seq<Edge>) {
    exists i :: 0 <= i < |edges| && edges[i].qualifies && edges[i].stance == "refutes"
  }

  function Resolve(edges: seq<Edge>): Status {
    if HasRefutation(edges) && Corroborating(edges) != {} then Disputed
    else if |Corroborating(edges)| >= 2 then Candidate
    else ResearchOnly
  }

  function Get(m: map<string, seq<Edge>>, key: string): seq<Edge> {
    if key in m then m[key] else []
  }

  /** `after` is `before` with the first `n` supports of `source` appended. */
  ghost predicate Added(before: map<string, seq<Edge>>, after: map<string, seq<Edge>>, source: Source, n: nat)
    requires n <= |source.supports|
  {
    forall id :: Get(after, id) == Get(before, id) + EdgesFrom(source, n, id)
  }

  lemma AddOne(before: map<string, seq<Edge>>, after: map<string, seq<Edge>>, source: Source, n: nat)
    requires n < |source.supports| && Added(before, after, source, n)
    ensures
      var item := source.supports[n];
      Added(before, after[item.legacyId := Get(after, item.legacyId) + [EdgeOf(source, item)]], source, n + 1)
  {
    var item := source.supports[n];
    var later := after[item.legacyId := Get(after, item.legacyId) + [EdgeOf(source, item)]];
    forall id ensures Get(later, id) == Get(before, id) + EdgesFrom(source, n + 1, id) {
      var x, y := Get(before, id), EdgesFrom(source, n, id);
      assert Get(after, id) == x + y;
      if id == item.legacyId {
        assert (x + y) + [EdgeOf(source, item)] == x + (y + [EdgeOf(source, item)]);
      }
    }
  }

  /** One source's supports, each appended to its claim's list. */
  method AddSource(before: map<string, seq<Edge>>, source: Source) returns (byLegacy: map<string, seq<Edge>>)
    ensures Added(before, byLegacy, source, |source.supports|)
  {
    byLegacy := before;
    for k := 0 to |source.supports|
      invariant Added(before, byLegacy, source, k)
    {
      var item := source.supports[k];
      AddOne(before, byLegacy, source, k);
      byLegacy := byLegacy[item.legacyId := Get(byLegacy, item.legacyId) + [EdgeOf(source, item)]];
    }
  }

  /** `support_by_legacy` over all sources, in source order. */
  method GroupSupports(sources: seq<Source>) returns (byLegacy: map<string, seq<Edge>>)
    ensures forall id :: Get(byLegacy, id) == EdgesFor(sources, id)
  {
    byLegacy := map[];
    for s := 0 to |sources|
      invariant forall id :: Get(byLegacy, id) == EdgesFor(sources[..s], id)
    {
      ghost var before := byLegacy;
      byLegacy := AddSource(byLegacy, sources[s]);
      assert sources[..s + 1][..s] == sources[..s];
      forall id ensures Get(byLegacy, id) == EdgesFor(sources[..s + 1], id) {
        assert Get(before, id) == EdgesFor(sources[..s], id);
      }
    }
    assert sources[..|sources|] == sources;
  }

  function RowOf(legacyId: string, edges: seq<Edge>): Row {
    Row(legacyId, Resolve(edges), edges, |Corroborating(edges)|, 1 + |Qualifying(edges)|)
  }

  /** The delta of `build`, over the exact target claims in sorted order. */
  method BuildDelta(sources: seq<Source>, targets: seq<string>) returns (delta: seq<Row>)
    ensures |delta| == |targets|
    ensures forall i :: 0 <= i < |targets| ==> ResolvedFrom(sources, targets[i], delta[i])
  {
    var byLegacy := GroupSupports(sources);
    delta := [];
    for i := 0 to |targets|
      invariant |delta| == i
      invariant forall j :: 0 <= j < i ==> delta[j] == RowOf(targets[j], EdgesFor(sources, targets[j]))
    {
      var edges := Get(byLegacy, targets[i]);
      var corroborating, qualifying := Corroborating(edges), Qualifying(edges);
      var status :=
        if HasRefutation(edges) && corroborating != {} then Disputed
        else if |corroborating| >= 2 then Candidate
        else ResearchOnly;
      delta := delta + [Row(targets[i], status, edges, |corroborating|, 1 + |qualifying|)];
    }
    forall i | 0 <= i < |targets| ensures ResolvedFrom(sources, targets[i], delta[i]) {
      RowIsResolved(sources, targets[i]);
    }
  }

  // ---------------------------------------------------------------- what decides the status

  /** The (cluster, stance) pairs of the qualifying edges. */
  ghost function Pairs(edges: seq<Edge>): set<(string, string)> {
    set i | 0 <= i < |edges| && edges[i].qualifies :: (edges[i].cluster, edges[i].stance)
  }

  lemma PairsDecide(edges: seq<Edge>)
    ensures forall c :: c in Corroborating(edges) <==> (c, "corroborates") in Pairs(edges)
    ensures forall c :: c in Qualifying(edges) <==> exists s :: (c, s) in Pairs(edges)
    ensures HasRefutation(edges) <==> exists c :: (c, "refutes") in Pairs(edges)
  {
    forall c | c in Qualifying(edges) ensures exists s :: (c, s) in Pairs(edges) {
      var i :| 0 <= i < |edges| && edges[i].qualifies && edges[i].cluster == c;
      assert (c, edges[i].stance) in Pairs(edges);
    }
    if HasRefutation(edges) {
      var i :| 0 <= i < |edges| && edges[i].qualifies && edges[i].stance == "refutes";
      assert (edges[i].cluster, "refutes") in Pairs(edges);
    }
  }

  /** Status and both cluster counts depend on nothing but the set of qualifying (cluster, stance)
      pairs: not on the order of sources, repeats within a cluster, locators or partial edges. */
  lemma StatusDependsOnPairs(a: seq<Edge>, b: seq<Edge>)
    requires Pairs(a) == Pairs(b)
    ensures Resolve(a) == Resolve(b)
    ensures Corroborating(a) == Corroborating(b) && Qualifying(a) == Qualifying(b)
  {
    PairsDecide(a);
    PairsDecide(b);
    assert Corroborating(a) == Corroborating(b);
    assert Qualifying(a) == Qualifying(b);
  }

  lemma TwoElements(s: set<string>)
    ensures |s| >= 2 <==> exists x, y :: x in s && y in s && x != y
  {
    if |s| >= 2 {
      var x :| x in s;
      assert |s - {x}| >= 1;
      var y :| y in s - {x};
    } else if x, y :| x in s && y in s && x != y {
      assert {x, y} <= s;
      SubsetSize({x, y}, s);
    }
  }

  lemma {:induction false} SubsetSize<T>(a: set<T>, b: set<T>)
    requires a <= b
    ensures |a| <= |b|
    decreases a
  {
    if a != {} {
      var x :| x in a;
      SubsetSize(a - {x}, b - {x});
    }
  }

  ghost predicate Backs(edges: seq<Edge>, cluster: string, stance: string) {
    exists i :: 0 <= i < |edges| && edges[i].qualifies && edges[i].stance == stance && edges[i].cluster == cluster
  }

  /** The three statuses, each by its own exact condition. */
  lemma StatusExactly(edges: seq<Edge>)
    ensures Resolve(edges) == Candidate <==>
            (exists c, d :: c != d && Backs(edges, c, "corroborates") && Backs(edges, d, "corroborates"))
            && !exists c :: Backs(edges, c, "refutes")
    ensures Resolve(edges) == Disputed <==>
            (exists c :: Backs(edges, c, "corroborates")) && exists c :: Backs(edges, c, "refutes")
  {
    forall c ensures c in Corroborating(edges) <==> Backs(edges, c, "corroborates") {}
    if HasRefutation(edges) {
      var i :| 0 <= i < |edges| && edges[i].qualifies && edges[i].stance == "refutes";
      assert Backs(edges, edges[i].cluster, "refutes");
    }
    TwoElements(Corroborating(edges));
    if Corroborating(edges) != {} {
      var c :| c in Corroborating(edges);
      assert Backs(edges, c, "corroborates");
    }
  }

  lemma CorroboratingSnoc(edges: seq<Edge>, e: Edge)
    ensures Corroborating(edges + [e]) ==
            Corroborating(edges) + (if e.qualifies && e.stance == "corroborates" then {e.cluster} else {})
    ensures HasRefutation(edges + [e]) <==> HasRefutation(edges) || (e.qualifies && e.stance == "refutes")
  {
    var longer := edges + [e];
    assert longer[|edges|] == e;
    forall i | 0 <= i < |edges| ensures longer[i] == edges[i] {}
    forall c ensures c in Corroborating(longer) <==>
        c in Corroborating(edges) || (e.qualifies && e.stance == "corroborates" && c == e.cluster)
    {
      if c in Corroborating(edges) {
        var i :| 0 <= i < |edges| && edges[i].qualifies && edges[i].stance == "corroborates" && edges[i].cluster == c;
        assert longer[i].cluster == c;
      }
    }
    if HasRefutation(edges) {
      var i :| 0 <= i < |edges| && edges[i].qualifies && edges[i].stance == "refutes";
      assert longer[i].qualifies && longer[i].stance == "refutes";
    }
  }

  /** One more edge promotes a claim only if it qualifies, corroborates, and is from a cluster not
      yet counted; and a qualifying refutation, once in, rules promotion out for good. */
  lemma OnlyCorroborationPromotes(edges: seq<Edge>, e: Edge)
    ensures Resolve(edges) != Candidate && Resolve(edges + [e]) == Candidate ==>
            e.qualifies && e.stance == "corroborates" && e.cluster !in Corroborating(edges)
            && |Corroborating(edges)| == 1
    ensures HasRefutation(edges) ==> Resolve(edges + [e]) != Candidate
  {
    CorroboratingSnoc(edges, e);
    if Corroborating(edges + [e]) != {} {
      assert |Corroborating(edges + [e])| > 0;
    }
    if e.qualifies && e.stance == "corroborates" && e.cluster !in Corroborating(edges) {
      assert |Corroborating(edges) + {e.cluster}| == |Corroborating(edges)| + 1;
    } else {
      assert Corroborating(edges + [e]) == Corroborating(edges);
    }
  }

  // ---------------------------------------------------------------- reordering and conservation

  lemma {:induction false} EdgesFromMembers(source: Source, n: nat, id: string)
    requires n <= |source.supports|
    ensures forall e :: e in EdgesFrom(source, n, id) <==>
              exists k :: 0 <= k < n && source.supports[k].legacyId == id && EdgeOf(source, source.supports[k]) == e
  {
    if n > 0 {
      EdgesFromMembers(source, n - 1, id);
    }
  }

  ghost predicate Gives(source: Source, id: string, e: Edge) {
    exists k :: 0 <= k < |source.supports| && source.supports[k].legacyId == id
      && EdgeOf(source, source.supports[k]) == e
  }

  lemma {:induction false} EdgesForMembers(sources: seq<Source>, id: string)
    ensures forall e :: e in EdgesFor(sources, id) <==> exists s :: s in sources && Gives(s, id, e)
  {
    if sources != [] {
      var front, last := sources[..|sources| - 1], sources[|sources| - 1];
      EdgesForMembers(front, id);
      EdgesFromMembers(last, |last.supports|, id);
      assert forall s :: s in sources <==> s in front || s == last by {
        assert sources == front + [last];
      }
      forall e ensures e in EdgesFrom(last, |last.supports|, id) <==> Gives(last, id, e) {}
      forall e ensures e in EdgesFor(sources, id) <==> exists s :: s in sources && Gives(s, id, e) {
        if e in EdgesFor(front, id) {
          var s :| s in front && Gives(s, id, e);
          assert s in sources;
        } else if e in EdgesFrom(last, |last.supports|, id) {
          assert last in sources && Gives(last, id, e);
        }
      }
    }
  }

  /** Sources in any order, with any repetition, resolve every claim alike. */
  lemma SourceOrderIrrelevant(a: seq<Source>, b: seq<Source>, id: string)
    requires forall s :: s in a <==> s in b
    ensures Resolve(EdgesFor(a, id)) == Resolve(EdgesFor(b, id))
  {
    EdgesForMembers(a, id);
    EdgesForMembers(b, id);
    var x, y := EdgesFor(a, id), EdgesFor(b, id);
    forall e ensures e in x <==> e in y {}
    SameEdgesSamePairs(x, y);
    StatusDependsOnPairs(x, y);
  }

  lemma SameEdgesSamePairs(x: seq<Edge>, y: seq<Edge>)
    requires forall e :: e in x <==> e in y
    ensures Pairs(x) == Pairs(y)
  {
    forall p | p in Pairs(x) ensures p in Pairs(y) {
      var i :| 0 <= i < |x| && x[i].qualifies && (x[i].cluster, x[i].stance) == p;
      assert x[i] in y;
    }
    forall p | p in Pairs(y) ensures p in Pairs(x) {
      var i :| 0 <= i < |y| && y[i].qualifies && (y[i].cluster, y[i].stance) == p;
      assert y[i] in x;
    }
  }

  function SupportsTotal(sources: seq<Source>): nat {
    if sources == [] then 0
    else SupportsTotal(sources[..|sources| - 1]) + |sources[|sources| - 1].supports|
  }

  function EdgesTotal(sources: seq<Source>, targets: seq<string>): nat {
    if targets == [] then 0
    else EdgesTotal(sources, targets[..|targets| - 1]) + |EdgesFor(sources, targets[|targets| - 1])|
  }

  function FromTotal(source: Source, n: nat, targets: seq<string>): nat
    requires n <= |source.supports|
  {
    if targets == [] then 0
    else FromTotal(source, n, targets[..|targets| - 1]) + |EdgesFrom(source, n, targets[|targets| - 1])|
  }

  /** How many of the first `n` supports name a target. */
  function Known(source: Source, n: nat, targets: seq<string>): (k: nat)
    requires n <= |source.supports|
    ensures k <= n
    ensures k == n <==> forall i :: 0 <= i < n ==> source.supports[i].legacyId in targets
  {
    if n == 0 then 0
    else Known(source, n - 1, targets) + (if source.supports[n - 1].legacyId in targets then 1 else 0)
  }

  lemma {:induction false} OneSupportOneEdge(source: Source, n: nat, targets: seq<string>)
    requires n < |source.supports| && Distinct(targets)
    ensures FromTotal(source, n + 1, targets) ==
            FromTotal(source, n, targets) + (if source.supports[n].legacyId in targets then 1 else 0)
  {
    if targets != [] {
      var front := targets[..|targets| - 1];
      OneSupportOneEdge(source, n, front);
      assert targets == front + [targets[|targets| - 1]];
    }
  }

  lemma {:induction false} FromTotalIsKnown(source: Source, n: nat, targets: seq<string>)
    requires n <= |source.supports| && Distinct(targets)
    ensures FromTotal(source, n, targets) == Known(source, n, targets)
  {
    if n > 0 {
      FromTotalIsKnown(source, n - 1, targets);
      OneSupportOneEdge(source, n - 1, targets);
    } else {
      NoSupportsNoEdges(source, targets);
    }
  }

  lemma {:induction false} NoSupportsNoEdges(source: Source, targets: seq<string>)
    ensures FromTotal(source, 0, targets) == 0
  {
    if targets != [] {
      NoSupportsNoEdges(source, targets[..|targets| - 1]);
    }
  }

  lemma {:induction false} TotalsSplit(sources: seq<Source>, targets: seq<string>)
    requires sources != []
    ensures
      var last := sources[|sources| - 1];
      EdgesTotal(sources, targets) ==
      EdgesTotal(sources[..|sources| - 1], targets) + FromTotal(last, |last.supports|, targets)
  {
    if targets != [] {
      TotalsSplit(sources, targets[..|targets| - 1]);
    }
  }

  lemma {:induction false} NoSourcesNoEdges(targets: seq<string>)
    ensures EdgesTotal([], targets) == 0
  {
    if targets != [] {
      NoSourcesNoEdges(targets[..|targets| - 1]);
    }
  }

  /** The evidence edges over all rows number the supports over all sources exactly when every
      support names one of the target claims; otherwise they fall short. */
  lemma {:induction false} EdgesConserveSupports(sources: seq<Source>, targets: seq<string>)
    requires Distinct(targets)
    ensures EdgesTotal(sources, targets) <= SupportsTotal(sources)
    ensures EdgesTotal(sources, targets) == SupportsTotal(sources) <==>
            forall s, k :: s in sources && 0 <= k < |s.supports| ==> s.supports[k].legacyId in targets
  {
    if sources == [] {
      NoSourcesNoEdges(targets);
    } else {
      var front, last := sources[..|sources| - 1], sources[|sources| - 1];
      EdgesConserveSupports(front, targets);
      TotalsSplit(sources, targets);
      FromTotalIsKnown(last, |last.supports|, targets);
      assert forall s :: s in sources <==> s in front || s == last by {
        assert sources == front + [last];
      }
    }
  }

  // ---------------------------------------------------------------- from the sources' own fields

  /** Support `k` of source `i` is about this claim. */
  predicate About(sources: seq<Source>, i: nat, k: nat, id: string) {
    i < |sources| && k < |sources[i].supports| && sources[i].supports[k].legacyId == id
  }

  /** The edge says what the support and its source say, field by field. */
  predicate Records(e: Edge, source: Source, item: Support) {
    && e.sourceId == source.id && e.cluster == source.cluster
    && e.stance == item.stance && e.locator == item.locator && e.qualifies == item.qualifies
  }

  predicate Earlier(a: (nat, nat), b: (nat, nat)) {
    a.0 < b.0 || (a.0 == b.0 && a.1 < b.1)
  }

  /** Each edge records the support at its place; places come in order; no support of the first sources
      (and of the first `n` of the next) that is about the claim is left out. */
  ghost predicate StandBehind(
      sources: seq<Source>, id: string, edges: seq<Edge>, at: seq<(nat, nat)>, upto: (nat, nat))
  {
    && |at| == |edges|
    && (forall m :: 0 <= m < |at| ==>
          && Earlier(at[m], upto) && About(sources, at[m].0, at[m].1, id)
          && Records(edges[m], sources[at[m].0], sources[at[m].0].supports[at[m].1]))
    && (forall m, n :: 0 <= m < n < |at| ==> Earlier(at[m], at[n]))
    && (forall i: nat, k: nat :: About(sources, i, k, id) && Earlier((i, k), upto) ==> (i, k) in at)
  }

  lemma NoMoreSupport(sources: seq<Source>, id: string, edges: seq<Edge>, at: seq<(nat, nat)>, i: nat, n: nat)
    requires i < |sources| && n < |sources[i].supports| && StandBehind(sources, id, edges, at, (i, n))
    requires sources[i].supports[n].legacyId != id
    ensures StandBehind(sources, id, edges, at, (i, n + 1))
  {
    forall j: nat, k: nat | About(sources, j, k, id) && Earlier((j, k), (i, n + 1)) ensures (j, k) in at {
      assert Earlier((j, k), (i, n));
    }
  }

  lemma OneMoreSupport(sources: seq<Source>, id: string, edges: seq<Edge>, at: seq<(nat, nat)>, i: nat, n: nat)
    requires i < |sources| && n < |sources[i].supports| && StandBehind(sources, id, edges, at, (i, n))
    requires sources[i].supports[n].legacyId == id
    ensures StandBehind(sources, id, edges + [EdgeOf(sources[i], sources[i].supports[n])], at + [(i, n)], (i, n + 1))
  {
    var longer := at + [(i, n)];
    assert longer[|at|] == (i, n);
    forall j: nat, k: nat | About(sources, j, k, id) && Earlier((j, k), (i, n + 1)) ensures (j, k) in longer {
      assert (j, k) != (i, n) ==> Earlier((j, k), (i, n)) && (j, k) in at;
    }
  }

  lemma {:induction false} SupportsBehindSource(sources: seq<Source>, id: string, i: nat, n: nat)
      returns (at: seq<(nat, nat)>)
    requires i < |sources| && n <= |sources[i].supports|
    ensures StandBehind(sources, id, EdgesFor(sources[..i], id) + EdgesFrom(sources[i], n, id), at, (i, n))
    decreases i, n, 1
  {
    var earlier := EdgesFor(sources[..i], id);
    if n == 0 {
      at := SupportsBehind(sources, id, i);
      assert earlier + [] == earlier;
    } else {
      at := SupportsBehindSource(sources, id, i, n - 1);
      var edges, item := EdgesFrom(sources[i], n - 1, id), sources[i].supports[n - 1];
      if item.legacyId == id {
        OneMoreSupport(sources, id, earlier + edges, at, i, n - 1);
        at := at + [(i, n - 1)];
        assert earlier + edges + [EdgeOf(sources[i], item)] == earlier + (edges + [EdgeOf(sources[i], item)]);
      } else {
        NoMoreSupport(sources, id, earlier + edges, at, i, n - 1);
        assert edges + [] == edges;
      }
    }
  }

  lemma {:induction false} SupportsBehind(sources: seq<Source>, id: string, i: nat) returns (at: seq<(nat, nat)>)
    requires i <= |sources|
    ensures StandBehind(sources, id, EdgesFor(sources[..i], id), at, (i, 0))
    decreases i, 0, 0
  {
    if i == 0 {
      at := [];
    } else {
      var n := |sources[i - 1].supports|;
      at := SupportsBehindSource(sources, id, i - 1, n);
      assert sources[..i][..i - 1] == sources[..i - 1];
      forall j: nat, k: nat | About(sources, j, k, id) && Earlier((j, k), (i, 0)) ensures (j, k) in at {
        assert Earlier((j, k), (i - 1, n));
      }
    }
  }

  /** The clusters whose sources have a qualifying support of this stance for the claim. */
  ghost function ClustersFor(sources: seq<Source>, id: string, stance: string): set<string> {
    set i: nat, k: nat | i < |sources| && k < |sources[i].supports|
      && sources[i].supports[k].legacyId == id && sources[i].supports[k].qualifies
      && sources[i].supports[k].stance == stance :: sources[i].cluster
  }

  /** The clusters whose sources have any qualifying support for the claim. */
  ghost function AllClustersFor(sources: seq<Source>, id: string): set<string> {
    set i: nat, k: nat | i < |sources| && k < |sources[i].supports|
      && sources[i].supports[k].legacyId == id && sources[i].supports[k].qualifies :: sources[i].cluster
  }

  lemma EdgeHasItsSupport(sources: seq<Source>, id: string, e: Edge) returns (i: nat, k: nat)
    requires e in EdgesFor(sources, id)
    ensures About(sources, i, k, id) && Records(e, sources[i], sources[i].supports[k])
  {
    EdgesForMembers(sources, id);
    var s :| s in sources && Gives(s, id, e);
    i :| 0 <= i < |sources| && sources[i] == s;
    k :| 0 <= k < |s.supports| && s.supports[k].legacyId == id && EdgeOf(s, s.supports[k]) == e;
  }

  lemma SupportHasItsEdge(sources: seq<Source>, id: string, i: nat, k: nat) returns (m: nat)
    requires About(sources, i, k, id)
    ensures m < |EdgesFor(sources, id)| && Records(EdgesFor(sources, id)[m], sources[i], sources[i].supports[k])
  {
    var e := EdgeOf(sources[i], sources[i].supports[k]);
    assert Gives(sources[i], id, e);
    EdgesForMembers(sources, id);
    assert e in EdgesFor(sources, id);
    m :| 0 <= m < |EdgesFor(sources, id)| && EdgesFor(sources, id)[m] == e;
  }

  lemma EdgeBacksExactly(sources: seq<Source>, id: string, stance: string, cluster: string)
    ensures Backs(EdgesFor(sources, id), cluster, stance) <==> cluster in ClustersFor(sources, id, stance)
  {
    var edges := EdgesFor(sources, id);
    if m :| 0 <= m < |edges| && edges[m].qualifies && edges[m].stance == stance && edges[m].cluster == cluster {
      var i, k := EdgeHasItsSupport(sources, id, edges[m]);
    }
    if cluster in ClustersFor(sources, id, stance) {
      var i: nat, k: nat :| About(sources, i, k, id) && sources[i].supports[k].qualifies
        && sources[i].supports[k].stance == stance && sources[i].cluster == cluster;
      var m := SupportHasItsEdge(sources, id, i, k);
    }
  }

  lemma QualifyingExactly(sources: seq<Source>, id: string, cluster: string)
    ensures cluster in Qualifying(EdgesFor(sources, id)) <==> cluster in AllClustersFor(sources, id)
  {
    var edges := EdgesFor(sources, id);
    if m :| 0 <= m < |edges| && edges[m].qualifies && edges[m].cluster == cluster {
      var i, k := EdgeHasItsSupport(sources, id, edges[m]);
    }
    if cluster in AllClustersFor(sources, id) {
      var i: nat, k: nat :| About(sources, i, k, id) && sources[i].supports[k].qualifies
        && sources[i].cluster == cluster;
      var m := SupportHasItsEdge(sources, id, i, k);
    }
  }

  lemma EdgesHaveTheClusters(sources: seq<Source>, id: string)
    ensures Corroborating(EdgesFor(sources, id)) == ClustersFor(sources, id, "corroborates")
    ensures Qualifying(EdgesFor(sources, id)) == AllClustersFor(sources, id)
    ensures HasRefutation(EdgesFor(sources, id)) <==> ClustersFor(sources, id, "refutes") != {}
  {
    var edges := EdgesFor(sources, id);
    forall c ensures c in Corroborating(edges) <==> c in ClustersFor(sources, id, "corroborates") {
      EdgeBacksExactly(sources, id, "corroborates", c);
    }
    forall c ensures c in Qualifying(edges) <==> c in AllClustersFor(sources, id) {
      QualifyingExactly(sources, id, c);
    }
    forall c ensures Backs(edges, c, "refutes") <==> c in ClustersFor(sources, id, "refutes") {
      EdgeBacksExactly(sources, id, "refutes", c);
    }
    if m :| 0 <= m < |edges| && edges[m].qualifies && edges[m].stance == "refutes" {
      assert Backs(edges, edges[m].cluster, "refutes");
    }
  }

  /** A row as its sources call for it: its edges record, in order, the supports about the claim and
      nothing else; it is a candidate if two clusters corroborate and none refutes, disputed if one does
      either; and it counts the corroborating clusters and, with its own, all qualifying ones. */
  ghost predicate ResolvedFrom(sources: seq<Source>, id: string, row: Row) {
    var corroborating, refuting := ClustersFor(sources, id, "corroborates"), ClustersFor(sources, id, "refutes");
    && row.legacyId == id
    && (exists at :: StandBehind(sources, id, row.edges, at, (|sources|, 0)))
    && (row.status == Candidate <==>
          refuting == {} && exists c, d :: c in corroborating && d in corroborating && c != d)
    && (row.status == Disputed <==> refuting != {} && corroborating != {})
    && row.corroborating == |corroborating| && row.clusters - 1 == |AllClustersFor(sources, id)|
  }

  lemma RowIsResolved(sources: seq<Source>, id: string)
    ensures ResolvedFrom(sources, id, RowOf(id, EdgesFor(sources, id)))
  {
    var at := SupportsBehind(sources, id, |sources|);
    assert sources[..|sources|] == sources;
    assert StandBehind(sources, id, EdgesFor(sources, id), at, (|sources|, 0));
    EdgesHaveTheClusters(sources, id);
    TwoElements(ClustersFor(sources, id, "corroborates"));
    if ClustersFor(sources, id, "corroborates") == {} {
      assert |ClustersFor(sources, id, "corroborates")| == 0;
    }
  }

  // ---------------------------------------------------------------- the claim predicate

  const PREDICATE_LIMIT := 200

  function Join(words: seq<string>): string {
    if words == [] then ""
    else if |words| == 1 then words[0]
    else Join(words[..|words| - 1]) + "_" + words[|words| - 1]
  }

  predicate WordChar(c: char) {
    'a' <= c <= 'z' || '0' <= c <= '9'
  }

  /** The maximal runs of lower-case letters and digits, left to right; `open` is the run read so
      far. */
  function Runs(text: string, open: string): (words: seq<string>)
    ensures forall i :: 0 <= i < |words| ==> words[i] != ""
  {
    if text == "" then (if open == "" then [] else [open])
    else if WordChar(text[0]) then Runs(text[1..], open + [text[0]])
    else (if open == "" then [] else [open]) + Runs(text[1..], "")
  }

  function Words(claim: string): (words: seq<string>)
    ensures forall i :: 0 <= i < |words| ==> words[i] != ""
  {
    Runs(claim, "")
  }

  /** Words with a gap before, between and after them. */
  function Interleaved(gaps: seq<string>, words: seq<string>): string
    requires |gaps| == |words| + 1
  {
    if words == [] then gaps[0] else gaps[0] + words[0] + Interleaved(gaps[1..], words[1..])
  }

  /** The text is these words with gaps around them: the words of lower-case letters and digits only, the
      gaps of anything else, and none between two words empty. */
  ghost predicate SplitInto(text: string, gaps: seq<string>, words: seq<string>) {
    && |gaps| == |words| + 1 && text == Interleaved(gaps, words)
    && (forall i :: 0 <= i < |words| ==>
          words[i] != "" && forall c :: c in words[i] ==> 'a' <= c <= 'z' || '0' <= c <= '9')
    && (forall i :: 0 <= i < |gaps| ==> forall c :: c in gaps[i] ==> !('a' <= c <= 'z' || '0' <= c <= '9'))
    && (forall i :: 0 < i < |words| ==> gaps[i] != "")
  }

  lemma {:induction false} RunsSplit(text: string, open: string) returns (gaps: seq<string>)
    requires forall c :: c in open ==> WordChar(c)
    ensures SplitInto(open + text, gaps, Runs(text, open))
    decreases text
  {
    if text == "" {
      assert open + text == open;
      gaps := [""];
      if open != "" {
        gaps := ["", ""];
        assert gaps[1..] == [""] && [open][1..] == [];
        assert Interleaved(gaps, [open]) == "" + open + "";
      }
    } else if WordChar(text[0]) {
      gaps := RunsSplit(text[1..], open + [text[0]]);
      assert open + [text[0]] + text[1..] == open + text;
    } else {
      gaps := RunsSplit(text[1..], "");
      assert "" + text[1..] == text[1..];
      gaps := GapBefore(text[1..], gaps, Runs(text[1..], ""), text[0]);
      assert [text[0]] + text[1..] == text;
      if open == "" {
        assert open + text == text && Runs(text, open) == [] + Runs(text[1..], "") == Runs(text[1..], "");
      } else {
        gaps := WordBefore(text, gaps, Runs(text[1..], ""), open);
      }
    }
  }

  lemma GapBefore(text: string, gaps: seq<string>, words: seq<string>, c: char) returns (wider: seq<string>)
    requires SplitInto(text, gaps, words) && !WordChar(c)
    ensures SplitInto([c] + text, wider, words) && wider[0] != ""
  {
    wider := gaps[0 := [c] + gaps[0]];
    assert wider[1..] == gaps[1..];
    assert words != [] ==>
        [c] + (gaps[0] + words[0] + Interleaved(gaps[1..], words[1..]))
        == [c] + gaps[0] + words[0] + Interleaved(gaps[1..], words[1..]);
  }

  lemma WordBefore(text: string, gaps: seq<string>, words: seq<string>, word: string) returns (more: seq<string>)
    requires SplitInto(text, gaps, words) && gaps[0] != "" && word != "" && forall c :: c in word ==> WordChar(c)
    ensures SplitInto(word + text, more, [word] + words)
  {
    more := [""] + gaps;
    assert more[1..] == gaps && ([word] + words)[1..] == words;
    assert "" + word + text == word + text;
  }

  /** The words of a claim are its maximal runs of lower-case letters and digits, in order: between and
      around them is everything else. */
  lemma WordsSplitTheClaim(claim: string) returns (gaps: seq<string>)
    ensures SplitInto(claim, gaps, Words(claim))
  {
    gaps := RunsSplit(claim, "");
    assert "" + claim == claim;
  }

  /** One underscore between two words, and nothing around them. */
  function Underscores(n: nat): seq<string> {
    seq(n + 1, i => if 0 < i < n then "_" else "")
  }

  lemma {:induction false} InterleavedSnoc(gaps: seq<string>, words: seq<string>, word: string, gap: string)
    requires |gaps| == |words| + 1
    ensures Interleaved(gaps + [gap], words + [word]) == Interleaved(gaps, words) + word + gap
  {
    assert (gaps + [gap])[1..] == gaps[1..] + [gap];
    if words == [] {
      assert (words + [word])[1..] == [];
    } else {
      assert (words + [word])[1..] == words[1..] + [word];
      InterleavedSnoc(gaps[1..], words[1..], word, gap);
      var rest := Interleaved(gaps[1..], words[1..]);
      assert gaps[0] + words[0] + (rest + word + gap) == gaps[0] + words[0] + rest + word + gap;
    }
  }

  lemma {:induction false} EndlessSnoc(gaps: seq<string>, words: seq<string>, end: string)
    requires |gaps| == |words| + 1 && gaps[|words|] == ""
    ensures Interleaved(gaps[..|words|] + [end], words) == Interleaved(gaps, words) + end
  {
    var longer := gaps[..|words|] + [end];
    if words == [] {
    } else {
      assert longer[1..] == gaps[1..][..|words| - 1] + [end];
      EndlessSnoc(gaps[1..], words[1..], end);
    }
  }

  lemma {:induction false} JoinExactly(words: seq<string>)
    ensures Join(words) == Interleaved(Underscores(|words|), words)
  {
    if |words| == 1 {
      assert words[1..] == [] && Underscores(1) == ["", ""];
      assert "" + words[0] + "" == words[0];
    } else if |words| > 1 {
      var n := |words| - 1;
      JoinExactly(words[..n]);
      EndlessSnoc(Underscores(n), words[..n], "_");
      InterleavedSnoc(Underscores(n)[..n] + ["_"], words[..n], words[n], "");
      assert Underscores(n)[..n] + ["_"] + [""] == Underscores(n + 1);
      assert words[..n] + [words[n]] == words;
    }
  }

  lemma {:induction false} JoinGrows(words: seq<string>, i: nat, j: nat)
    requires i <= j <= |words| && forall k :: 0 <= k < |words| ==> words[k] != ""
    ensures |Join(words[..i])| <= |Join(words[..j])|
    decreases j
  {
    if i < j {
      JoinGrows(words, i, j - 1);
      assert words[..j][..j - 1] == words[..j - 1];
    }
  }

  /** The first `k` words with an underscore between two. */
  function Joined(words: seq<string>, k: nat): string
    requires k <= |words|
  {
    Interleaved(Underscores(k), words[..k])
  }

  /** `evidence_predicate` on a case-folded claim: the longest prefix of the claim's words whose
      underscore join fits the field, and the ValueError exactly when that prefix is empty. */
  method EvidencePredicate(claim: string) returns (r: Option<string>, ghost k: nat)
    ensures exists gaps :: SplitInto(claim, gaps, Words(claim))
    ensures k <= |Words(claim)| && |Joined(Words(claim), k)| <= 200
    ensures forall j :: k < j <= |Words(claim)| ==> |Joined(Words(claim), j)| > 200
    ensures r == if k == 0 then None else Some(Joined(Words(claim), k))
    ensures r.None? <==> Words(claim) == [] || |Words(claim)[0]| > 200
  {
    ghost var gaps := WordsSplitTheClaim(claim);
    r, k := LongestPrefix(Words(claim));
  }

  /** The loop over the words. */
  method LongestPrefix(words: seq<string>) returns (r: Option<string>, ghost k: nat)
    requires forall i :: 0 <= i < |words| ==> words[i] != ""
    ensures k <= |words| && |Joined(words, k)| <= PREDICATE_LIMIT
    ensures forall j :: k < j <= |words| ==> |Joined(words, j)| > PREDICATE_LIMIT
    ensures r == if k == 0 then None else Some(Joined(words, k))
    ensures r.None? <==> words == [] || |words[0]| > PREDICATE_LIMIT
  {
    forall j | 0 <= j <= |words| ensures Joined(words, j) == Join(words[..j]) {
      JoinExactly(words[..j]);
    }
    var predicate_ := "";
    k := 0;
    for i := 0 to |words|
      invariant k == i && predicate_ == Join(words[..k]) && |predicate_| <= PREDICATE_LIMIT
      invariant predicate_ == "" <==> k == 0
    {
      assert words[..i + 1][..i] == words[..i] && words[..i + 1][i] == words[i];
      var candidate := if predicate_ != "" then predicate_ + "_" + words[i] else words[i];
      assert candidate == Join(words[..i + 1]);
      if |candidate| > PREDICATE_LIMIT {
        forall j | k < j <= |words| ensures |Join(words[..j])| > PREDICATE_LIMIT {
          JoinGrows(words, i + 1, j);
        }
        break;
      }
      predicate_ := candidate;
      k := i + 1;
    }
    if words != [] {
      assert Join(words[..1]) == words[0];
      if k > 0 {
        JoinGrows(words, 1, k);
      }
    }
    r := if predicate_ == "" then None else Some(predicate_);
  }
}
