/** Clearing a tenant's rows by trying every catalogued DELETE a fixed number of times, swallowing
    the foreign-key failures. */
module FkSweep {
  import opened Common

  /** A row: its table, its column values, and the ids of the rows it references through foreign
      keys that do not cascade. */
  datatype Row = Row(id: nat, table: string, columns: map<string, string>, targets: set<nat>)

  /** A catalogued reference to `tenants`: one DELETE statement per (table, column). */
  datatype Reference = Reference(table: string, column: string)

  type Rows = set<Row>

  predicate Selects(st: Reference, tid: string, r: Row) {
    r.table == st.table && st.column in r.columns && r.columns[st.column] == tid
  }

  function Selection(db: Rows, st: Reference, tid: string): Rows {
    set r | r in db && Selects(st, tid, r)
  }

  /** `q` would be left dangling if `st` removed its rows. */
  ghost predicate Blocker(db: Rows, st: Reference, tid: string, q: Row) {
    q in db && !Selects(st, tid, q) && exists x :: x in Selection(db, st, tid) && x.id in q.targets
  }

  /** Removing the rows `gone` violates a foreign key. */
  predicate Violates(db: Rows, gone: Rows) {
    exists q, x :: q in db && q !in gone && x in gone && x.id in q.targets
  }

  /** One DELETE with its failure swallowed. */
  function Attempt(db: Rows, st: Reference, tid: string): Rows {
    if Violates(db, Selection(db, st, tid)) then db else db - Selection(db, st, tid)
  }

  predicate Holds(r: Row, st: Reference, tid: string) {
    r.table == st.table && st.column in r.columns && r.columns[st.column] == tid
  }

  /** A DELETE takes all the rows of its table whose column has the value, unless a row that would stay
      references one of them: then it takes none. */
  lemma AttemptExactly(db: Rows, st: Reference, tid: string, r: Row)
    ensures r in Attempt(db, st, tid) <==>
            && r in db
            && (Holds(r, st, tid) ==>
                  exists q, x :: q in db && x in db && Holds(x, st, tid) && !Holds(q, st, tid) && x.id in q.targets)
  {
    if q, x :| q in db && x in db && Holds(x, st, tid) && !Holds(q, st, tid) && x.id in q.targets {
      assert x in Selection(db, st, tid) && q !in Selection(db, st, tid);
    }
  }

  function Pass(db: Rows, sts: seq<Reference>, tid: string): Rows {
    if sts == [] then db else Attempt(Pass(db, sts[..|sts| - 1], tid), sts[|sts| - 1], tid)
  }

  function Passes(db: Rows, sts: seq<Reference>, tid: string, k: nat): Rows {
    if k == 0 then db else Pass(Passes(db, sts, tid, k - 1), sts, tid)
  }

  // ---------------------------------------------------------------- which statements succeed when

  /** Statement `i` succeeds within `k` passes: each of its blockers is removed by a statement listed
      earlier that succeeds within `k`, or by one listed later that succeeds within `k - 1`. */
  ghost predicate Goes(db: Rows, sts: seq<Reference>, tid: string, i: nat, k: nat)
    requires i < |sts|
    decreases k, i
  {
    k > 0 && forall q :: Blocker(db, sts[i], tid, q) ==> Unblocked(db, sts, tid, q, i, k)
  }

  ghost predicate Unblocked(db: Rows, sts: seq<Reference>, tid: string, q: Row, i: nat, k: nat)
    requires i < |sts| && k > 0
    decreases k, i, 0
  {
    exists j :: 0 <= j < |sts| && Selects(sts[j], tid, q) && j != i
                && if j < i then Goes(db, sts, tid, j, k) else Goes(db, sts, tid, j, k - 1)
  }

  /** `r` has gone when `i` statements of the `k`th pass have been tried. */
  ghost predicate GoneBy(db: Rows, sts: seq<Reference>, tid: string, r: Row, k: nat, i: nat)
    requires k > 0
  {
    exists j :: 0 <= j < |sts| && Selects(sts[j], tid, r)
                && if j < i then Goes(db, sts, tid, j, k) else Goes(db, sts, tid, j, k - 1)
  }

  lemma {:induction false} GoesLonger(db: Rows, sts: seq<Reference>, tid: string, i: nat, k: nat)
    requires i < |sts| && Goes(db, sts, tid, i, k)
    ensures Goes(db, sts, tid, i, k + 1)
    decreases k, i
  {
    forall q | Blocker(db, sts[i], tid, q) ensures Unblocked(db, sts, tid, q, i, k + 1) {
      var j :| 0 <= j < |sts| && Selects(sts[j], tid, q) && j != i
               && if j < i then Goes(db, sts, tid, j, k) else Goes(db, sts, tid, j, k - 1);
      if j < i {
        GoesLonger(db, sts, tid, j, k);
      } else {
        GoesLonger(db, sts, tid, j, k - 1);
      }
    }
  }

  /** Nothing still present references a row that has gone. */
  ghost predicate Intact(db: Rows, now: Rows) {
    now <= db && forall q, x :: q in now && x in db && x.id in q.targets ==> x in now
  }

  lemma AttemptKeepsIntact(db: Rows, now: Rows, st: Reference, tid: string)
    requires Intact(db, now)
    ensures Intact(db, Attempt(now, st, tid))
  {
  }

  lemma {:induction false} PassKeepsIntact(db: Rows, now: Rows, sts: seq<Reference>, tid: string)
    requires Intact(db, now)
    ensures Intact(db, Pass(now, sts, tid))
  {
    if sts != [] {
      PassKeepsIntact(db, now, sts[..|sts| - 1], tid);
      AttemptKeepsIntact(db, Pass(now, sts[..|sts| - 1], tid), sts[|sts| - 1], tid);
    }
  }

  lemma {:induction false} PassesKeepIntact(db: Rows, sts: seq<Reference>, tid: string, k: nat)
    ensures Intact(db, Passes(db, sts, tid, k))
  {
    if k > 0 {
      PassesKeepIntact(db, sts, tid, k - 1);
      PassKeepsIntact(db, Passes(db, sts, tid, k - 1), sts, tid);
    }
  }

  /** On an intact remainder a statement fails exactly if one of its original blockers is still there. */
  lemma FailsExactly(db: Rows, now: Rows, st: Reference, tid: string)
    requires Intact(db, now)
    ensures Violates(now, Selection(now, st, tid)) <==> exists q :: q in now && Blocker(db, st, tid, q)
  {
    var gone := Selection(now, st, tid);
    if q, x :| q in now && q !in gone && x in gone && x.id in q.targets {
      assert x in Selection(db, st, tid);
      assert Blocker(db, st, tid, q);
    }
    if q :| q in now && Blocker(db, st, tid, q) {
      var x :| x in Selection(db, st, tid) && x.id in q.targets;
      assert x in gone && q !in gone;
    }
  }

  lemma {:induction false} GoneExactly(db: Rows, sts: seq<Reference>, tid: string, r: Row, k: nat, i: nat)
    requires k > 0 && i <= |sts| && r in db
    ensures r in Pass(Passes(db, sts, tid, k - 1), sts[..i], tid) <==> !GoneBy(db, sts, tid, r, k, i)
    decreases k, i, 0
  {
    var start := Passes(db, sts, tid, k - 1);
    if i == 0 {
      assert sts[..0] == [];
      if k > 1 {
        GoneExactly(db, sts, tid, r, k - 1, |sts|);
        assert sts[..|sts|] == sts;
      }
    } else {
      assert sts[..i][..i - 1] == sts[..i - 1];
      GoneExactly(db, sts, tid, r, k, i - 1);
      StatementGoes(db, sts, tid, k, i - 1);
      OneMoreStatement(db, sts, tid, r, k, i - 1);
    }
  }

  /** At its turn in the `k`th pass a statement succeeds exactly if it goes within `k`. */
  lemma {:induction false} StatementGoes(db: Rows, sts: seq<Reference>, tid: string, k: nat, i: nat)
    requires k > 0 && i < |sts|
    ensures
      var before := Pass(Passes(db, sts, tid, k - 1), sts[..i], tid);
      Violates(before, Selection(before, sts[i], tid)) <==> !Goes(db, sts, tid, i, k)
    decreases k, i, 1
  {
    var before := Pass(Passes(db, sts, tid, k - 1), sts[..i], tid);
    PassesKeepIntact(db, sts, tid, k - 1);
    PassKeepsIntact(db, Passes(db, sts, tid, k - 1), sts[..i], tid);
    FailsExactly(db, before, sts[i], tid);
    forall q | Blocker(db, sts[i], tid, q) ensures q !in before <==> Unblocked(db, sts, tid, q, i, k) {
      GoneExactly(db, sts, tid, q, k, i);
    }
  }

  lemma OneMoreStatement(db: Rows, sts: seq<Reference>, tid: string, r: Row, k: nat, i: nat)
    requires k > 0 && i < |sts|
    ensures GoneBy(db, sts, tid, r, k, i + 1) <==>
            GoneBy(db, sts, tid, r, k, i) || (Selects(sts[i], tid, r) && Goes(db, sts, tid, i, k))
  {
    if Goes(db, sts, tid, i, k - 1) {
      GoesLonger(db, sts, tid, i, k - 1);
    }
    if GoneBy(db, sts, tid, r, k, i) {
      var j :| 0 <= j < |sts| && Selects(sts[j], tid, r)
               && if j < i then Goes(db, sts, tid, j, k) else Goes(db, sts, tid, j, k - 1);
      assert if j < i + 1 then Goes(db, sts, tid, j, k) else Goes(db, sts, tid, j, k - 1);
    }
  }

  /** Some statement that selects `r` succeeds within `k` passes. */
  ghost predicate Cleared(db: Rows, sts: seq<Reference>, tid: string, r: Row, k: nat) {
    exists i :: 0 <= i < |sts| && Selects(sts[i], tid, r) && Goes(db, sts, tid, i, k)
  }

  /** In every catalogue order, and for every number of passes, exactly the rows that no successful
      statement selects are left. */
  lemma LeftExactly(db: Rows, sts: seq<Reference>, tid: string, r: Row, k: nat)
    requires r in db
    ensures r in Passes(db, sts, tid, k) <==> !Cleared(db, sts, tid, r, k)
  {
    if k > 0 {
      GoneExactly(db, sts, tid, r, k, |sts|);
      assert sts[..|sts|] == sts;
    }
  }

  // ---------------------------------------------------------------- what holds a statement up

  /** Statement `j` removes a blocker of statement `i`. */
  ghost predicate Awaits(db: Rows, sts: seq<Reference>, tid: string, i: nat, j: nat) {
    i < |sts| && j < |sts| && i != j && exists q :: Blocker(db, sts[i], tid, q) && Selects(sts[j], tid, q)
  }

  /** A blocker of statement `i` is removed by no statement. */
  ghost predicate Stuck(db: Rows, sts: seq<Reference>, tid: string, i: nat) {
    i < |sts| && exists q :: Blocker(db, sts[i], tid, q) && !Swept(sts, tid, q)
  }

  ghost predicate Waits(db: Rows, sts: seq<Reference>, tid: string, path: seq<nat>) {
    forall m :: 0 < m < |path| ==> Awaits(db, sts, tid, path[m - 1], path[m])
  }

  /** How often the chain goes to a statement listed later: each time costs a pass. */
  function Late(path: seq<nat>): nat {
    if |path| < 2 then 0 else (if path[0] < path[1] then 1 else 0) + Late(path[1..])
  }

  /** A chain of statements from `i`, each awaiting the next, that goes to a later one `k` times or
      comes to one that is stuck. */
  ghost predicate HeldUp(db: Rows, sts: seq<Reference>, tid: string, path: seq<nat>, i: nat, k: nat) {
    path != [] && path[0] == i && Waits(db, sts, tid, path)
    && (Late(path) >= k || Stuck(db, sts, tid, path[|path| - 1]))
  }

  /** No row is selected by two statements. */
  ghost predicate Singly(db: Rows, sts: seq<Reference>, tid: string) {
    forall r, i, j ::
      r in db && 0 <= i < |sts| && 0 <= j < |sts| && Selects(sts[i], tid, r) && Selects(sts[j], tid, r) ==> i == j
  }

  lemma {:induction false} HeldUpChain(
      db: Rows, sts: seq<Reference>, tid: string, i: nat, k: nat)
      returns (path: seq<nat>)
    requires i < |sts| && !Goes(db, sts, tid, i, k)
    ensures HeldUp(db, sts, tid, path, i, k)
    decreases k, i
  {
    path := [i];
    if k > 0 && !Stuck(db, sts, tid, i) {
      var q :| Blocker(db, sts[i], tid, q) && !Unblocked(db, sts, tid, q, i, k);
      var j :| 0 <= j < |sts| && Selects(sts[j], tid, q);
      assert Awaits(db, sts, tid, i, j);
      var rest := HeldUpChain(db, sts, tid, j, if j < i then k else k - 1);
      path := [i] + rest;
      WaitsLonger(db, sts, tid, i, rest);
    }
  }

  lemma WaitsLonger(db: Rows, sts: seq<Reference>, tid: string, i: nat, rest: seq<nat>)
    requires rest != [] && Waits(db, sts, tid, rest) && Awaits(db, sts, tid, i, rest[0])
    ensures Waits(db, sts, tid, [i] + rest)
    ensures Late([i] + rest) == (if i < rest[0] then 1 else 0) + Late(rest)
    ensures ([i] + rest)[|rest|] == rest[|rest| - 1]
  {
    var path := [i] + rest;
    assert path[1..] == rest;
    forall m | 0 < m < |path| ensures Awaits(db, sts, tid, path[m - 1], path[m]) {
      assert path[m] == rest[m - 1];
      assert m > 1 ==> path[m - 1] == rest[m - 2];
    }
  }

  lemma {:induction false} HeldUpDoesNotGo(db: Rows, sts: seq<Reference>, tid: string, path: seq<nat>, i: nat, k: nat)
    requires Singly(db, sts, tid) && i < |sts| && HeldUp(db, sts, tid, path, i, k)
    ensures !Goes(db, sts, tid, i, k)
    decreases |path|
  {
    if |path| == 1 {
      if k > 0 {
        var q :| Blocker(db, sts[i], tid, q) && !Swept(sts, tid, q);
        assert !Unblocked(db, sts, tid, q, i, k);
      }
    } else if k > 0 {
      var j, rest := path[1], path[1..];
      assert Awaits(db, sts, tid, path[0], path[1]);
      forall m | 0 < m < |rest| ensures Awaits(db, sts, tid, rest[m - 1], rest[m]) {
        assert Awaits(db, sts, tid, path[m], path[m + 1]);
      }
      HeldUpDoesNotGo(db, sts, tid, rest, j, if j < i then k else k - 1);
      var q :| Blocker(db, sts[i], tid, q) && Selects(sts[j], tid, q);
      assert !Unblocked(db, sts, tid, q, i, k);
    }
  }

  /** Where no row is selected twice, a row selected by statement `i` is left after `k` passes exactly
      if a chain of awaited statements from `i` goes to a later one `k` times or ends stuck. */
  lemma LeftExactlyWhenHeldUp(db: Rows, sts: seq<Reference>, tid: string, r: Row, i: nat, k: nat)
    requires Singly(db, sts, tid) && r in db && i < |sts| && Selects(sts[i], tid, r)
    ensures r in Passes(db, sts, tid, k) <==> exists path :: HeldUp(db, sts, tid, path, i, k)
  {
    LeftExactly(db, sts, tid, r, k);
    if Goes(db, sts, tid, i, k) {
      forall path | HeldUp(db, sts, tid, path, i, k) ensures !Goes(db, sts, tid, i, k) {
        HeldUpDoesNotGo(db, sts, tid, path, i, k);
      }
    } else {
      var path := HeldUpChain(db, sts, tid, i, k);
    }
  }

  // ---------------------------------------------------------------- whatever the order

  /** `r` goes within `k` passes in any order: some statement selects it all of whose blockers go
      within `k - 1`. */
  ghost predicate Clears(db: Rows, sts: seq<Reference>, tid: string, r: Row, k: nat)
    decreases k
  {
    k > 0 && exists i :: 0 <= i < |sts| && Selects(sts[i], tid, r)
                         && forall q :: Blocker(db, sts[i], tid, q) ==> Clears(db, sts, tid, q, k - 1)
  }

  lemma {:induction false} PassShrinks(db: Rows, sts: seq<Reference>, tid: string)
    ensures Pass(db, sts, tid) <= db
  {
    if sts != [] {
      PassShrinks(db, sts[..|sts| - 1], tid);
    }
  }

  lemma {:induction false} PassesShrink(db: Rows, sts: seq<Reference>, tid: string, k: nat)
    ensures Passes(db, sts, tid, k) <= db
  {
    if k > 0 {
      PassesShrink(db, sts, tid, k - 1);
      PassShrinks(Passes(db, sts, tid, k - 1), sts, tid);
    }
  }

  lemma {:induction false} ClearsInSmaller(
      db: Rows, smaller: Rows, sts: seq<Reference>, tid: string, r: Row, k: nat)
    requires smaller <= db && Clears(db, sts, tid, r, k)
    ensures Clears(smaller, sts, tid, r, k)
    decreases k
  {
    var i :| 0 <= i < |sts| && Selects(sts[i], tid, r)
             && forall q :: Blocker(db, sts[i], tid, q) ==> Clears(db, sts, tid, q, k - 1);
    forall q | Blocker(smaller, sts[i], tid, q) ensures Clears(smaller, sts, tid, q, k - 1) {
      assert Blocker(db, sts[i], tid, q) by {
        var x :| x in Selection(smaller, sts[i], tid) && x.id in q.targets;
        assert x in Selection(db, sts[i], tid);
      }
      ClearsInSmaller(db, smaller, sts, tid, q, k - 1);
    }
  }

  lemma {:induction false} ClearsMeansCleared(db: Rows, sts: seq<Reference>, tid: string, r: Row, k: nat)
    requires Clears(db, sts, tid, r, k)
    ensures Cleared(db, sts, tid, r, k)
    decreases k
  {
    var i :| 0 <= i < |sts| && Selects(sts[i], tid, r)
             && forall q :: Blocker(db, sts[i], tid, q) ==> Clears(db, sts, tid, q, k - 1);
    forall q | Blocker(db, sts[i], tid, q) ensures Unblocked(db, sts, tid, q, i, k) {
      ClearsMeansCleared(db, sts, tid, q, k - 1);
      var j :| 0 <= j < |sts| && Selects(sts[j], tid, q) && Goes(db, sts, tid, j, k - 1);
      GoesLonger(db, sts, tid, j, k - 1);
    }
    assert Goes(db, sts, tid, i, k);
  }

  /** Whatever order the catalogue lists the references in, `k` passes remove every row that clears
      within `k`. */
  lemma KPassesClear(db: Rows, sts: seq<Reference>, tid: string, r: Row, k: nat)
    requires Clears(db, sts, tid, r, k)
    ensures r !in Passes(db, sts, tid, k)
  {
    PassesShrink(db, sts, tid, k);
    if r in db {
      ClearsMeansCleared(db, sts, tid, r, k);
      LeftExactly(db, sts, tid, r, k);
    }
  }

  // ---------------------------------------------------------------- chains of referencing rows

  ghost predicate Swept(sts: seq<Reference>, tid: string, r: Row) {
    exists i :: 0 <= i < |sts| && Selects(sts[i], tid, r)
  }

  /** Each row of the chain keeps a statement that selects its predecessor from succeeding. */
  ghost predicate Chain(db: Rows, sts: seq<Reference>, tid: string, path: seq<Row>) {
    forall j :: 0 < j < |path| ==> HeldBack(db, sts, tid, path[j - 1], path[j])
  }

  ghost predicate HeldBack(db: Rows, sts: seq<Reference>, tid: string, r: Row, q: Row) {
    exists i :: 0 <= i < |sts| && Selects(sts[i], tid, r) && Blocker(db, sts[i], tid, q)
  }

  /** A row that no chain of `k` referencing rows, and no chain to a row outside the sweep, holds
      back clears within `k` passes. */
  lemma {:induction false} ShortChainsClear(db: Rows, sts: seq<Reference>, tid: string, r: Row, k: nat)
    requires forall path :: Chain(db, sts, tid, path) && path != [] && path[0] == r ==>
               |path| <= k && Swept(sts, tid, path[|path| - 1])
    ensures Clears(db, sts, tid, r, k)
    decreases k
  {
    assert Chain(db, sts, tid, [r]);
    assert [r][0] == r;
    assert Swept(sts, tid, r);
    var i :| 0 <= i < |sts| && Selects(sts[i], tid, r);
    forall q | Blocker(db, sts[i], tid, q) ensures Clears(db, sts, tid, q, k - 1) {
      forall path | Chain(db, sts, tid, path) && path != [] && path[0] == q
        ensures |path| <= k - 1 && Swept(sts, tid, path[|path| - 1])
      {
        var longer := [r] + path;
        forall j | 0 < j < |longer| ensures HeldBack(db, sts, tid, longer[j - 1], longer[j]) {
          if j > 1 {
            assert longer[j - 1] == path[j - 2] && longer[j] == path[j - 1];
          }
        }
        assert Chain(db, sts, tid, longer) && longer[0] == r;
        assert longer[|longer| - 1] == path[|path| - 1];
      }
      assert Chain(db, sts, tid, [q]) && [q][0] == q;
      ShortChainsClear(db, sts, tid, q, k - 1);
    }
  }

  // ---------------------------------------------------------------- the bound is tight

  /** Every statement is listed before all statements that could remove one of its blockers. */
  ghost predicate Adverse(db: Rows, sts: seq<Reference>, tid: string) {
    forall i, j, q ::
      0 <= i < |sts| && 0 <= j < |sts| && Blocker(db, sts[i], tid, q) && Selects(sts[j], tid, q) ==> i < j
  }

  lemma {:induction false} AdverseMeansClears(db: Rows, sts: seq<Reference>, tid: string, r: Row, i: nat, k: nat)
    requires Adverse(db, sts, tid) && i < |sts| && Selects(sts[i], tid, r) && Goes(db, sts, tid, i, k)
    ensures Clears(db, sts, tid, r, k)
    decreases k
  {
    forall q | Blocker(db, sts[i], tid, q) ensures Clears(db, sts, tid, q, k - 1) {
      assert Unblocked(db, sts, tid, q, i, k);
      var j :| 0 <= j < |sts| && Selects(sts[j], tid, q) && Goes(db, sts, tid, j, k - 1);
      AdverseMeansClears(db, sts, tid, q, j, k - 1);
    }
  }

  /** In an adverse order the bound is exact: a row is left after `k` passes if and only if it does
      not clear within `k`. */
  lemma AdverseOrderIsExact(db: Rows, sts: seq<Reference>, tid: string, r: Row, k: nat)
    requires Adverse(db, sts, tid) && r in db
    ensures r in Passes(db, sts, tid, k) <==> !Clears(db, sts, tid, r, k)
  {
    LeftExactly(db, sts, tid, r, k);
    if Clears(db, sts, tid, r, k) {
      ClearsMeansCleared(db, sts, tid, r, k);
    }
    if Cleared(db, sts, tid, r, k) {
      var i :| 0 <= i < |sts| && Selects(sts[i], tid, r) && Goes(db, sts, tid, i, k);
      AdverseMeansClears(db, sts, tid, r, i, k);
    }
  }

  // A chain of n + 1 tables, each referencing the one before, listed referenced-first.

  function ChainTable(i: nat): string {
    seq(i, _ => 'x')
  }

  function ChainRow(i: nat, tid: string): Row {
    Row(i, ChainTable(i), map["tenant_id" := tid], if i == 0 then {} else {i - 1})
  }

  function ChainRows(n: nat, tid: string): Rows {
    set i: nat | i <= n :: ChainRow(i, tid)
  }

  function ChainReferences(n: nat): seq<Reference> {
    seq(n + 1, i requires 0 <= i => Reference(ChainTable(i), "tenant_id"))
  }

  lemma ChainSelects(n: nat, tid: string, i: nat, j: nat)
    requires i <= n
    ensures Selects(ChainReferences(n)[i], tid, ChainRow(j, tid)) <==> i == j
  {
    assert |ChainTable(i)| == i && |ChainTable(j)| == j;
  }

  lemma ChainBlockers(n: nat, tid: string, i: nat, q: Row)
    requires i <= n
    ensures Blocker(ChainRows(n, tid), ChainReferences(n)[i], tid, q) <==> i < n && q == ChainRow(i + 1, tid)
  {
    var db, st := ChainRows(n, tid), ChainReferences(n)[i];
    forall j: nat ensures Selects(st, tid, ChainRow(j, tid)) <==> i == j {
      ChainSelects(n, tid, i, j);
    }
    if i < n && q == ChainRow(i + 1, tid) {
      assert ChainRow(i, tid) in Selection(db, st, tid);
    }
  }

  lemma {:induction false} ChainClears(n: nat, tid: string, i: nat, k: nat)
    requires i <= n
    ensures Clears(ChainRows(n, tid), ChainReferences(n), tid, ChainRow(i, tid), k) <==> n - i < k
    decreases k
  {
    var db, sts := ChainRows(n, tid), ChainReferences(n);
    if k > 0 {
      forall j: nat | j <= n ensures Selects(sts[j], tid, ChainRow(i, tid)) <==> j == i {
        ChainSelects(n, tid, j, i);
      }
      forall q ensures Blocker(db, sts[i], tid, q) <==> i < n && q == ChainRow(i + 1, tid) {
        ChainBlockers(n, tid, i, q);
      }
      if i < n {
        ChainClears(n, tid, i + 1, k - 1);
      }
      if n - i < k {
        assert Selects(sts[i], tid, ChainRow(i, tid));
        assert forall q :: Blocker(db, sts[i], tid, q) ==> Clears(db, sts, tid, q, k - 1);
      } else if i < n {
        assert Blocker(db, sts[i], tid, ChainRow(i + 1, tid));
      }
    }
  }

  /** For every `n` some order of an `n`-step chain leaves rows behind after `n` passes, and one more
      pass removes them; for `n == 2` this is the two-pass loop failing. */
  lemma ChainDefeatsPasses(n: nat, tid: string)
    ensures ChainRow(0, tid) in Passes(ChainRows(n, tid), ChainReferences(n), tid, n)
    ensures Passes(ChainRows(n, tid), ChainReferences(n), tid, n + 1) == {}
  {
    var db, sts := ChainRows(n, tid), ChainReferences(n);
    assert Adverse(db, sts, tid) by {
      forall i, j, q | 0 <= i < |sts| && 0 <= j < |sts| && Blocker(db, sts[i], tid, q) && Selects(sts[j], tid, q)
        ensures i < j
      {
        ChainBlockers(n, tid, i, q);
        ChainSelects(n, tid, j, i + 1);
      }
    }
    ChainClears(n, tid, 0, n);
    AdverseOrderIsExact(db, sts, tid, ChainRow(0, tid), n);
    PassesShrink(db, sts, tid, n + 1);
    forall i: nat | i <= n ensures ChainRow(i, tid) !in Passes(db, sts, tid, n + 1) {
      ChainClears(n, tid, i, n + 1);
      KPassesClear(db, sts, tid, ChainRow(i, tid), n + 1);
    }
  }

  // ---------------------------------------------------------------- the staging script

  datatype Outcome = Raised | Left(clear: bool)

  predicate OnNumber(number: string, r: Row) {
    r.table == "tenants" && (
      ("whatsapp_number" in r.columns && r.columns["whatsapp_number"] == number)
      || ("owner_phone" in r.columns && r.columns["owner_phone"] == number))
  }

  const TENANT_BY_ID := Reference("tenants", "id")

  /** The primary key is never null. */
  predicate Keyed(db: Rows) {
    forall r :: r in db && r.table == "tenants" ==> "id" in r.columns
  }

  /** A tenant's row with the number in one of its two number columns. */
  ghost predicate Carries(r: Row, number: string) {
    r.table == "tenants" &&
    exists column :: (column == "whatsapp_number" || column == "owner_phone")
                     && column in r.columns && r.columns[column] == number
  }

  /** The id of a tenant that carries the number. */
  ghost predicate Owner(db: Rows, number: string, tid: string) {
    exists r :: r in db && Carries(r, number) && "id" in r.columns && r.columns["id"] == tid
  }

  lemma OnNumberExactly(number: string, r: Row)
    ensures OnNumber(number, r) <==> Carries(r, number)
  {
  }

  /** Every row that references the tenant without cascading clears within the two passes. */
  ghost predicate Clearable(db: Rows, sts: seq<Reference>, tid: string) {
    forall q :: Blocker(db, TENANT_BY_ID, tid, q) ==> Clears(db, sts, tid, q, 2)
  }

  /** Only rows selected for an owner of the number, by the sweep or by the final delete. */
  ghost predicate ForOwner(db: Rows, sts: seq<Reference>, number: string, x: Row) {
    exists tid :: Owner(db, number, tid) && (Swept(sts, tid, x) || Selects(TENANT_BY_ID, tid, x))
  }

  lemma {:induction false} PassRemovesOnlySwept(db: Rows, sts: seq<Reference>, tid: string, x: Row)
    requires x in db && x !in Pass(db, sts, tid)
    ensures Swept(sts, tid, x)
  {
    if sts != [] {
      var last := |sts| - 1;
      if x in Pass(db, sts[..last], tid) {
        assert Selects(sts[last], tid, x);
      } else {
        PassRemovesOnlySwept(db, sts[..last], tid, x);
        var i :| 0 <= i < last && Selects(sts[..last][i], tid, x);
        assert Selects(sts[i], tid, x);
      }
    }
  }

  lemma {:induction false} PassesRemoveOnlySwept(db: Rows, sts: seq<Reference>, tid: string, k: nat, x: Row)
    requires x in db && x !in Passes(db, sts, tid, k)
    ensures Swept(sts, tid, x)
  {
    if k > 0 {
      if x in Passes(db, sts, tid, k - 1) {
        PassRemovesOnlySwept(Passes(db, sts, tid, k - 1), sts, tid, x);
      } else {
        PassesRemoveOnlySwept(db, sts, tid, k - 1, x);
      }
    }
  }

  /** Every blocker of the tenant's own row is cleared by the two passes in the order they are made. */
  ghost predicate Sweepable(db: Rows, sts: seq<Reference>, tid: string) {
    forall q :: Blocker(db, TENANT_BY_ID, tid, q) ==> Cleared(db, sts, tid, q, 2)
  }

  /** After the sweep the tenant's own delete succeeds exactly if the tenant is sweepable. */
  lemma SweptTenantDeletes(db: Rows, sts: seq<Reference>, tid: string)
    ensures
      var after := Passes(db, sts, tid, 2);
      Violates(after, Selection(after, TENANT_BY_ID, tid)) <==> !Sweepable(db, sts, tid)
  {
    var after := Passes(db, sts, tid, 2);
    PassesKeepIntact(db, sts, tid, 2);
    FailsExactly(db, after, TENANT_BY_ID, tid);
    forall q | Blocker(db, TENANT_BY_ID, tid, q) ensures q in after <==> !Cleared(db, sts, tid, q, 2) {
      LeftExactly(db, sts, tid, q, 2);
    }
  }

  /** A tenant that clears in any order is sweepable, in a database that may already have lost rows. */
  lemma ClearableIsSweepable(db: Rows, now: Rows, sts: seq<Reference>, tid: string)
    requires now <= db && Clearable(db, sts, tid)
    ensures Sweepable(now, sts, tid)
  {
    forall q | Blocker(now, TENANT_BY_ID, tid, q) ensures Cleared(now, sts, tid, q, 2) {
      var x :| x in Selection(now, TENANT_BY_ID, tid) && x.id in q.targets;
      assert x in Selection(db, TENANT_BY_ID, tid);
      assert Blocker(db, TENANT_BY_ID, tid, q);
      ClearsInSmaller(db, now, sts, tid, q, 2);
      ClearsMeansCleared(now, sts, tid, q, 2);
    }
  }

  class Database {
    var rows: Rows

    constructor (rows: Rows)
      ensures this.rows == rows
    {
      this.rows := rows;
    }

    /** One DELETE inside its own try/except. */
    method TryDelete(st: Reference, tid: string)
      modifies this
      ensures rows == Attempt(old(rows), st, tid)
    {
      var gone := Selection(rows, st, tid);
      if !Violates(rows, gone) {
        rows := rows - gone;
      }
    }

    /** The two passes over the catalogued references. */
    method Sweep(sts: seq<Reference>, tid: string)
      modifies this
      ensures rows == Passes(old(rows), sts, tid, 2)
    {
      for pass := 0 to 2
        invariant rows == Passes(old(rows), sts, tid, pass)
      {
        for i := 0 to |sts|
          invariant rows == Pass(Passes(old(rows), sts, tid, pass), sts[..i], tid)
        {
          TryDelete(sts[i], tid);
          assert sts[..i + 1][..i] == sts[..i];
        }
        assert sts[..|sts|] == sts;
      }
    }

    /** The sweep of one tenant and its own, unguarded, delete. */
    method ClearTenant(sts: seq<Reference>, tid: string) returns (ok: bool)
      modifies this
      ensures rows <= old(rows)
      ensures forall x :: x in old(rows) && x !in rows ==> Swept(sts, tid, x) || Selects(TENANT_BY_ID, tid, x)
      ensures ok ==> forall x :: x in rows ==> !Selects(TENANT_BY_ID, tid, x)
      ensures ok <==> Sweepable(old(rows), sts, tid)
    {
      Sweep(sts, tid);
      PassesShrink(old(rows), sts, tid, 2);
      forall x | x in old(rows) && x !in rows ensures Swept(sts, tid, x) {
        PassesRemoveOnlySwept(old(rows), sts, tid, 2, x);
      }
      SweptTenantDeletes(old(rows), sts, tid);
      var gone := Selection(rows, TENANT_BY_ID, tid);
      ok := !Violates(rows, gone);
      if ok {
        rows := rows - gone;
      }
    }

    /** `_clear_owner_number` */
    method ClearOwnerNumber(sts: seq<Reference>, number: string) returns (r: Outcome)
      requires Keyed(rows)
      modifies this
      ensures rows <= old(rows)
      ensures r.Left? ==> r.clear && forall t :: t in rows ==> !Carries(t, number)
      ensures forall x :: x in old(rows) && x !in rows ==> ForOwner(old(rows), sts, number, x)
      ensures (forall tid :: Owner(old(rows), number, tid) ==> Clearable(old(rows), sts, tid)) ==> r == Left(true)
    {
      var ids := OwnerIds(rows, number);
      ghost var db, all := rows, ids;
      OwnersOnNumber(db, number);
      while ids != {}
        invariant rows <= db && ids <= all
        invariant forall x, tid :: x in rows && tid in all && tid !in ids ==> !Selects(TENANT_BY_ID, tid, x)
        invariant forall x :: x in db && x !in rows ==> ForOwner(db, sts, number, x)
        decreases ids
      {
        var tid :| tid in ids;
        ids := ids - {tid};
        assert Owner(db, number, tid);
        ghost var before := rows;
        var ok := ClearTenant(sts, tid);
        forall x | x in db && x !in rows ensures ForOwner(db, sts, number, x) {
          if x in before {
            assert Swept(sts, tid, x) || Selects(TENANT_BY_ID, tid, x);
          }
        }
        if !ok {
          assert !Clearable(db, sts, tid) by {
            if Clearable(db, sts, tid) {
              ClearableIsSweepable(db, before, sts, tid);
            }
          }
          return Raised;
        }
      }
      NobodyLeft(db, rows, number);
      var left := set t | t in rows && OnNumber(number, t);
      return Left(|left| == 0);
    }
  }

  function OwnerIds(db: Rows, number: string): set<string>
    requires Keyed(db)
  {
    set t | t in db && OnNumber(number, t) :: t.columns["id"]
  }

  lemma OwnersOnNumber(db: Rows, number: string)
    requires Keyed(db)
    ensures forall tid :: tid in OwnerIds(db, number) <==> Owner(db, number, tid)
  {
    forall t ensures OnNumber(number, t) <==> Carries(t, number) {
      OnNumberExactly(number, t);
    }
  }

  lemma NobodyLeft(db: Rows, now: Rows, number: string)
    requires Keyed(db) && now <= db
    requires forall x, tid :: x in now && tid in OwnerIds(db, number) ==> !Selects(TENANT_BY_ID, tid, x)
    ensures forall t :: t in now ==> !OnNumber(number, t) && !Carries(t, number)
  {
    forall t | t in now ensures !OnNumber(number, t) && !Carries(t, number) {
      OnNumberExactly(number, t);
      if OnNumber(number, t) {
        assert t.columns["id"] in OwnerIds(db, number);
        assert Selects(TENANT_BY_ID, t.columns["id"], t);
      }
    }
  }
}
