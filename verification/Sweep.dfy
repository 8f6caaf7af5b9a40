/** Collecting replies that arrive after the last turn's own window has closed. */
module Sweep {
  import opened Common
  import opened World
  import opened Store
  import opened Verdicts

  const SWEEP_CAP := 120_000
  const SWEEP_POLL := 10_000
  const KEY_LENGTH := 160

  function TurnOf(row: LogRow): Turn {
    Turn(row.role, row.text, row.sid)
  }

  function TurnsOf(rows: seq<LogRow>): (turns: seq<Turn>)
    ensures |turns| == |rows|
    ensures forall i :: 0 <= i < |rows| ==> turns[i] == Turn(rows[i].role, rows[i].text, rows[i].sid)
  {
    seq(|rows|, i requires 0 <= i < |rows| => TurnOf(rows[i]))
  }

  /** Role and the head of the text: what makes two captured turns the same. */
  function Key(t: Turn): (string, string) {
    (t.role, t.text[..Min(|t.text|, KEY_LENGTH)])
  }

  /** Two turns are taken for the same exactly if they have one role and agree on the first 160
      characters of their texts. */
  lemma SameKeyExactly(a: Turn, b: Turn)
    ensures Key(a) == Key(b) <==>
            && a.role == b.role
            && (a.text == b.text || (|a.text| >= 160 && |b.text| >= 160 && a.text[..160] == b.text[..160]))
  {
    if Key(a) == Key(b) && (|a.text| < 160 || |b.text| < 160) {
      assert |Key(a).1| == |Key(b).1|;
      assert a.text[..|a.text|] == a.text && b.text[..|b.text|] == b.text;
    }
  }

  predicate InTranscripts(results: seq<StepResult>, key: (string, string)) {
    exists r :: r in results && exists t :: t in r.transcript && Key(t) == key
  }

  /** The fetched turns that no transcript has captured yet. */
  function LateTurns(results: seq<StepResult>, fetched: seq<Turn>): seq<Turn> {
    Filter((t: Turn) => !InTranscripts(results, Key(t)), fetched)
  }

  function WithLate(results: seq<StepResult>, late: seq<Turn>): (after: seq<StepResult>)
    ensures |after| == |results|
  {
    if late == [] || results == [] then results
    else
      var last := results[|results| - 1];
      results[|results| - 1 := last.(transcript := last.transcript + late, sid := None)]
  }

  /** One look of the sweep: when the log was read and how many rows it had, when the tenant's tasks
      were asked about, and whether one was said to be producing. */
  datatype Look = Look(at: nat, count: nat, probedAt: nat, producing: bool)

  /** A look is what the database really answered; a probe that fails says no. */
  predicate Real(h: nat -> Db, tenant: string, look: Look) {
    && h(look.at).up && look.count == |NewTurns(h(look.at), tenant, {})|
    && look.at <= look.probedAt
    && look.producing == (h(look.probedAt).up && TenantProducing(h(look.probedAt), tenant))
  }

  /** Every look is real, in the window, and a polling interval after the one before. */
  ghost predicate LooksReal(h: nat -> Db, tenant: string, looks: seq<Look>, from: nat, to: nat) {
    && (forall k :: 0 <= k < |looks| ==> Real(h, tenant, looks[k]) && looks[k].probedAt <= to)
    && (looks != [] ==> from + SWEEP_POLL <= looks[0].at)
    && (forall k :: 0 < k < |looks| ==> looks[k - 1].probedAt + SWEEP_POLL <= looks[k].at)
  }

  /** The sweep's reason to stop before the cap: three equal counts in a row, and nothing reported as
      producing at the last two looks. */
  ghost predicate Stable(looks: seq<Look>) {
    var n := |looks|;
    n >= 3 && looks[n - 1].count == looks[n - 2].count == looks[n - 3].count
    && !looks[n - 1].producing && !looks[n - 2].producing
  }

  /** No look was made once there was a reason to stop. */
  ghost predicate StableAtLast(looks: seq<Look>) {
    forall n :: 0 <= n < |looks| ==> !Stable(looks[..n])
  }

  function Streak(looks: seq<Look>): (k: nat)
    ensures k > 0 ==> |looks| >= 2
    ensures k >= 2 <==> Stable(looks)
  {
    if looks == [] then 0
    else
      var n := |looks|;
      if looks[n - 1].producing || n == 1 || looks[n - 1].count != looks[n - 2].count then 0
      else
        var k := Streak(looks[..n - 1]);
        assert k >= 1 <==> !looks[n - 2].producing && n >= 3 && looks[n - 2].count == looks[n - 3].count;
        k + 1
  }

  /** `_tenant_has_producing_task`: an error reads as no. */
  method TenantHasProducingTask(w: World<Db>, tenant: string) returns (b: bool, ghost at: nat)
    modifies w
    ensures old(w.now) <= at <= w.now && w.slept == old(w.slept)
    ensures b == (w.history(at).up && TenantProducing(w.history(at), tenant))
  {
    var db := w.Observe();
    at := w.now;
    b := db.up && TenantProducing(db, tenant);
  }

  /** One poll: sleep, read the log, ask about tasks; `None` if the log could not be read. */
  method LookOnce(w: World<Db>, tenant: string) returns (r: Option<seq<Turn>>, producing: bool, ghost look: Look)
    modifies w
    ensures old(w.now) + SWEEP_POLL <= look.at <= w.now && w.slept == old(w.slept) + SWEEP_POLL
    ensures r.None? <==> !w.history(look.at).up
    ensures r.Some? ==>
              && Real(w.history, tenant, look) && look.probedAt <= w.now && producing == look.producing
              && r.value == TurnsOf(NewTurns(w.history(look.at), tenant, {}))
  {
    w.Sleep(SWEEP_POLL);
    var db := w.Observe();
    ghost var at := w.now;
    if !db.up {
      return None, false, Look(at, 0, at, false);
    }
    var fetched := TurnsOf(NewTurns(db, tenant, {}));
    ghost var probedAt;
    producing, probedAt := TenantHasProducingTask(w, tenant);
    r, look := Some(fetched), Look(at, |fetched|, probedAt, producing);
  }

  /** How the polling ended: with the last look's turns; by an error reading the log at an instant; or,
      with the cap passed before any look, by having nothing to return. */
  datatype Ending = Fetched(turns: seq<Turn>) | Broken(at: nat) | NoTime

  ghost predicate SweptAs(h: nat -> Db, tenant: string, looks: seq<Look>, from: nat, to: nat, e: Ending) {
    && from <= to && LooksReal(h, tenant, looks, from, to) && StableAtLast(looks)
    && |looks| * SWEEP_POLL < SWEEP_CAP + SWEEP_POLL
    && match e
       case Fetched(turns) =>
         && looks != [] && turns == TurnsOf(NewTurns(h(looks[|looks| - 1].at), tenant, {}))
         && (Stable(looks) || to >= from + SWEEP_CAP)
       case Broken(at) => from <= at <= to && !h(at).up && !Stable(looks)
       case NoTime => looks == [] && to >= from + SWEEP_CAP
  }

  /** A look that could not read the log was slept for too. */
  function SweepSleeps(looks: seq<Look>, e: Ending): nat {
    |looks| + if e.Broken? then 1 else 0
  }

  lemma LookAdded(h: nat -> Db, tenant: string, looks: seq<Look>, from: nat, to: nat, look: Look, after: nat)
    requires LooksReal(h, tenant, looks, from, to) && from <= to <= after
    requires Real(h, tenant, look) && to + SWEEP_POLL <= look.at && look.probedAt <= after
    ensures LooksReal(h, tenant, looks + [look], from, after)
  {
    var more := looks + [look];
    forall k | 0 <= k < |more| ensures Real(h, tenant, more[k]) && more[k].probedAt <= after {
      assert k < |looks| ==> more[k] == looks[k];
    }
    forall k | 0 < k < |more| ensures more[k - 1].probedAt + SWEEP_POLL <= more[k].at {
      assert more[k - 1] == looks[k - 1] && looks[k - 1].probedAt <= to;
      assert k < |looks| ==> more[k] == looks[k];
    }
  }

  lemma StillUnstable(looks: seq<Look>, look: Look)
    requires StableAtLast(looks) && !Stable(looks)
    ensures StableAtLast(looks + [look])
  {
    var more := looks + [look];
    forall n | 0 <= n < |more| ensures !Stable(more[..n]) {
      assert more[..n] == looks[..n];
      assert n == |looks| ==> looks[..n] == looks;
    }
  }

  lemma StreakStep(looks: seq<Look>, look: Look)
    ensures Streak(looks + [look]) ==
            if look.producing || looks == [] || looks[|looks| - 1].count != look.count then 0 else Streak(looks) + 1
  {
    var more := looks + [look];
    assert more[..|more| - 1] == looks;
  }

  /** The polling loop between two looks: what it counts and what it last fetched. */
  ghost predicate Fetching(
      h: nat -> Db, tenant: string, looks: seq<Look>, from: nat, now: nat, streak: nat, lastCount: int,
      fetched: Option<seq<Turn>>)
  {
    && from <= now && LooksReal(h, tenant, looks, from, now) && StableAtLast(looks) && streak == Streak(looks)
    && if looks == [] then lastCount == -1 && fetched.None? else
         && lastCount == looks[|looks| - 1].count
         && fetched == Some(TurnsOf(NewTurns(h(looks[|looks| - 1].at), tenant, {})))
  }

  lemma FetchedOnce(
      h: nat -> Db, tenant: string, looks: seq<Look>, from: nat, now: nat, streak: nat, lastCount: int,
      fetched: Option<seq<Turn>>, look: Look, after: nat)
    requires Fetching(h, tenant, looks, from, now, streak, lastCount, fetched) && streak < 2
    requires Real(h, tenant, look) && now + SWEEP_POLL <= look.at && look.probedAt <= after
    ensures Fetching(h, tenant, looks + [look], from, after,
                     if !look.producing && look.count == lastCount then streak + 1 else 0, look.count,
                     Some(TurnsOf(NewTurns(h(look.at), tenant, {}))))
  {
    LookAdded(h, tenant, looks, from, now, look, after);
    StillUnstable(looks, look);
    StreakStep(looks, look);
  }

  lemma FetchingLater(
      h: nat -> Db, tenant: string, looks: seq<Look>, from: nat, now: nat, streak: nat, lastCount: int,
      fetched: Option<seq<Turn>>, later: nat)
    requires Fetching(h, tenant, looks, from, now, streak, lastCount, fetched) && now <= later
    ensures Fetching(h, tenant, looks, from, later, streak, lastCount, fetched)
  {
  }

  lemma FetchingEnds(
      h: nat -> Db, tenant: string, looks: seq<Look>, from: nat, now: nat, streak: nat, lastCount: int,
      fetched: Option<seq<Turn>>)
    requires Fetching(h, tenant, looks, from, now, streak, lastCount, fetched)
    requires streak >= 2 || now >= from + SWEEP_CAP
    requires |looks| * SWEEP_POLL < SWEEP_CAP + SWEEP_POLL
    ensures SweptAs(h, tenant, looks, from, now, if fetched.Some? then Fetched(fetched.value) else NoTime)
  {
  }

  /** The polling loop of `_sweep_late_replies`. */
  method FetchUntilStable(w: World<Db>, tenant: string)
      returns (r: Option<seq<Turn>>, ghost looks: seq<Look>, ghost from: nat, ghost e: Ending)
    modifies w
    ensures old(w.now) <= from && SweptAs(w.history, tenant, looks, from, w.now, e)
    ensures r == if e.Fetched? then Some(e.turns) else None
    ensures w.slept == old(w.slept) + SWEEP_POLL * SweepSleeps(looks, e)
  {
    w.Elapse();
    from := w.now;
    var deadline := w.now + SWEEP_CAP;
    var streak, lastCount: int := 0, -1;
    r, looks := None, [];
    w.Elapse();
    while w.now < deadline && streak < 2
      invariant old(w.now) <= from && deadline == from + SWEEP_CAP
      invariant w.now >= from + |looks| * SWEEP_POLL
      invariant |looks| * SWEEP_POLL < SWEEP_CAP + SWEEP_POLL
      invariant Fetching(w.history, tenant, looks, from, w.now, streak, lastCount, r)
      invariant w.slept == old(w.slept) + SWEEP_POLL * |looks|
      decreases deadline - w.now
    {
      ghost var before := w.now;
      var fetched, producing;
      ghost var look;
      fetched, producing, look := LookOnce(w, tenant);
      if fetched.None? {
        FetchingLater(w.history, tenant, looks, from, before, streak, lastCount, r, w.now);
        return None, looks, from, Broken(look.at);
      }
      FetchedOnce(w.history, tenant, looks, from, before, streak, lastCount, r, look, w.now);
      if producing {
        streak := 0;
      } else {
        streak := if |fetched.value| == lastCount then streak + 1 else 0;
      }
      looks := looks + [look];
      r, lastCount := fetched, |fetched.value|;
      ghost var looked := w.now;
      w.Elapse();
      FetchingLater(w.history, tenant, looks, from, looked, streak, lastCount, r, w.now);
    }
    FetchingEnds(w.history, tenant, looks, from, w.now, streak, lastCount, r);
    e := if r.Some? then Fetched(r.value) else NoTime;
  }

  /** What the polling leaves to add to the last transcript. */
  function LateOf(results: seq<StepResult>, e: Ending): seq<Turn> {
    if e.Fetched? then LateTurns(results, e.turns) else []
  }

  /** `_sweep_late_replies`: an error leaves everything as it was captured; otherwise the turns no
      transcript holds yet are added to the last one. */
  method SweepLateReplies(w: World<Db>, tenant: string, results: seq<StepResult>)
      returns (after: seq<StepResult>, late: seq<Turn>, ghost looks: seq<Look>, ghost from: nat, ghost e: Ending)
    modifies w
    ensures old(w.now) <= from && SweptAs(w.history, tenant, looks, from, w.now, e)
    ensures late == LateOf(results, e) && after == WithLate(results, late)
    ensures w.slept == old(w.slept) + SWEEP_POLL * SweepSleeps(looks, e)
  {
    var fetched;
    fetched, looks, from, e := FetchUntilStable(w, tenant);
    late := if fetched.None? then [] else LateTurns(results, fetched.value);
    after := WithLate(results, late);
  }

  /** After a sweep every fetched turn is in some step's transcript, and nothing that was captured
      before has been added again. */
  lemma SweepCaptures(results: seq<StepResult>, fetched: seq<Turn>, t: Turn)
    requires results != []
    ensures
      var late := LateTurns(results, fetched);
      && (t in fetched ==> InTranscripts(WithLate(results, late), Key(t)))
      && (t in late ==> t in fetched && !InTranscripts(results, Key(t)))
  {
    var late := LateTurns(results, fetched);
    var after := WithLate(results, late);
    var last := |results| - 1;
    if t in fetched {
      if InTranscripts(results, Key(t)) {
        var r :| r in results && exists u :: u in r.transcript && Key(u) == Key(t);
        var u :| u in r.transcript && Key(u) == Key(t);
        var i :| 0 <= i < |results| && results[i] == r;
        assert u in after[i].transcript;
        assert after[i] in after;
      } else {
        assert t in late;
        assert t in after[last].transcript;
        assert after[last] in after;
      }
    }
  }
}
