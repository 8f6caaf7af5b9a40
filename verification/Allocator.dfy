/** The locked counter protocol shared by the migration-number and the ticket-number allocators,
    as interleaved steps of any number of processes. */
module Allocator {
  import opened Common

  /** What the counter file holds. `Unreadable` is the truncated file, or any other text that is
      not a number: a read of it counts as 0. */
  datatype CounterFile = Missing | Unreadable | Number(n: nat)

  function Stored(c: CounterFile): nat {
    match c
    case Number(n) => n
    case _ => 0
  }

  /** The largest element, or 0 for the empty set. */
  ghost function Top(s: set<nat>): (m: nat)
    ensures forall x :: x in s ==> x <= m
    ensures s == {} ==> m == 0
    ensures s != {} ==> m in s
  {
    if s == {} then 0
    else
      var x :| x in s;
      var rest := Top(s - {x});
      assert forall y :: y in s ==> y == x || y in s - {x};
      if rest < x then x else rest
  }

  lemma TopMonotone(a: set<nat>, b: set<nat>)
    requires a <= b
    ensures Top(a) <= Top(b)
  {
  }

  /** The number `reconcile_next` settles on. */
  function Settled(c: CounterFile, scanMax: nat): nat {
    if Stored(c) < scanMax + 1 then scanMax + 1 else Stored(c)
  }

  datatype Mode = Allocate | Peek

  /** Where a process stands; a process that holds no lock has no entry at all. A directory scan is
      not atomic: `stable` are the files present during the whole scan, `seen` all those present at
      some moment of it. */
  datatype Pc =
    | Locked
    | Scanning(stable: set<nat>, seen: set<nat>)
    | Scanned(expected: nat)
    | Reading(expected: nat)
    | Correcting(expected: nat)
    | Corrected(expected: nat)
    | Reconciled(current: nat)
    | Claiming(current: nat)
    | Claimed(current: nat)

  datatype Process = Process(mode: Mode, pc: Pc)

  datatype State = State(
    counter: CounterFile,
    files: set<nat>,
    procs: map<nat, Process>,
    orphans: set<nat>,  // processes holding a lock file that has since been removed
    issued: seq<nat>,
    journal: seq<nat>,
    lapses: nat)  // claims that never reached the journal

  /** What the environment may do besides allocating, peeking, adding files and killing a process
      that is not in the middle of a write. */
  datatype Hazards = Hazards(
    overlappingPeeks: bool,  // shared locks are really held together
    removals: bool,          // numbered files may disappear from the directory
    deletions: bool,         // the counter file may be deleted
    tornWrites: bool,        // a process may die between truncating and writing
    rewrites: bool,          // the counter file may be set to another number from outside
    lockLosses: bool,        // the lock file may be removed and made anew
    failedReads: bool)       // reading the counter may fail with an error, which counts as 0

  datatype Action =
    | Lock(p: nat, mode: Mode)
    | ScanBegin(p: nat)
    | ScanEnd(p: nat, found: set<nat>)
    | TestExists(p: nat)
    | ReadCounter(p: nat)
    | FailRead(p: nat)
    | TruncateToCorrect(p: nat)
    | WriteCorrection(p: nat)
    | TruncateToClaim(p: nat)
    | WriteClaim(p: nat)
    | Journal(p: nat, written: bool)
    | Unlock(p: nat)
    | Crash(p: nat)
    | AddFile(n: nat)
    | RemoveFile(n: nat)
    | DeleteCounter
    | RewriteCounter(n: nat)
    | LoseLockFile

  /** Those who hold the removed file's lock exclude nobody who locks the new one. */
  ghost predicate MayLock(h: Hazards, s: State, mode: Mode) {
    forall q :: q in s.procs && q !in s.orphans ==>
      mode.Peek? && s.procs[q].mode.Peek? && h.overlappingPeeks
  }

  predicate MidWrite(pc: Pc) {
    pc.Corrected? || pc.Claiming?
  }

  ghost predicate Enabled(h: Hazards, s: State, a: Action) {
    match a
    case Lock(p, mode) => p !in s.procs && MayLock(h, s, mode)
    case ScanBegin(p) => p in s.procs && s.procs[p].pc.Locked?
    case ScanEnd(p, found) =>
      p in s.procs && s.procs[p].pc.Scanning? && s.procs[p].pc.stable <= found <= s.procs[p].pc.seen
    case TestExists(p) => p in s.procs && s.procs[p].pc.Scanned?
    case ReadCounter(p) => p in s.procs && s.procs[p].pc.Reading?
    case FailRead(p) => h.failedReads && p in s.procs && s.procs[p].pc.Reading?
    case TruncateToCorrect(p) => p in s.procs && s.procs[p].pc.Correcting?
    case WriteCorrection(p) => p in s.procs && s.procs[p].pc.Corrected?
    case TruncateToClaim(p) => p in s.procs && s.procs[p].pc.Reconciled? && s.procs[p].mode.Allocate?
    case WriteClaim(p) => p in s.procs && s.procs[p].pc.Claiming?
    case Journal(p, _) => p in s.procs && s.procs[p].pc.Claimed?
    case Unlock(p) => p in s.procs && s.procs[p].pc.Reconciled? && s.procs[p].mode.Peek?
    case Crash(p) => p in s.procs && (h.tornWrites || !MidWrite(s.procs[p].pc))
    case AddFile(n) => true
    case RemoveFile(n) => h.removals
    case DeleteCounter => h.deletions
    case RewriteCounter(n) => h.rewrites
    case LoseLockFile => h.lockLosses
  }

  ghost function Goto(s: State, p: nat, pc: Pc): State
    requires p in s.procs
  {
    s.(procs := s.procs[p := s.procs[p].(pc := pc)])
  }

  ghost function Leave(s: State, p: nat): State {
    s.(procs := s.procs - {p}, orphans := s.orphans - {p})
  }

  ghost function Noticing(procs: map<nat, Process>, n: nat): map<nat, Process> {
    map p | p in procs ::
      if procs[p].pc.Scanning? then procs[p].(pc := procs[p].pc.(seen := procs[p].pc.seen + {n}))
      else procs[p]
  }

  ghost function Losing(procs: map<nat, Process>, n: nat): map<nat, Process> {
    map p | p in procs ::
      if procs[p].pc.Scanning? then procs[p].(pc := procs[p].pc.(stable := procs[p].pc.stable - {n}))
      else procs[p]
  }

  ghost function Step(h: Hazards, s: State, a: Action): State
    requires Enabled(h, s, a)
  {
    match a
    case Lock(p, mode) => s.(procs := s.procs[p := Process(mode, Locked)])
    case ScanBegin(p) => Goto(s, p, Scanning(s.files, s.files))
    case ScanEnd(p, found) => Goto(s, p, Scanned(Top(found) + 1))
    case TestExists(p) =>
      var e := s.procs[p].pc.expected;
      Goto(s, p, if s.counter.Missing? then Correcting(e) else Reading(e))
    case ReadCounter(p) =>
      var e := s.procs[p].pc.expected;
      Goto(s, p, if Stored(s.counter) < e then Correcting(e) else Reconciled(Stored(s.counter)))
    case FailRead(p) => Goto(s, p, Correcting(s.procs[p].pc.expected))
    case TruncateToCorrect(p) =>
      Goto(s, p, Corrected(s.procs[p].pc.expected)).(counter := Unreadable)
    case WriteCorrection(p) =>
      var e := s.procs[p].pc.expected;
      Goto(s, p, Reconciled(e)).(counter := Number(e))
    case TruncateToClaim(p) =>
      Goto(s, p, Claiming(s.procs[p].pc.current)).(counter := Unreadable)
    case WriteClaim(p) =>
      var c := s.procs[p].pc.current;
      Goto(s, p, Claimed(c)).(counter := Number(c + 1), issued := s.issued + [c])
    case Journal(p, written) =>
      var c := s.procs[p].pc.current;
      if written then Leave(s, p).(journal := s.journal + [c])
      else Leave(s, p).(lapses := s.lapses + 1)
    case Unlock(p) => Leave(s, p)
    case Crash(p) =>
      if s.procs[p].pc.Claimed? then Leave(s, p).(lapses := s.lapses + 1) else Leave(s, p)
    case AddFile(n) => s.(files := s.files + {n}, procs := Noticing(s.procs, n))
    case RemoveFile(n) => s.(files := s.files - {n}, procs := Losing(s.procs, n))
    case DeleteCounter => s.(counter := Missing)
    case RewriteCounter(n) => s.(counter := Number(n))
    case LoseLockFile => s.(orphans := s.procs.Keys)
  }

  ghost predicate Initial(s: State) {
    s.procs == map[] && s.orphans == {} && s.issued == [] && s.journal == [] && s.lapses == 0
  }

  /** The `i`th action leads from the `i`th state to the next. */
  ghost predicate StepAt(h: Hazards, acts: seq<Action>, states: seq<State>, i: nat)
    requires i < |acts| && |states| == |acts| + 1
  {
    Enabled(h, states[i], acts[i]) && Step(h, states[i], acts[i]) == states[i + 1]
  }

  ghost predicate Trace(h: Hazards, s: State, acts: seq<Action>, t: State, states: seq<State>) {
    && |states| == |acts| + 1 && states[0] == s && states[|acts|] == t
    && forall i :: 0 <= i < |acts| ==> StepAt(h, acts, states, i)
  }

  /** `acts` leads from `s` to `t`. */
  ghost predicate Run(h: Hazards, s: State, acts: seq<Action>, t: State) {
    exists states: seq<State> :: Trace(h, s, acts, t, states)
  }

  lemma NoSteps(h: Hazards, s: State)
    ensures Run(h, s, [], s)
  {
    assert Trace(h, s, [], s, [s]);
  }

  lemma LastStep(h: Hazards, s: State, acts: seq<Action>, t: State) returns (m: State)
    requires Run(h, s, acts, t) && acts != []
    ensures var last := |acts| - 1;
            Run(h, s, acts[..last], m) && Enabled(h, m, acts[last]) && Step(h, m, acts[last]) == t
  {
    var last := |acts| - 1;
    var states: seq<State> :| Trace(h, s, acts, t, states);
    m := states[last];
    assert StepAt(h, acts, states, last);
    var front := states[..last + 1];
    forall i | 0 <= i < last ensures StepAt(h, acts[..last], front, i) {
      assert StepAt(h, acts, states, i);
    }
    assert Trace(h, s, acts[..last], m, front);
  }

  lemma Then(h: Hazards, s: State, acts: seq<Action>, m: State, a: Action) returns (longer: seq<Action>, t: State)
    requires Run(h, s, acts, m) && Enabled(h, m, a)
    ensures longer == acts + [a] && t == Step(h, m, a) && Run(h, s, longer, t)
  {
    var states: seq<State> :| Trace(h, s, acts, m, states);
    longer, t := acts + [a], Step(h, m, a);
    var more := states + [t];
    forall i | 0 <= i < |longer| ensures StepAt(h, longer, more, i) {
      if i < |acts| {
        assert StepAt(h, acts, states, i);
      }
    }
    assert Trace(h, s, longer, t, more);
  }

  lemma {:induction false} Concat(h: Hazards, s: State, first: seq<Action>, m: State, second: seq<Action>, t: State)
    requires Run(h, s, first, m) && Run(h, m, second, t)
    ensures Run(h, s, first + second, t)
    decreases |second|
  {
    if second == [] {
      assert first + second == first;
    } else {
      var last := |second| - 1;
      var u := LastStep(h, m, second, t);
      Concat(h, s, first, m, second[..last], u);
      var longer, v := Then(h, s, first + second[..last], u, second[last]);
      assert longer == first + second;
    }
  }

  // ---------------------------------------------------------------- what a scan may see

  ghost predicate IsScanning(s: State, p: nat) {
    p in s.procs && s.procs[p].pc.Scanning?
  }

  /** A step during a scan: files that go are no longer stable, files that come are seen. */
  lemma ScanGoesOn(h: Hazards, m: State, a: Action, p: nat)
    requires Enabled(h, m, a) && IsScanning(m, p) && IsScanning(Step(h, m, a), p)
    requires m.procs[p].pc.stable <= m.files <= m.procs[p].pc.seen
    ensures
      var t := Step(h, m, a);
      && t.procs[p].pc.stable == m.procs[p].pc.stable * t.files
      && t.procs[p].pc.seen == m.procs[p].pc.seen + t.files
  {
  }

  /** In every state since the scan began. */
  ghost predicate AlwaysThere(states: seq<State>, x: nat) {
    forall i :: 1 <= i < |states| ==> x in states[i].files
  }

  ghost predicate OnceThere(states: seq<State>, x: nat) {
    exists i :: 1 <= i < |states| && x in states[i].files
  }

  lemma {:induction false} ScanHolds(h: Hazards, s: State, acts: seq<Action>, t: State, states: seq<State>, p: nat)
    requires acts != [] && acts[0] == ScanBegin(p) && Trace(h, s, acts, t, states)
    requires forall i :: 1 <= i < |states| ==> IsScanning(states[i], p)
    ensures IsScanning(t, p)
    ensures forall x :: x in t.procs[p].pc.stable <==> AlwaysThere(states, x)
    ensures forall x :: x in t.procs[p].pc.seen <==> OnceThere(states, x)
    ensures t.procs[p].pc.stable <= t.files <= t.procs[p].pc.seen
    decreases |acts|
  {
    var last := |acts| - 1;
    assert StepAt(h, acts, states, last) && IsScanning(states[last + 1], p);
    if last == 0 {
      assert forall x :: OnceThere(states, x) <==> x in states[1].files;
    } else {
      var front := states[..last + 1];
      forall i | 0 <= i < last ensures StepAt(h, acts[..last], front, i) {
        assert StepAt(h, acts, states, i);
      }
      ScanHolds(h, s, acts[..last], states[last], front, p);
      ScanGoesOn(h, states[last], acts[last], p);
      OneMoreState(front, t);
      assert states == front + [t];
    }
  }

  lemma OneMoreState(states: seq<State>, t: State)
    requires states != []
    ensures forall x :: AlwaysThere(states + [t], x) <==> AlwaysThere(states, x) && x in t.files
    ensures forall x :: OnceThere(states + [t], x) <==> OnceThere(states, x) || x in t.files
  {
    var more := states + [t];
    forall x ensures AlwaysThere(more, x) <==> AlwaysThere(states, x) && x in t.files {
      if AlwaysThere(more, x) {
        assert forall i :: 1 <= i < |states| ==> states[i] == more[i];
        assert more[|states|] == t;
      }
    }
    forall x ensures OnceThere(more, x) <==> OnceThere(states, x) || x in t.files {
      if i :| 1 <= i < |states| && x in states[i].files {
        assert more[i] == states[i];
      }
      if x in t.files {
        assert more[|states|] == t;
      }
    }
  }

  /** A scan is not atomic: whatever happens meanwhile, it may end with exactly those listings that leave
      out no file present all the time since it began and hold none that was present at no time. */
  lemma ScanSeesExactly(
      h: Hazards, s: State, acts: seq<Action>, t: State, states: seq<State>, p: nat, found: set<nat>)
    requires acts != [] && acts[0] == ScanBegin(p) && Trace(h, s, acts, t, states)
    requires forall i :: 1 <= i < |states| ==> IsScanning(states[i], p)
    ensures Enabled(h, t, ScanEnd(p, found)) <==>
              && (forall x :: AlwaysThere(states, x) ==> x in found)
              && (forall x :: x in found ==> OnceThere(states, x))
  {
    ScanHolds(h, s, acts, t, states, p);
    assert IsScanning(states[|states| - 1], p);
  }

  // ---------------------------------------------------------------- the invariant

  ghost predicate Above(s: State, x: nat) {
    forall i :: 0 <= i < |s.issued| ==> s.issued[i] < x
  }

  /** The condition on the environment under which the allocator keeps its promise. */
  predicate Safe(h: Hazards) {
    && !h.deletions && !h.tornWrites && !h.rewrites && !h.lockLosses && !h.failedReads
    && !(h.removals && h.overlappingPeeks)
  }

  /** What stands between a new claim and the old ones: the counter, and as long as numbered files
      stay on disk also the directory. */
  ghost function Reserve(h: Hazards, s: State): nat {
    if h.removals then Stored(s.counter) else Max(Stored(s.counter), Top(s.files) + 1)
  }

  ghost predicate PcInv(h: Hazards, s: State, pr: Process) {
    var alone := h.removals || pr.mode.Allocate?;
    match pr.pc
    case Locked => true
    case Scanning(stable, seen) =>
      && stable <= seen
      && (!h.removals ==> seen <= s.files)
      && (alone ==> Above(s, Max(Stored(s.counter), Top(stable) + 1)))
    case Scanned(e) =>
      (!h.removals ==> e <= Top(s.files) + 1) && (alone ==> Above(s, Max(Stored(s.counter), e)))
    case Reading(e) =>
      (!h.removals ==> e <= Top(s.files) + 1) && (alone ==> Above(s, Max(Stored(s.counter), e)))
    case Correcting(e) =>
      (!h.removals ==> e <= Top(s.files) + 1) && Above(s, if alone then e else Top(s.files) + 1)
    case Corrected(e) =>
      (!h.removals ==> e <= Top(s.files) + 1) && Above(s, if alone then e else Top(s.files) + 1)
    case Reconciled(c) => alone ==> Above(s, c)
    case Claiming(c) => pr.mode.Allocate? && Above(s, c)
    case Claimed(c) => pr.mode.Allocate? && |s.issued| > 0 && s.issued[|s.issued| - 1] == c
  }

  /** The counter is truncated and only the process that did it still knows the number. */
  ghost predicate Torn(h: Hazards, s: State) {
    exists p :: p in s.procs && (s.procs[p].pc.Claiming? || (h.removals && s.procs[p].pc.Corrected?))
  }

  ghost predicate Exclusion(h: Hazards, s: State) {
    forall p, q :: p in s.procs && q in s.procs && p != q ==>
      s.procs[p].mode.Peek? && s.procs[q].mode.Peek? && h.overlappingPeeks
  }

  ghost predicate Inv(h: Hazards, s: State) {
    && Exclusion(h, s) && s.orphans == {}
    && (forall p :: p in s.procs ==> PcInv(h, s, s.procs[p]))
    && (Torn(h, s) || Above(s, Reserve(h, s)))
    && StrictlyIncreasing(s.issued)
  }

  lemma {:induction false} RunKeepsInv(h: Hazards, s: State, acts: seq<Action>, t: State)
    requires Safe(h) && Initial(s) && Run(h, s, acts, t)
    ensures Inv(h, t)
    decreases |acts|
  {
    if acts != [] {
      var last := |acts| - 1;
      var m := LastStep(h, s, acts, t);
      RunKeepsInv(h, s, acts[..last], m);
      StepKeepsInv(h, m, acts[last]);
    }
  }

  lemma StepKeepsInv(h: Hazards, s: State, a: Action)
    requires Safe(h) && Inv(h, s) && Enabled(h, s, a)
    ensures Inv(h, Step(h, s, a))
  {
    match a
    case Lock(p, mode) => LockKeepsInv(h, s, p, mode);
    case ScanBegin(p) => ScanBeginKeepsInv(h, s, p);
    case ScanEnd(p, found) => ScanEndKeepsInv(h, s, p, found);
    case TestExists(p) => TestExistsKeepsInv(h, s, p);
    case ReadCounter(p) => ReadKeepsInv(h, s, p);
    case FailRead(p) =>
    case TruncateToCorrect(p) => TruncateToCorrectKeepsInv(h, s, p);
    case WriteCorrection(p) => WriteCorrectionKeepsInv(h, s, p);
    case TruncateToClaim(p) => TruncateToClaimKeepsInv(h, s, p);
    case WriteClaim(p) => WriteClaimKeepsInv(h, s, p);
    case Journal(p, written) => LeaveKeepsInv(h, s, a, p);
    case Unlock(p) => LeaveKeepsInv(h, s, a, p);
    case Crash(p) => LeaveKeepsInv(h, s, a, p);
    case AddFile(n) => AddFileKeepsInv(h, s, n);
    case RemoveFile(n) => RemoveFileKeepsInv(h, s, n);
    case DeleteCounter =>
    case RewriteCounter(n) =>
    case LoseLockFile =>
  }

  lemma LockKeepsInv(h: Hazards, s: State, p: nat, mode: Mode)
    requires Safe(h) && Inv(h, s) && Enabled(h, s, Lock(p, mode))
    ensures Inv(h, Step(h, s, Lock(p, mode)))
  {
  }

  lemma SamePcInv(h: Hazards, s: State, t: State, pr: Process)
    requires s.counter == t.counter && s.files == t.files && s.issued == t.issued
    ensures PcInv(h, s, pr) == PcInv(h, t, pr)
  {
  }

  lemma GotoKeepsReserve(h: Hazards, s: State, p: nat, pc: Pc)
    requires p in s.procs && !MidWrite(s.procs[p].pc)
    ensures Torn(h, s) ==> Torn(h, Goto(s, p, pc))
    ensures Above(s, Reserve(h, s)) ==> Above(Goto(s, p, pc), Reserve(h, Goto(s, p, pc)))
  {
    if Torn(h, s) {
      var q :| q in s.procs && (s.procs[q].pc.Claiming? || (h.removals && s.procs[q].pc.Corrected?));
      assert Goto(s, p, pc).procs[q] == s.procs[q];
    }
  }

  /** A process that is not in the middle of a write may move on as long as its own part of the
      invariant holds where it arrives. */
  lemma GotoKeepsInv(h: Hazards, s: State, p: nat, pc: Pc)
    requires Inv(h, s) && p in s.procs && !MidWrite(s.procs[p].pc)
    requires PcInv(h, s, s.procs[p].(pc := pc))
    ensures Inv(h, Goto(s, p, pc))
  {
    var t := Goto(s, p, pc);
    forall q | q in t.procs ensures PcInv(h, t, t.procs[q]) {
      SamePcInv(h, s, t, t.procs[q]);
    }
    GotoKeepsReserve(h, s, p, pc);
  }

  lemma ScanBeginKeepsInv(h: Hazards, s: State, p: nat)
    requires Safe(h) && Inv(h, s) && Enabled(h, s, ScanBegin(p))
    ensures Inv(h, Step(h, s, ScanBegin(p)))
  {
  }

  lemma ScanEndKeepsInv(h: Hazards, s: State, p: nat, found: set<nat>)
    requires Safe(h) && Inv(h, s) && Enabled(h, s, ScanEnd(p, found))
    ensures Inv(h, Step(h, s, ScanEnd(p, found)))
  {
    TopMonotone(s.procs[p].pc.stable, found);
    if !h.removals {
      TopMonotone(found, s.files);
    }
    GotoKeepsInv(h, s, p, Scanned(Top(found) + 1));
  }

  lemma TestExistsKeepsInv(h: Hazards, s: State, p: nat)
    requires Safe(h) && Inv(h, s) && Enabled(h, s, TestExists(p))
    ensures Inv(h, Step(h, s, TestExists(p)))
  {
  }

  lemma ReadKeepsInv(h: Hazards, s: State, p: nat)
    requires Safe(h) && Inv(h, s) && Enabled(h, s, ReadCounter(p))
    ensures Inv(h, Step(h, s, ReadCounter(p)))
  {
    var e := s.procs[p].pc.expected;
    GotoKeepsInv(h, s, p, if Stored(s.counter) < e then Correcting(e) else Reconciled(Stored(s.counter)));
  }

  lemma TruncateToCorrectKeepsInv(h: Hazards, s: State, p: nat)
    requires Safe(h) && Inv(h, s) && Enabled(h, s, TruncateToCorrect(p))
    ensures Inv(h, Step(h, s, TruncateToCorrect(p)))
  {
    var t := Step(h, s, TruncateToCorrect(p));
    assert p in t.procs && t.procs[p].pc.Corrected?;
  }

  lemma WriteCorrectionKeepsInv(h: Hazards, s: State, p: nat)
    requires Safe(h) && Inv(h, s) && Enabled(h, s, WriteCorrection(p))
    ensures Inv(h, Step(h, s, WriteCorrection(p)))
  {
  }

  lemma TruncateToClaimKeepsInv(h: Hazards, s: State, p: nat)
    requires Safe(h) && Inv(h, s) && Enabled(h, s, TruncateToClaim(p))
    ensures Inv(h, Step(h, s, TruncateToClaim(p)))
  {
    var t := Step(h, s, TruncateToClaim(p));
    assert p in t.procs && t.procs[p].pc.Claiming?;
  }

  lemma WriteClaimKeepsInv(h: Hazards, s: State, p: nat)
    requires Safe(h) && Inv(h, s) && Enabled(h, s, WriteClaim(p))
    ensures Inv(h, Step(h, s, WriteClaim(p)))
  {
  }

  lemma LeaveKeepsInv(h: Hazards, s: State, a: Action, p: nat)
    requires Safe(h) && Inv(h, s) && Enabled(h, s, a)
    requires a == Unlock(p) || a == Crash(p) || a == Journal(p, true) || a == Journal(p, false)
    ensures Inv(h, Step(h, s, a))
  {
    var t := Step(h, s, a);
    forall q | q in t.procs ensures PcInv(h, t, t.procs[q]) {
      SamePcInv(h, s, t, s.procs[q]);
    }
    LeaverIsNotTorn(h, s, t, p);
  }

  lemma LeaverIsNotTorn(h: Hazards, s: State, t: State, p: nat)
    requires p in s.procs && !MidWrite(s.procs[p].pc) && t.procs == s.procs - {p}
    ensures Torn(h, s) ==> Torn(h, t)
  {
    if Torn(h, s) {
      var q :| q in s.procs && (s.procs[q].pc.Claiming? || (h.removals && s.procs[q].pc.Corrected?));
      assert q in t.procs && t.procs[q] == s.procs[q];
    }
  }

  lemma AddFileKeepsInv(h: Hazards, s: State, n: nat)
    requires Safe(h) && Inv(h, s) && Enabled(h, s, AddFile(n))
    ensures Inv(h, Step(h, s, AddFile(n)))
  {
    var t := Step(h, s, AddFile(n));
    TopMonotone(s.files, t.files);
    forall p | p in t.procs ensures PcInv(h, t, t.procs[p]) {
      AddFileKeepsPcInv(h, s, n, s.procs[p]);
    }
    if p :| p in s.procs && (s.procs[p].pc.Claiming? || (h.removals && s.procs[p].pc.Corrected?)) {
      assert p in t.procs && t.procs[p] == s.procs[p];
    }
  }

  lemma AddFileKeepsPcInv(h: Hazards, s: State, n: nat, pr: Process)
    requires PcInv(h, s, pr)
    ensures
      var t := s.(files := s.files + {n}, procs := Noticing(s.procs, n));
      PcInv(h, t, if pr.pc.Scanning? then pr.(pc := pr.pc.(seen := pr.pc.seen + {n})) else pr)
  {
    TopMonotone(s.files, s.files + {n});
    var t := s.(files := s.files + {n}, procs := Noticing(s.procs, n));
    assert forall x, y :: x <= y && Above(s, x) ==> Above(t, y);
  }

  lemma RemoveFileKeepsInv(h: Hazards, s: State, n: nat)
    requires Safe(h) && Inv(h, s) && Enabled(h, s, RemoveFile(n))
    ensures Inv(h, Step(h, s, RemoveFile(n)))
  {
    var t := Step(h, s, RemoveFile(n));
    assert Torn(h, s) ==> Torn(h, t) by {
      forall p | p in s.procs && !s.procs[p].pc.Scanning? ensures p in t.procs && t.procs[p] == s.procs[p] {}
    }
  }

  // ---------------------------------------------------------------- what every run promises

  /** Under a safe environment every reachable state has handed out strictly increasing numbers,
      and whenever no write is in progress the counter (or, while files stay on disk, the larger of
      counter and directory) still exceeds all of them. */
  lemma IssuedStrictlyIncrease(h: Hazards, s: State, acts: seq<Action>, t: State)
    requires Safe(h) && Initial(s) && Run(h, s, acts, t)
    ensures StrictlyIncreasing(t.issued)
    ensures t.procs == map[] ==> Above(t, Reserve(h, t))
  {
    RunKeepsInv(h, s, acts, t);
  }

  /** Nobody whose lock still counts is around, and `p` is free. */
  ghost predicate Alone(s: State, p: nat) {
    p !in s.procs && p !in s.orphans && s.procs.Keys <= s.orphans
  }

  /** An allocation that nobody interrupts, from any counter file and any directory. */
  lemma SoloAllocate(h: Hazards, s: State, p: nat) returns (acts: seq<Action>, t: State)
    requires Alone(s, p)
    ensures Run(h, s, acts, t)
    ensures
      var n := Settled(s.counter, Top(s.files));
      t == s.(counter := Number(n + 1), issued := s.issued + [n], journal := s.journal + [n])
  {
    var n := Settled(s.counter, Top(s.files));
    acts, t := SoloReconcile(h, s, p, Allocate);
    ClaimAlone(h, s.(counter := Number(n)), p, n);
    acts, t := Then(h, s, acts, t, TruncateToClaim(p));
    acts, t := Then(h, s, acts, t, WriteClaim(p));
    acts, t := Then(h, s, acts, t, Journal(p, true));
  }

  ghost function With(s: State, p: nat, mode: Mode, pc: Pc): State {
    s.(procs := s.procs[p := Process(mode, pc)])
  }

  lemma ClaimAlone(h: Hazards, s: State, p: nat, n: nat)
    requires p !in s.procs && p !in s.orphans
    ensures
      var m, claiming := With(s, p, Allocate, Reconciled(n)), With(s.(counter := Unreadable), p, Allocate, Claiming(n));
      var claimed := With(s.(counter := Number(n + 1), issued := s.issued + [n]), p, Allocate, Claimed(n));
      && Enabled(h, m, TruncateToClaim(p)) && Step(h, m, TruncateToClaim(p)) == claiming
      && Enabled(h, claiming, WriteClaim(p)) && Step(h, claiming, WriteClaim(p)) == claimed
      && Enabled(h, claimed, Journal(p, true))
      && Step(h, claimed, Journal(p, true))
         == s.(counter := Number(n + 1), issued := s.issued + [n], journal := s.journal + [n])
  {
    GotoAlone(s, p, Allocate, Reconciled(n), Claiming(n));
    GotoAlone(s.(counter := Unreadable), p, Allocate, Claiming(n), Claimed(n));
    LeaveAlone(s.(counter := Number(n + 1), issued := s.issued + [n]), p, Allocate, Claimed(n));
  }

  lemma LeaveAlone(s: State, p: nat, mode: Mode, pc: Pc)
    requires p !in s.procs && p !in s.orphans
    ensures Leave(With(s, p, mode, pc), p) == s
  {
    assert s.procs[p := Process(mode, pc)] - {p} == s.procs;
    assert s.orphans - {p} == s.orphans;
  }

  /** `reconcile_next` run by one process alone: it settles on the larger of the counter and the
      directory's next number, and leaves that number in the counter file. */
  lemma SoloReconcile(h: Hazards, s: State, p: nat, mode: Mode) returns (acts: seq<Action>, t: State)
    requires Alone(s, p)
    ensures Run(h, s, acts, t)
    ensures
      var n := Settled(s.counter, Top(s.files));
      t == With(s.(counter := Number(n)), p, mode, Reconciled(n))
  {
    var e := Top(s.files) + 1;
    acts, t := SoloScan(h, s, p, mode);
    TestAlone(h, s, p, mode, e);
    acts, t := Then(h, s, acts, t, TestExists(p));
    if !s.counter.Missing? {
      ReadAlone(h, s, p, mode, e);
      acts, t := Then(h, s, acts, t, ReadCounter(p));
    }
    if Stored(s.counter) < e {
      CorrectAlone(h, s, p, mode, e);
      acts, t := Then(h, s, acts, t, TruncateToCorrect(p));
      acts, t := Then(h, s, acts, t, WriteCorrection(p));
    }
  }

  lemma GotoAlone(s: State, p: nat, mode: Mode, pc: Pc, next: Pc)
    ensures Goto(With(s, p, mode, pc), p, next) == With(s, p, mode, next)
  {
    assert Goto(With(s, p, mode, pc), p, next).procs == With(s, p, mode, next).procs;
  }

  lemma TestAlone(h: Hazards, s: State, p: nat, mode: Mode, e: nat)
    ensures
      var m := With(s, p, mode, Scanned(e));
      Enabled(h, m, TestExists(p))
      && Step(h, m, TestExists(p)) == With(s, p, mode, if s.counter.Missing? then Correcting(e) else Reading(e))
  {
    GotoAlone(s, p, mode, Scanned(e), if s.counter.Missing? then Correcting(e) else Reading(e));
  }

  lemma ReadAlone(h: Hazards, s: State, p: nat, mode: Mode, e: nat)
    ensures
      var m := With(s, p, mode, Reading(e));
      var next := if Stored(s.counter) < e then Correcting(e) else Reconciled(Stored(s.counter));
      Enabled(h, m, ReadCounter(p)) && Step(h, m, ReadCounter(p)) == With(s, p, mode, next)
  {
    GotoAlone(s, p, mode, Reading(e), if Stored(s.counter) < e then Correcting(e) else Reconciled(Stored(s.counter)));
  }

  lemma CorrectAlone(h: Hazards, s: State, p: nat, mode: Mode, e: nat)
    ensures
      var m, truncated := With(s, p, mode, Correcting(e)), With(s.(counter := Unreadable), p, mode, Corrected(e));
      && Enabled(h, m, TruncateToCorrect(p)) && Step(h, m, TruncateToCorrect(p)) == truncated
      && Enabled(h, truncated, WriteCorrection(p))
      && Step(h, truncated, WriteCorrection(p)) == With(s.(counter := Number(e)), p, mode, Reconciled(e))
  {
    GotoAlone(s, p, mode, Correcting(e), Corrected(e));
    GotoAlone(s.(counter := Unreadable), p, mode, Corrected(e), Reconciled(e));
  }

  lemma LockAlone(h: Hazards, s: State, p: nat, mode: Mode)
    requires Alone(s, p)
    ensures Enabled(h, s, Lock(p, mode)) && Step(h, s, Lock(p, mode)) == With(s, p, mode, Locked)
  {
  }

  lemma ScanBeginAlone(h: Hazards, s: State, p: nat, mode: Mode)
    ensures
      var m := With(s, p, mode, Locked);
      Enabled(h, m, ScanBegin(p)) && Step(h, m, ScanBegin(p)) == With(s, p, mode, Scanning(s.files, s.files))
  {
    GotoAlone(s, p, mode, Locked, Scanning(s.files, s.files));
  }

  lemma ScanEndAlone(h: Hazards, s: State, p: nat, mode: Mode)
    ensures
      var m := With(s, p, mode, Scanning(s.files, s.files));
      Enabled(h, m, ScanEnd(p, s.files))
      && Step(h, m, ScanEnd(p, s.files)) == With(s, p, mode, Scanned(Top(s.files) + 1))
  {
    GotoAlone(s, p, mode, Scanning(s.files, s.files), Scanned(Top(s.files) + 1));
  }

  lemma SoloScan(h: Hazards, s: State, p: nat, mode: Mode) returns (acts: seq<Action>, t: State)
    requires Alone(s, p)
    ensures Run(h, s, acts, t) && t == With(s, p, mode, Scanned(Top(s.files) + 1))
  {
    NoSteps(h, s);
    LockAlone(h, s, p, mode);
    acts, t := Then(h, s, [], s, Lock(p, mode));
    ScanBeginAlone(h, s, p, mode);
    acts, t := Then(h, s, acts, t, ScanBegin(p));
    ScanEndAlone(h, s, p, mode);
    acts, t := Then(h, s, acts, t, ScanEnd(p, s.files));
  }

  /** Peeking consumes nothing: an uninterrupted peek sees exactly the number that the next
      uninterrupted allocation hands out. */
  lemma PeekThenAllocate(h: Hazards, s: State, p: nat, q: nat)
      returns (peeked: nat, acts: seq<Action>, m: State, more: seq<Action>, t: State)
    requires Alone(s, p) && Alone(s, q)
    ensures Run(h, s, acts, m) && Run(h, m, more, t)
    ensures m.procs == s.procs && m.issued == s.issued && m.files == s.files
    ensures t.issued == s.issued + [peeked]
  {
    peeked := Settled(s.counter, Top(s.files));
    acts, m := SoloReconcile(h, s, p, Peek);
    LeaveAlone(s.(counter := Number(peeked)), p, Peek, Reconciled(peeked));
    acts, m := Then(h, s, acts, m, Unlock(p));
    more, t := SoloAllocate(h, m, q);
  }

  // ---------------------------------------------------------------- the unsafe environments

  const FRESH := State(Missing, {}, map[], {}, [], [], 0)

  lemma TopEmpty()
    ensures Top({}) == 0
  {
  }

  lemma DeletionRepeatsANumber(h: Hazards) returns (acts: seq<Action>, t: State)
    requires h.deletions
    ensures Run(h, FRESH, acts, t) && t.issued == [1, 1]
  {
    TopEmpty();
    var first, m := SoloAllocate(h, FRESH, 0);
    first, m := Then(h, FRESH, first, m, DeleteCounter);
    var second, u := SoloAllocate(h, m, 0);
    Concat(h, FRESH, first, m, second, u);
    acts, t := first + second, u;
  }

  lemma DieTorn(h: Hazards, s: State, p: nat, n: nat)
    requires h.tornWrites && p !in s.procs && p !in s.orphans
    ensures
      var claiming := With(s.(counter := Unreadable), p, Allocate, Claiming(n));
      Enabled(h, claiming, Crash(p)) && Step(h, claiming, Crash(p)) == s.(counter := Unreadable)
  {
    LeaveAlone(s.(counter := Unreadable), p, Allocate, Claiming(n));
  }

  lemma TornWriteRepeatsANumber(h: Hazards) returns (acts: seq<Action>, t: State)
    requires h.tornWrites
    ensures Run(h, FRESH, acts, t) && t.issued == [1, 1]
  {
    TopEmpty();
    var first, m := SoloAllocate(h, FRESH, 0);
    var second, u := SoloReconcile(h, m, 0, Allocate);
    ClaimAlone(h, m, 0, 2);
    second, u := Then(h, m, second, u, TruncateToClaim(0));
    DieTorn(h, m, 0, 2);
    second, u := Then(h, m, second, u, Crash(0));
    Concat(h, FRESH, first, m, second, u);
    var third, v := SoloAllocate(h, u, 0);
    Concat(h, FRESH, first + second, u, third, v);
    acts, t := first + second + third, v;
  }

  /** The tracked counter file is set back from outside, as by checking out its older version. */
  lemma RewriteRepeatsANumber(h: Hazards) returns (acts: seq<Action>, t: State)
    requires h.rewrites
    ensures Run(h, FRESH, acts, t) && t.issued == [1, 1]
  {
    TopEmpty();
    var first, m := SoloAllocate(h, FRESH, 0);
    first, m := Then(h, FRESH, first, m, RewriteCounter(1));
    var second, u := SoloAllocate(h, m, 0);
    Concat(h, FRESH, first, m, second, u);
    acts, t := first + second, u;
  }

  lemma FailReadAlone(h: Hazards, s: State, p: nat, mode: Mode, e: nat)
    requires h.failedReads
    ensures
      var m := With(s, p, mode, Reading(e));
      Enabled(h, m, FailRead(p)) && Step(h, m, FailRead(p)) == With(s, p, mode, Correcting(e))
  {
    GotoAlone(s, p, mode, Reading(e), Correcting(e));
  }

  /** With no file on disk yet, a claimant that cannot read the counter takes it for 0 and corrects it
      back to 1. */
  lemma FailedReadRepeatsANumber(h: Hazards) returns (acts: seq<Action>, t: State)
    requires h.failedReads
    ensures Run(h, FRESH, acts, t) && t.issued == [1, 1]
  {
    TopEmpty();
    var first, m := SoloAllocate(h, FRESH, 0);
    var second, u := SoloScan(h, m, 0, Allocate);
    TestAlone(h, m, 0, Allocate, 1);
    second, u := Then(h, m, second, u, TestExists(0));
    FailReadAlone(h, m, 0, Allocate, 1);
    second, u := Then(h, m, second, u, FailRead(0));
    CorrectAlone(h, m, 0, Allocate, 1);
    second, u := Then(h, m, second, u, TruncateToCorrect(0));
    second, u := Then(h, m, second, u, WriteCorrection(0));
    ClaimAlone(h, m.(counter := Number(1)), 0, 1);
    second, u := Then(h, m, second, u, TruncateToClaim(0));
    second, u := Then(h, m, second, u, WriteClaim(0));
    Concat(h, FRESH, first, m, second, u);
    acts, t := first + second, u;
  }

  /** A claimant is about to claim; the lock file is removed; another locks the new file and claims
      the same number. */
  lemma LockLossRepeatsANumber(h: Hazards) returns (acts: seq<Action>, t: State)
    requires h.lockLosses
    ensures Run(h, FRESH, acts, t) && t.issued == [1, 1]
  {
    TopEmpty();
    var first, m := SoloReconcile(h, FRESH, 0, Allocate);
    first, m := Then(h, FRESH, first, m, LoseLockFile);
    var second, u := SoloAllocate(h, m, 1);
    Concat(h, FRESH, first, m, second, u);
    assert u.procs[0] == Process(Allocate, Reconciled(1));
    acts, t := Then(h, FRESH, first + second, u, TruncateToClaim(0));
    acts, t := Then(h, FRESH, acts, t, WriteClaim(0));
  }

  /** A claimant has yet to write its journal line; the lock file is removed; another claims the
      next number and writes its line first. */
  lemma LockLossReordersTheJournal(h: Hazards) returns (acts: seq<Action>, t: State)
    requires h.lockLosses
    ensures Run(h, FRESH, acts, t) && t.procs == map[] && t.issued == [1, 2] && t.journal == [2, 1]
  {
    TopEmpty();
    var start := FRESH.(counter := Number(1));
    var first, m := SoloReconcile(h, FRESH, 0, Allocate);
    ClaimAlone(h, start, 0, 1);
    first, m := Then(h, FRESH, first, m, TruncateToClaim(0));
    first, m := Then(h, FRESH, first, m, WriteClaim(0));
    first, m := Then(h, FRESH, first, m, LoseLockFile);
    var second, u := SoloAllocate(h, m, 1);
    Concat(h, FRESH, first, m, second, u);
    assert u.procs == map[0 := Process(Allocate, Claimed(1))];
    acts, t := Then(h, FRESH, first + second, u, Journal(0, true));
  }

  /** Two peeks at once. */
  ghost function Two(s: State, a: Pc, b: Pc): State {
    s.(procs := map[0 := Process(Peek, a), 1 := Process(Peek, b)])
  }

  lemma FirstGoes(s: State, a: Pc, b: Pc, next: Pc)
    ensures Goto(Two(s, a, b), 0, next) == Two(s, next, b)
  {
    assert Goto(Two(s, a, b), 0, next).procs == Two(s, next, b).procs;
  }

  lemma SecondGoes(s: State, a: Pc, b: Pc, next: Pc)
    ensures Goto(Two(s, a, b), 1, next) == Two(s, a, next)
  {
    assert Goto(Two(s, a, b), 1, next).procs == Two(s, a, next).procs;
  }

  lemma SecondLocks(h: Hazards, s: State, a: Pc)
    requires h.overlappingPeeks && s.procs == map[]
    ensures var m := With(s, 0, Peek, a);
            Enabled(h, m, Lock(1, Peek)) && Step(h, m, Lock(1, Peek)) == Two(s, a, Locked)
  {
    var m := With(s, 0, Peek, a);
    assert m.procs[1 := Process(Peek, Locked)] == Two(s, a, Locked).procs;
  }

  lemma SecondScans(h: Hazards, s: State, a: Pc)
    requires s.files == {5}
    ensures var m, scanning := Two(s, a, Locked), Two(s, a, Scanning({5}, {5}));
            && Enabled(h, m, ScanBegin(1)) && Step(h, m, ScanBegin(1)) == scanning
            && Enabled(h, scanning, ScanEnd(1, {5})) && Step(h, scanning, ScanEnd(1, {5})) == Two(s, a, Scanned(6))
  {
    assert Top({5}) == 5;
    SecondGoes(s, a, Locked, Scanning({5}, {5}));
    SecondGoes(s, a, Scanning({5}, {5}), Scanned(6));
  }

  lemma SecondReads(h: Hazards, s: State, a: Pc)
    requires s.counter == Number(2)
    ensures var m, reading, correcting := Two(s, a, Scanned(6)), Two(s, a, Reading(6)), Two(s, a, Correcting(6));
            && Enabled(h, m, TestExists(1)) && Step(h, m, TestExists(1)) == reading
            && Enabled(h, reading, ReadCounter(1)) && Step(h, reading, ReadCounter(1)) == correcting
            && Enabled(h, correcting, TruncateToCorrect(1))
            && Step(h, correcting, TruncateToCorrect(1)) == Two(s, a, Corrected(6)).(counter := Unreadable)
  {
    SecondGoes(s, a, Scanned(6), Reading(6));
    SecondGoes(s, a, Reading(6), Correcting(6));
    SecondGoes(s, a, Correcting(6), Corrected(6));
  }

  lemma SecondPeekTruncates(h: Hazards, s: State, acts0: seq<Action>, m: State) returns (acts: seq<Action>, t: State)
    requires h.overlappingPeeks && m.procs == map[] && Run(h, s, acts0, With(m, 0, Peek, Scanned(1)))
    requires m.counter == Number(2) && m.files == {5}
    ensures Run(h, s, acts, t) && t == Two(m, Scanned(1), Corrected(6)).(counter := Unreadable)
  {
    SecondLocks(h, m, Scanned(1));
    acts, t := Then(h, s, acts0, With(m, 0, Peek, Scanned(1)), Lock(1, Peek));
    SecondScans(h, m, Scanned(1));
    acts, t := Then(h, s, acts, t, ScanBegin(1));
    acts, t := Then(h, s, acts, t, ScanEnd(1, {5}));
    SecondReads(h, m, Scanned(1));
    acts, t := Then(h, s, acts, t, TestExists(1));
    acts, t := Then(h, s, acts, t, ReadCounter(1));
    acts, t := Then(h, s, acts, t, TruncateToCorrect(1));
  }

  lemma FirstReadsTruncated(h: Hazards, s: State)
    requires s.counter == Unreadable
    ensures var m, reading := Two(s, Scanned(1), Corrected(6)), Two(s, Reading(1), Corrected(6));
            && Enabled(h, m, TestExists(0)) && Step(h, m, TestExists(0)) == reading
            && Enabled(h, reading, ReadCounter(0))
            && Step(h, reading, ReadCounter(0)) == Two(s, Correcting(1), Corrected(6))
  {
    FirstGoes(s, Scanned(1), Corrected(6), Reading(1));
    FirstGoes(s, Reading(1), Corrected(6), Correcting(1));
  }

  lemma BothCorrect(h: Hazards, s: State)
    ensures var m := Two(s, Correcting(1), Corrected(6));
            var written := Two(s.(counter := Number(6)), Correcting(1), Reconciled(6));
            var truncated := Two(s.(counter := Unreadable), Corrected(1), Reconciled(6));
            && Enabled(h, m, WriteCorrection(1)) && Step(h, m, WriteCorrection(1)) == written
            && Enabled(h, written, TruncateToCorrect(0)) && Step(h, written, TruncateToCorrect(0)) == truncated
            && Enabled(h, truncated, WriteCorrection(0))
            && Step(h, truncated, WriteCorrection(0)) == Two(s.(counter := Number(1)), Reconciled(1), Reconciled(6))
  {
    SecondGoes(s, Correcting(1), Corrected(6), Reconciled(6));
    FirstGoes(s.(counter := Number(6)), Correcting(1), Reconciled(6), Corrected(1));
    FirstGoes(s.(counter := Unreadable), Corrected(1), Reconciled(6), Reconciled(1));
  }

  lemma StalePeekOverwrites(h: Hazards, s: State, acts0: seq<Action>, m: State) returns (acts: seq<Action>, t: State)
    requires Run(h, s, acts0, Two(m, Scanned(1), Corrected(6))) && m.counter == Unreadable
    ensures Run(h, s, acts, t) && t == Two(m.(counter := Number(1)), Reconciled(1), Reconciled(6))
  {
    FirstReadsTruncated(h, m);
    acts, t := Then(h, s, acts0, Two(m, Scanned(1), Corrected(6)), TestExists(0));
    acts, t := Then(h, s, acts, t, ReadCounter(0));
    BothCorrect(h, m);
    acts, t := Then(h, s, acts, t, WriteCorrection(1));
    acts, t := Then(h, s, acts, t, TruncateToCorrect(0));
    acts, t := Then(h, s, acts, t, WriteCorrection(0));
  }

  lemma TwoUnlock(h: Hazards, s: State)
    requires s.procs == map[] && s.orphans == {}
    ensures var m, one := Two(s, Reconciled(1), Reconciled(6)), With(s, 1, Peek, Reconciled(6));
            && Enabled(h, m, Unlock(0)) && Step(h, m, Unlock(0)) == one
            && Enabled(h, one, Unlock(1)) && Step(h, one, Unlock(1)) == s
  {
    assert Two(s, Reconciled(1), Reconciled(6)).procs - {0} == With(s, 1, Peek, Reconciled(6)).procs;
    assert With(s, 1, Peek, Reconciled(6)).procs - {1} == s.procs;
  }

  lemma BothPeeksLeave(h: Hazards, s: State, acts0: seq<Action>, m: State) returns (acts: seq<Action>, t: State)
    requires m.procs == map[] && m.orphans == {} && Run(h, s, acts0, Two(m, Reconciled(1), Reconciled(6)))
    ensures Run(h, s, acts, t) && t == m
  {
    TwoUnlock(h, m);
    acts, t := Then(h, s, acts0, Two(m, Reconciled(1), Reconciled(6)), Unlock(0));
    acts, t := Then(h, s, acts, t, Unlock(1));
  }

  /** Peek A scans; file 5 appears; peek B scans and truncates to write 6; A reads the truncated
      file, writes its own stale 1 over B's 6; file 5 disappears; 1 is handed out again. */
  lemma StalePeekRepeatsANumber(h: Hazards) returns (acts: seq<Action>, t: State)
    requires h.removals && h.overlappingPeeks
    ensures Run(h, FRESH, acts, t) && t.issued == [1, 1]
  {
    TopEmpty();
    var first, m := SoloAllocate(h, FRESH, 0);
    var x, u := StalePeekRewindsTheCounter(h, m);
    Concat(h, FRESH, first, m, x, u);
    var last, v := SoloAllocate(h, u, 0);
    Concat(h, FRESH, first + x, u, last, v);
    acts, t := first + x + last, v;
  }

  lemma FileAppears(h: Hazards, s: State)
    requires s.files == {} && s.procs == map[]
    ensures var m := With(s, 0, Peek, Scanned(1));
            Enabled(h, m, AddFile(5)) && Step(h, m, AddFile(5)) == With(s.(files := {5}), 0, Peek, Scanned(1))
  {
    var m := With(s, 0, Peek, Scanned(1));
    assert Noticing(m.procs, 5) == m.procs;
    assert s.files + {5} == {5};
  }

  lemma FileDisappears(h: Hazards, s: State)
    requires h.removals && s.files == {5} && s.procs == map[]
    ensures Enabled(h, s, RemoveFile(5)) && Step(h, s, RemoveFile(5)) == s.(files := {})
  {
    assert Losing(s.procs, 5) == s.procs;
    assert s.files - {5} == {};
  }

  lemma FirstPeekScans(h: Hazards, m: State) returns (x: seq<Action>, u: State)
    requires m.procs == map[] && m.orphans == {} && m.files == {}
    ensures Run(h, m, x, u) && u == With(m.(files := {5}), 0, Peek, Scanned(1))
  {
    TopEmpty();
    x, u := SoloScan(h, m, 0, Peek);
    FileAppears(h, m);
    x, u := Then(h, m, x, u, AddFile(5));
  }

  lemma StalePeekRewindsTheCounter(h: Hazards, m: State) returns (x: seq<Action>, u: State)
    requires h.removals && h.overlappingPeeks
    requires m.procs == map[] && m.orphans == {} && m.files == {} && m.counter == Number(2)
    ensures Run(h, m, x, u) && u == m.(counter := Number(1))
  {
    var more := m.(files := {5});
    x, u := FirstPeekScans(h, m);
    x, u := SecondPeekTruncates(h, m, x, more);
    x, u := StalePeekOverwrites(h, m, x, more.(counter := Unreadable));
    x, u := BothPeeksLeave(h, m, x, more.(counter := Number(1)));
    FileDisappears(h, u);
    x, u := Then(h, m, x, u, RemoveFile(5));
  }

  /** "No two callers ever receive the same number" holds of every run exactly in the safe
      environments. */
  lemma DistinctExactlyWhenSafe(h: Hazards)
    ensures (forall s: State, acts: seq<Action>, t: State :: Initial(s) && Run(h, s, acts, t) ==> Distinct(t.issued))
       <==> Safe(h)
  {
    if Safe(h) {
      forall s: State, acts: seq<Action>, t: State | Initial(s) && Run(h, s, acts, t) ensures Distinct(t.issued) {
        IssuedStrictlyIncrease(h, s, acts, t);
      }
    } else {
      var acts, t;
      if h.deletions {
        acts, t := DeletionRepeatsANumber(h);
      } else if h.tornWrites {
        acts, t := TornWriteRepeatsANumber(h);
      } else if h.rewrites {
        acts, t := RewriteRepeatsANumber(h);
      } else if h.lockLosses {
        acts, t := LockLossRepeatsANumber(h);
      } else if h.failedReads {
        acts, t := FailedReadRepeatsANumber(h);
      } else {
        acts, t := StalePeekRepeatsANumber(h);
      }
      assert Initial(FRESH) && Run(h, FRESH, acts, t) && t.issued[0] == t.issued[1];
    }
  }

  // ---------------------------------------------------------------- the journal

  ghost predicate Pending(s: State) {
    exists p :: p in s.procs && s.procs[p].pc.Claimed?
  }

  /** The claims that have had their turn at the journal. */
  ghost function Recorded(s: State): seq<nat> {
    if Pending(s) && s.issued != [] then s.issued[..|s.issued| - 1] else s.issued
  }

  ghost predicate JournalInv(h: Hazards, s: State) {
    && Exclusion(h, s) && s.orphans == {}
    && (forall p :: p in s.procs ==> (s.procs[p].pc.Claiming? || s.procs[p].pc.Claimed? ==> s.procs[p].mode.Allocate?))
    && (forall p :: p in s.procs && s.procs[p].pc.Claimed? ==>
          s.issued != [] && s.issued[|s.issued| - 1] == s.procs[p].pc.current)
    && Subsequence(s.journal, Recorded(s))
    && (s.lapses == 0 ==> s.journal == Recorded(s))
  }

  /** As long as the lock file stays, in environments safe or not, the journal lists claims in the
      order they were made, and all of them if no write failed and no claimant died before it. */
  lemma {:induction false} JournalFollowsClaims(h: Hazards, s: State, acts: seq<Action>, t: State)
    requires !h.lockLosses && Initial(s) && Run(h, s, acts, t)
    ensures JournalInv(h, t)
    ensures t.procs == map[] ==> Subsequence(t.journal, t.issued)
    ensures t.procs == map[] && t.lapses == 0 ==> t.journal == t.issued
    decreases |acts|
  {
    if acts != [] {
      var last := |acts| - 1;
      var m := LastStep(h, s, acts, t);
      JournalFollowsClaims(h, s, acts[..last], m);
      StepKeepsJournalInv(h, m, acts[last]);
    }
  }

  /** Journal order is claim order in every run exactly if the lock file is never lost. */
  lemma JournalOrderExactly(h: Hazards)
    ensures (forall s: State, acts: seq<Action>, t: State ::
               Initial(s) && Run(h, s, acts, t) && t.procs == map[] ==> Subsequence(t.journal, t.issued))
       <==> !h.lockLosses
  {
    if h.lockLosses {
      var acts, t := LockLossReordersTheJournal(h);
      OutOfOrder();
      assert Initial(FRESH) && Run(h, FRESH, acts, t) && !Subsequence(t.journal, t.issued);
    } else {
      forall s: State, acts: seq<Action>, t: State | Initial(s) && Run(h, s, acts, t) && t.procs == map[]
        ensures Subsequence(t.journal, t.issued)
      {
        JournalFollowsClaims(h, s, acts, t);
      }
    }
  }

  lemma OutOfOrder()
    ensures !Subsequence<nat>([2, 1], [1, 2])
  {
    var late, both: seq<nat> := [2, 1], [1, 2];
    assert both[..1] == [1] && late[..1] == [2] && both[..1][..0] == [];
    assert !Subsequence<nat>([2, 1], []);
    assert !Subsequence<nat>([2], []);
  }

  lemma StepKeepsJournalInv(h: Hazards, s: State, a: Action)
    requires !h.lockLosses && JournalInv(h, s) && Enabled(h, s, a)
    ensures JournalInv(h, Step(h, s, a))
  {
    if a.Journal? || (a.Crash? && s.procs[a.p].pc.Claimed?) {
      RecordingKeepsJournalInv(h, s, a);
    } else if a.WriteClaim? {
      ClaimingKeepsJournalInv(h, s, a.p);
    } else {
      OtherStepsKeepJournalInv(h, s, a);
    }
  }

  lemma ClaimingKeepsJournalInv(h: Hazards, s: State, p: nat)
    requires !h.lockLosses && JournalInv(h, s) && Enabled(h, s, WriteClaim(p))
    ensures JournalInv(h, Step(h, s, WriteClaim(p)))
  {
    var t := Step(h, s, WriteClaim(p));
    assert !Pending(s);
    assert p in t.procs && t.procs[p].pc.Claimed?;
    assert Recorded(t) == s.issued;
  }

  lemma RecordingKeepsJournalInv(h: Hazards, s: State, a: Action)
    requires !h.lockLosses && JournalInv(h, s) && Enabled(h, s, a)
    requires a.Journal? || (a.Crash? && s.procs[a.p].pc.Claimed?)
    ensures JournalInv(h, Step(h, s, a))
  {
    var t, c := Step(h, s, a), s.procs[a.p].pc.current;
    assert s.issued == Recorded(s) + [c] && t.procs == map[] by {
      LastClaimLeaves(h, s, a.p);
    }
    LineKept(s.journal, Recorded(s), c);
    AtRest(h, t);
  }

  lemma AtRest(h: Hazards, t: State)
    requires t.procs == map[] && t.orphans == {} && Subsequence(t.journal, t.issued)
    requires t.lapses == 0 ==> t.journal == t.issued
    ensures JournalInv(h, t)
  {
  }

  /** A journal line written, or lost, for the last claim. */
  lemma LineKept(journal: seq<nat>, recorded: seq<nat>, c: nat)
    requires Subsequence(journal, recorded)
    ensures Subsequence(journal + [c], recorded + [c]) && Subsequence(journal, recorded + [c])
  {
    SubsequenceTake(journal, recorded, c);
    SubsequenceSkip(journal, recorded, c);
  }

  lemma LastClaimLeaves(h: Hazards, s: State, p: nat)
    requires JournalInv(h, s) && p in s.procs && s.procs[p].pc.Claimed?
    ensures s.issued == Recorded(s) + [s.procs[p].pc.current]
    ensures s.procs - {p} == map[]
  {
    assert Pending(s);
    assert forall q :: q in s.procs ==> q == p;
  }

  /** A step that leaves the claims alone: nobody becomes or stops being a recorded claimant. */
  ghost predicate SameClaims(s: State, t: State) {
    && s.issued == t.issued && s.journal == t.journal && s.lapses == t.lapses
    && (forall p :: p in t.procs && t.procs[p].pc.Claimed? ==> p in s.procs && s.procs[p] == t.procs[p])
    && (forall p :: p in s.procs && s.procs[p].pc.Claimed? ==> p in t.procs && s.procs[p] == t.procs[p])
  }

  lemma SameClaimsSameRecord(s: State, t: State)
    requires SameClaims(s, t)
    ensures Recorded(s) == Recorded(t)
  {
    assert Pending(s) <==> Pending(t);
  }

  lemma OtherStepsKeepJournalInv(h: Hazards, s: State, a: Action)
    requires !h.lockLosses && JournalInv(h, s) && Enabled(h, s, a)
    requires !a.Journal? && !a.WriteClaim? && !(a.Crash? && s.procs[a.p].pc.Claimed?)
    ensures JournalInv(h, Step(h, s, a))
  {
    var t := Step(h, s, a);
    if a.AddFile? || a.RemoveFile? || a.DeleteCounter? || a.RewriteCounter? {
      OutsideStepsKeepLocks(h, s, a);
    } else if a.Lock? {
      LockingKeepsLocks(h, s, a.p, a.mode);
    } else if a.Unlock? || a.Crash? {
      LeavingKeepsLocks(h, s, a);
    } else {
      MovingKeepsLocks(h, s, a);
    }
    SameClaimsSameRecord(s, t);
  }

  /** The parts of the journal's invariant that concern locks and claims. */
  ghost predicate LocksKept(h: Hazards, s: State, t: State) {
    && SameClaims(s, t) && Exclusion(h, t) && t.orphans == {}
    && (forall p :: p in t.procs && t.procs[p].pc.Claiming? ==> t.procs[p].mode.Allocate?)
  }

  lemma OutsideStepsKeepLocks(h: Hazards, s: State, a: Action)
    requires JournalInv(h, s) && Enabled(h, s, a)
    requires a.AddFile? || a.RemoveFile? || a.DeleteCounter? || a.RewriteCounter?
    ensures LocksKept(h, s, Step(h, s, a))
  {
    var t := Step(h, s, a);
    assert forall p :: p in t.procs ==> p in s.procs && s.procs[p].mode == t.procs[p].mode;
  }

  lemma LockingKeepsLocks(h: Hazards, s: State, p: nat, mode: Mode)
    requires JournalInv(h, s) && Enabled(h, s, Lock(p, mode))
    ensures LocksKept(h, s, Step(h, s, Lock(p, mode)))
  {
    var t := Step(h, s, Lock(p, mode));
    assert forall q :: q in t.procs && q != p ==> q in s.procs && s.procs[q] == t.procs[q];
  }

  lemma LeavingKeepsLocks(h: Hazards, s: State, a: Action)
    requires JournalInv(h, s) && Enabled(h, s, a)
    requires a.Unlock? || (a.Crash? && !s.procs[a.p].pc.Claimed?)
    ensures LocksKept(h, s, Step(h, s, a))
  {
    var t := Step(h, s, a);
    assert forall q :: q in t.procs ==> q in s.procs && s.procs[q] == t.procs[q];
  }

  lemma MovingKeepsLocks(h: Hazards, s: State, a: Action)
    requires JournalInv(h, s) && Enabled(h, s, a)
    requires a.ScanBegin? || a.ScanEnd? || a.TestExists? || a.ReadCounter? || a.FailRead?
      || a.TruncateToCorrect? || a.WriteCorrection? || a.TruncateToClaim?
    ensures LocksKept(h, s, Step(h, s, a))
  {
    GotoKeepsLocks(h, s, a.p, Step(h, s, a).procs[a.p].pc, Step(h, s, a));
  }

  lemma GotoKeepsLocks(h: Hazards, s: State, p: nat, pc: Pc, t: State)
    requires JournalInv(h, s) && p in s.procs && !s.procs[p].pc.Claimed? && !pc.Claimed?
    requires pc.Claiming? ==> s.procs[p].mode.Allocate?
    requires t.procs == Goto(s, p, pc).procs && t.issued == s.issued && t.journal == s.journal
    requires t.lapses == s.lapses && t.orphans == s.orphans
    ensures LocksKept(h, s, t)
  {
    assert forall q :: q in t.procs ==> q in s.procs && s.procs[q].mode == t.procs[q].mode
                                        && (q != p ==> s.procs[q] == t.procs[q]);
  }

  // ---------------------------------------------------------------- no gaps without outside files

  ghost predicate AllBelow(s: set<nat>, c: nat) {
    forall x :: x in s ==> x < c
  }

  /** What a process may hold when the next claim is `next`. */
  ghost predicate BlockPc(pr: Process, next: nat) {
    match pr.pc
    case Locked => true
    case Scanning(_, seen) => AllBelow(seen, next)
    case Scanned(e) => e <= next
    case Reading(e) => e <= next
    case Correcting(_) => false
    case Corrected(_) => false
    case Reconciled(n) => n == next
    case Claiming(n) => n == next && pr.mode.Allocate?
    case Claimed(n) => pr.mode.Allocate?
  }

  ghost predicate BlockInv(s: State, c: nat) {
    var next := c + |s.issued|;
    && c > 0 && AllBelow(s.files, next) && s.orphans == {}
    && (forall i :: 0 <= i < |s.issued| ==> s.issued[i] == c + i)
    && (s.counter == Number(next) || exists p :: p in s.procs && s.procs[p].pc == Claiming(next))
    && (forall p, q :: p in s.procs && q in s.procs && p != q ==> s.procs[p].mode.Peek? && s.procs[q].mode.Peek?)
    && (forall p :: p in s.procs ==> BlockPc(s.procs[p], next))
  }

  /** Nobody touches the counter or the lock file from outside, fails to read the counter, or dies
      while writing it. */
  predicate Tended(h: Hazards) {
    !h.deletions && !h.tornWrites && !h.rewrites && !h.lockLosses && !h.failedReads
  }

  /** Only files of numbers below the next claim appear: those claimed before, or older ones. */
  ghost predicate OwnFiles(h: Hazards, s: State, acts: seq<Action>, c: nat) {
    forall i: nat, m: State ::
      i < |acts| && acts[i].AddFile? && Run(h, s, acts[..i], m) ==> acts[i].n < c + |m.issued|
  }

  /** From a counter above every file, and with only claimed numbers put to use, the numbers come in
      one block with no gap and no repetition, whatever the interleaving of allocations, peeks and the
      creation and removal of files. */
  lemma {:induction false} ClaimsFormABlock(h: Hazards, s: State, acts: seq<Action>, t: State, c: nat)
    requires Tended(h)
    requires Initial(s) && s.counter == Number(c) && c > 0 && AllBelow(s.files, c)
    requires OwnFiles(h, s, acts, c)
    requires Run(h, s, acts, t)
    ensures BlockInv(t, c)
    ensures t.issued == seq(|t.issued|, i requires 0 <= i => c + i)
    decreases |acts|
  {
    if acts != [] {
      var last := |acts| - 1;
      var m := LastStep(h, s, acts, t);
      forall i: nat, u: State | i < last && acts[..last][i].AddFile? && Run(h, s, acts[..last][..i], u)
        ensures acts[..last][i].n < c + |u.issued|
      {
        assert acts[..last][..i] == acts[..i];
      }
      ClaimsFormABlock(h, s, acts[..last], m, c);
      StepKeepsBlockInv(h, m, acts[last], c);
    }
  }

  lemma StepKeepsBlockInv(h: Hazards, s: State, a: Action, c: nat)
    requires Tended(h) && (a.AddFile? ==> a.n < c + |s.issued|)
    requires BlockInv(s, c) && Enabled(h, s, a)
    ensures BlockInv(Step(h, s, a), c)
  {
    if a.Lock? {
      LockingKeepsBlockInv(h, s, a.p, a.mode, c);
    } else if a.TruncateToClaim? || a.WriteClaim? {
      ClaimingKeepsBlockInv(h, s, a, c);
    } else if a.Journal? || a.Unlock? || a.Crash? {
      LeavingKeepsBlockInv(h, s, a, c);
    } else if a.AddFile? {
      AddingKeepsBlockInv(h, s, a.n, c);
    } else if a.RemoveFile? {
      RemovingKeepsBlockInv(h, s, a.n, c);
    } else {
      ReconcilingKeepsBlockInv(h, s, a, c);
    }
  }

  /** No correction is ever under way, so only the steps up to the read of the counter are left. */
  lemma ReconcilingKeepsBlockInv(h: Hazards, s: State, a: Action, c: nat)
    requires Tended(h) && BlockInv(s, c) && Enabled(h, s, a)
    requires a.ScanBegin? || a.ScanEnd? || a.TestExists? || a.ReadCounter? || a.FailRead? || a.TruncateToCorrect?
      || a.WriteCorrection? || a.DeleteCounter? || a.RewriteCounter? || a.LoseLockFile?
    ensures BlockInv(Step(h, s, a), c)
  {
    assert !a.TruncateToCorrect? && !a.WriteCorrection?;
    var pr, next := s.procs[a.p], c + |s.issued|;
    var pc := Step(h, s, a).procs[a.p].pc;
    ReadsNext(h, s, a, c);
    MovingKeepsBlockInv(s, a.p, pc, c);
  }

  lemma ReadsNext(h: Hazards, s: State, a: Action, c: nat)
    requires Tended(h) && BlockInv(s, c) && Enabled(h, s, a)
    requires a.ScanBegin? || a.ScanEnd? || a.TestExists? || a.ReadCounter?
    ensures Step(h, s, a).procs[a.p].mode == s.procs[a.p].mode
    ensures BlockPc(Step(h, s, a).procs[a.p], c + |s.issued|) && !s.procs[a.p].pc.Claiming?
  {
    assert a.TestExists? || a.ReadCounter? ==> s.counter == Number(c + |s.issued|);
  }

  lemma LockingKeepsBlockInv(h: Hazards, s: State, p: nat, mode: Mode, c: nat)
    requires Tended(h) && BlockInv(s, c) && Enabled(h, s, Lock(p, mode))
    ensures BlockInv(Step(h, s, Lock(p, mode)), c)
  {
    assert mode.Allocate? ==> s.procs == map[];
    assert s.counter == Number(c + |s.issued|);
  }

  /** What a step may do that issues nothing and leaves the counter alone. */
  lemma OthersKeepBlockInv(s: State, t: State, c: nat)
    requires BlockInv(s, c) && t.counter == s.counter && t.issued == s.issued && t.orphans == {}
    requires AllBelow(t.files, c + |s.issued|)
    requires forall p :: p in t.procs ==>
               p in s.procs && t.procs[p].mode == s.procs[p].mode && BlockPc(t.procs[p], c + |s.issued|)
    requires forall p :: p in s.procs && s.procs[p].pc.Claiming? ==> p in t.procs && t.procs[p] == s.procs[p]
    ensures BlockInv(t, c)
  {
    if p :| p in s.procs && s.procs[p].pc == Claiming(c + |s.issued|) {
      assert t.procs[p].pc == Claiming(c + |s.issued|);
    }
  }

  lemma MovingKeepsBlockInv(s: State, p: nat, pc: Pc, c: nat)
    requires BlockInv(s, c) && p in s.procs && !s.procs[p].pc.Claiming?
    requires BlockPc(s.procs[p].(pc := pc), c + |s.issued|)
    ensures BlockInv(Goto(s, p, pc), c)
  {
    OthersKeepBlockInv(s, Goto(s, p, pc), c);
  }

  lemma LeavingKeepsBlockInv(h: Hazards, s: State, a: Action, c: nat)
    requires Tended(h) && BlockInv(s, c) && Enabled(h, s, a)
    requires a.Crash? || a.Unlock? || a.Journal?
    ensures BlockInv(Step(h, s, a), c)
  {
    OthersKeepBlockInv(s, Leave(s, a.p), c);
  }

  lemma AddingKeepsBlockInv(h: Hazards, s: State, n: nat, c: nat)
    requires BlockInv(s, c) && n < c + |s.issued|
    ensures BlockInv(Step(h, s, AddFile(n)), c)
  {
    OthersKeepBlockInv(s, Step(h, s, AddFile(n)), c);
  }

  lemma RemovingKeepsBlockInv(h: Hazards, s: State, n: nat, c: nat)
    requires BlockInv(s, c) && Enabled(h, s, RemoveFile(n))
    ensures BlockInv(Step(h, s, RemoveFile(n)), c)
  {
    OthersKeepBlockInv(s, Step(h, s, RemoveFile(n)), c);
  }

  lemma ClaimingKeepsBlockInv(h: Hazards, s: State, a: Action, c: nat)
    requires Tended(h) && BlockInv(s, c) && Enabled(h, s, a)
    requires a.TruncateToClaim? || a.WriteClaim?
    ensures BlockInv(Step(h, s, a), c)
  {
    var t := Step(h, s, a);
    if a.TruncateToClaim? {
      assert t.procs[a.p].pc == Claiming(c + |s.issued|);
    }
    assert t.procs.Keys == {a.p};
  }
}
