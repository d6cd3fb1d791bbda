/**
 * What a restore puts back (src/manager.ts:269-286): over every run, the row the snapshot it names was taken
 * of, and the next request of its process is built on what is stored from then on.
 */
module Restores {
  import opened Options
  import opened Replicas
  import opened Lineages
  import opened Acknowledgements
  import opened Refusals

  /** The row as it stands. */
  function Row(s: State): Content
    requires s.rows != []
  {
    s.rows[|s.rows| - 1]
  }

  // ---- the snapshots of a run, counted from its steps ---------------------------------------------------

  /** Step `x` of the run is a snapshot's last: it reads the row back. */
  ghost predicate TakesAt(trace: seq<State>, steps: seq<Step>, x: int) {
    && 0 <= x < |steps| < |trace| && steps[x].Reload? && steps[x].j < |trace[x].jobs|
    && trace[x].jobs[steps[x].j].kind.TakeSnapshot?
  }

  /** How many snapshots were taken in the first `i` steps. */
  ghost function Taken(trace: seq<State>, steps: seq<Step>, i: nat): nat {
    if i == 0 then 0 else Taken(trace, steps, i - 1) + if TakesAt(trace, steps, i - 1) then 1 else 0
  }

  /** Step `t` took snapshot number `n`, counting from none. */
  ghost predicate Takes(trace: seq<State>, steps: seq<Step>, n: nat, t: nat) {
    TakesAt(trace, steps, t) && Taken(trace, steps, t) == n
  }

  lemma {:induction false} TakenGrows(trace: seq<State>, steps: seq<Step>, a: nat, b: nat)
    requires a <= b
    ensures Taken(trace, steps, a) <= Taken(trace, steps, b)
    decreases b
  {
    if a < b {
      TakenGrows(trace, steps, a, b - 1);
    }
  }

  /** A snapshot is taken once. */
  lemma TakenOnce(trace: seq<State>, steps: seq<Step>, n: nat, t: nat, u: nat)
    requires Takes(trace, steps, n, t) && Takes(trace, steps, n, u)
    ensures t == u
  {
    if t < u {
      TakenGrows(trace, steps, t + 1, u);
    } else if u < t {
      TakenGrows(trace, steps, u + 1, t);
    }
  }

  // ---- what steps do to snapshots -----------------------------------------------------------------------

  /** Only snapshots and restores wait to read the row back. */
  ghost predicate PersistedKinds(jobs: seq<Job>) {
    forall j | 0 <= j < |jobs| && jobs[j].phase.Persisted? :: jobs[j].kind.Restore? || jobs[j].kind.TakeSnapshot?
  }

  /** Where a job's own step can bring it, as far as reading the row back goes. */
  lemma OwnStepLeads(s: State, step: Step)
    requires Can(s, step) && !step.Submit?
    ensures var phase := Next(s, step).jobs[step.j].phase;
            && (phase.Persisted? ==> s.jobs[step.j].kind.Restore? || s.jobs[step.j].kind.TakeSnapshot?)
            && (phase.Replacing? ==> step.Reload?)
  {
    match step
    case Persist(_) =>
    case Hear(_) =>
    case _ =>
  }

  lemma PersistedByOwn(s: State, step: Step, j: nat)
    requires Can(s, step) && j < |Next(s, step).jobs| && Next(s, step).jobs[j].phase.Persisted?
    ensures || (j < |s.jobs| && Next(s, step).jobs[j] == s.jobs[j])
            || Next(s, step).jobs[j].kind.Restore? || Next(s, step).jobs[j].kind.TakeSnapshot?
  {
    if j >= |s.jobs| {
      NewcomersWait(s, step, j);
    } else {
      OnlyOneMoves(s, step, j);
      if Moves(step, j) {
        OwnStepLeads(s, step);
      }
    }
  }

  lemma PersistedKept(s: State, step: Step)
    requires Can(s, step) && PersistedKinds(s.jobs)
    ensures PersistedKinds(Next(s, step).jobs)
  {
    var jobs := Next(s, step).jobs;
    forall j | 0 <= j < |jobs| && jobs[j].phase.Persisted? ensures jobs[j].kind.Restore? || jobs[j].kind.TakeSnapshot? {
      PersistedByOwn(s, step, j);
    }
  }

  lemma OthersKeepSnapshots(s: State, step: Step)
    requires Can(s, step) && (step.Reload? ==> s.jobs[step.j].kind.Restore?)
    ensures Next(s, step).snapshots == s.snapshots
  {
    match step
    case Persist(j) =>
    case CompareAndSet(j) =>
    case Hear(j) =>
    case _ =>
  }

  lemma TakeKeepsTheRow(s: State, j: nat)
    requires Can(s, Reload(j)) && !s.jobs[j].kind.Restore?
    ensures s.rows != [] && Next(s, Reload(j)).snapshots == s.snapshots + [Row(s)]
  {}

  lemma RestoreReads(s: State, j: nat)
    requires Can(s, Reload(j)) && s.jobs[j].kind.Restore?
    ensures var n := s.jobs[j].kind.snapshot;
            n < |s.snapshots| && Next(s, Reload(j)).jobs[j] == Job(s.jobs[j].process, Restore(n), Replacing(s.snapshots[n], |s.rows|))
  {}

  lemma {:induction false} SnapshotsCounted(trace: seq<State>, steps: seq<Step>, content: Content, i: nat)
    requires IsRun(trace, steps) && trace[0] == Initial(content) && i < |trace|
    ensures PersistedKinds(trace[i].jobs) && |trace[i].snapshots| == Taken(trace, steps, i)
  {
    if i > 0 {
      SnapshotsCounted(trace, steps, content, i - 1);
      SnapshotsAfter(trace[i - 1], steps[i - 1]);
      PersistedKept(trace[i - 1], steps[i - 1]);
    }
  }

  lemma SnapshotsAfter(s: State, step: Step)
    requires Can(s, step) && PersistedKinds(s.jobs)
    ensures Next(s, step).snapshots ==
            if step.Reload? && s.jobs[step.j].kind.TakeSnapshot? then s.snapshots + [Row(s)] else s.snapshots
  {
    if step.Reload? && !s.jobs[step.j].kind.Restore? {
      TakeKeepsTheRow(s, step.j);
    } else {
      OthersKeepSnapshots(s, step);
    }
  }

  /** Snapshot `n` holds the row as it stood when it was taken. */
  lemma {:induction false} SnapshotHolds(trace: seq<State>, steps: seq<Step>, content: Content, i: nat, n: nat) returns (t: nat)
    requires IsRun(trace, steps) && trace[0] == Initial(content) && i < |trace| && n < |trace[i].snapshots|
    ensures t < i && Takes(trace, steps, n, t) && trace[t].rows != [] && trace[i].snapshots[n] == Row(trace[t])
  {
    t := i - 1;
    SnapshotsCounted(trace, steps, content, t);
    SnapshotsAfter(trace[t], steps[t]);
    if n < |trace[t].snapshots| {
      t := SnapshotHolds(trace, steps, content, t, n);
    }
  }

  // ---- the row a restore writes -------------------------------------------------------------------------

  lemma ReplacingByReload(s: State, step: Step, j: nat)
    requires Can(s, step) && j < |Next(s, step).jobs| && Next(s, step).jobs[j].phase.Replacing? && step != Reload(j)
    ensures j < |s.jobs| && Next(s, step).jobs[j] == s.jobs[j]
  {
    if j >= |s.jobs| {
      NewcomersWait(s, step, j);
    } else {
      OnlyOneMoves(s, step, j);
      if Moves(step, j) {
        OwnStepLeads(s, step);
      }
    }
  }

  /** What a restore is about to write it read at its own `Reload`, with the revision of then. */
  lemma {:induction false} ReplacingComesFrom(trace: seq<State>, steps: seq<Step>, content: Content, i: nat, j: nat) returns (y: nat)
    requires IsRun(trace, steps) && trace[0] == Initial(content) && i < |trace|
    requires j < |trace[i].jobs| && trace[i].jobs[j].phase.Replacing?
    ensures y < i && steps[y] == Reload(j) && trace[i].jobs[j].kind.Restore?
    ensures var n := trace[i].jobs[j].kind.snapshot;
            n < |trace[y].snapshots| && trace[i].jobs[j].phase == Replacing(trace[y].snapshots[n], |trace[y].rows|)
  {
    y := i - 1;
    if steps[y] == Reload(j) {
      ReloadOfRestore(trace[y], j);
    } else {
      ReplacingByReload(trace[y], steps[y], j);
      y := ReplacingComesFrom(trace, steps, content, y, j);
    }
  }

  lemma ReloadOfRestore(s: State, j: nat)
    requires Can(s, Reload(j)) && Next(s, Reload(j)).jobs[j].phase.Replacing?
    ensures s.jobs[j].kind.Restore?
    ensures var n := s.jobs[j].kind.snapshot;
            n < |s.snapshots| && Next(s, Reload(j)).jobs[j] == Job(s.jobs[j].process, Restore(n), Replacing(s.snapshots[n], |s.rows|))
  {}

  lemma ReplaceEffect(s: State, j: nat)
    requires Can(s, CompareAndSet(j)) && s.jobs[j].phase.Replacing?
    ensures var t, phase := Next(s, CompareAndSet(j)), s.jobs[j].phase;
            && t.rows == (if phase.revision == |s.rows| then s.rows + [phase.content] else s.rows)
            && t.jobs[j].phase == Replaced(phase.revision == |s.rows|)
  {}

  /**
   * A restore stores the snapshot it names. Over every run, when the write of a `Restore(n)` meets the store:
   * if nothing was stored since it read the row back, the row it appends is the one that stood when the run
   * took its `n`th snapshot; and else it stores nothing.
   */
  lemma RestoreStoresTheSnapshot(trace: seq<State>, steps: seq<Step>, content: Content, x: nat, j: nat, n: nat)
    returns (t: nat, y: nat)
    requires IsRun(trace, steps) && trace[0] == Initial(content) && x < |steps| && steps[x] == CompareAndSet(j)
    requires j < |trace[x].jobs| && trace[x].jobs[j].kind == Restore(n) && trace[x].jobs[j].phase.Replacing?
    ensures t < y < x && Takes(trace, steps, n, t) && steps[y] == Reload(j) && trace[t].rows != []
    ensures trace[x + 1].rows == if trace[x].rows == trace[y].rows then trace[x].rows + [Row(trace[t])] else trace[x].rows
  {
    y := ReplacingComesFrom(trace, steps, content, x, j);
    t := SnapshotHolds(trace, steps, content, y, n);
    ReplaceEffect(trace[x], j);
    RowsOnlyAppended(trace, steps, y, x);
  }

  // ---- after it -------------------------------------------------------------------------------------------

  lemma OnlyHearMoves(s: State, step: Step, j: nat)
    requires Can(s, step) && j < |s.jobs| && s.jobs[j].phase.Replaced? && Moves(step, j)
    ensures step == Hear(j) && j < |Next(s, step).jobs| && Next(s, step).jobs[j].phase.Done?
  {}

  lemma {:induction false} ReplacedUntilHeard(trace: seq<State>, steps: seq<Step>, a: nat, h: nat, j: nat)
    requires IsRun(trace, steps) && a <= h < |steps| && j < |trace[a].jobs| && trace[a].jobs[j].phase.Replaced?
    requires steps[h] == Hear(j)
    ensures j < |trace[h].jobs| && trace[h].jobs[j] == trace[a].jobs[j]
    decreases h - a
  {
    if a < h {
      if Moves(steps[a], j) {
        OnlyHearMoves(trace[a], steps[a], j);
        DoneForGood(trace, steps, a + 1, h, j);
        assert false;
      } else {
        OnlyOneMoves(trace[a], steps[a], j);
        ReplacedUntilHeard(trace, steps, a + 1, h, j);
      }
    }
  }

  lemma HearDrops(s: State, j: nat)
    requires Can(s, Hear(j)) && s.jobs[j].phase == Replaced(true)
    ensures Next(s, Hear(j)).jobs[j].phase == Done(Ok) && s.jobs[j].process !in Next(s, Hear(j)).live
  {}

  /** The process installs a copy at step `x`. */
  ghost predicate InstallsAt(trace: seq<State>, steps: seq<Step>, x: int, p: nat) {
    0 <= x < |steps| < |trace| && steps[x].Install? && steps[x].j < |trace[x].jobs| && trace[x].jobs[steps[x].j].process == p
  }

  lemma LiveByInstall(s: State, step: Step, p: nat)
    requires Can(s, step) && p !in s.live && !(step.Install? && s.jobs[step.j].process == p)
    ensures p !in Next(s, step).live
  {
    match step
    case Persist(j) =>
    case CompareAndSet(j) =>
    case Hear(j) =>
    case _ =>
  }

  lemma {:induction false} StaysAway(trace: seq<State>, steps: seq<Step>, h: nat, k: nat, p: nat)
    requires IsRun(trace, steps) && h <= k < |trace| && p !in trace[h].live
    requires forall x | h <= x < k :: !InstallsAt(trace, steps, x, p)
    ensures p !in trace[k].live
    decreases k - h
  {
    if h < k {
      assert !InstallsAt(trace, steps, h, p);
      LiveByInstall(trace[h], steps[h], p);
      StaysAway(trace, steps, h + 1, k, p);
    }
  }

  /** Once a restore that won has been answered, its process has no copy until it installs one. */
  lemma RestoreDropsTheCopy(trace: seq<State>, steps: seq<Step>, x: nat, h: nat, k: nat, j: nat)
    requires IsRun(trace, steps) && x < h < k < |trace| && steps[x] == CompareAndSet(j) && steps[h] == Hear(j)
    requires j < |trace[x].jobs| && trace[x].jobs[j].phase.Replacing? && trace[x + 1].rows != trace[x].rows
    requires forall z | h < z < k :: !InstallsAt(trace, steps, z, trace[x].jobs[j].process)
    ensures trace[h + 1].jobs != [] && j < |trace[h + 1].jobs| && trace[h + 1].jobs[j].phase == Done(Ok)
    ensures trace[x].jobs[j].process !in trace[k].live
  {
    ReplaceEffect(trace[x], j);
    OnlyOneMoves(trace[x], steps[x], j);
    ReplacedUntilHeard(trace, steps, x + 1, h, j);
    OnlyOneMoves(trace[h], steps[h], j);
    HearDrops(trace[h], j);
    StaysAway(trace, steps, h + 1, k, trace[x].jobs[j].process);
  }

  lemma StartMisses(s: State, q: nat)
    requires Can(s, Start(q)) && s.jobs[q].process !in s.live
    ensures Next(s, Start(q)).jobs[q].phase == Missed
  {}

  lemma LoadReads(s: State, q: nat)
    requires Can(s, Load(q))
    ensures s.rows != [] && Next(s, Load(q)).jobs[q].phase == Loading(Row(s), |s.rows|)
  {}

  lemma InstallBuilds(s: State, q: nat)
    requires Can(s, Install(q)) && s.jobs[q].kind.Request?
    ensures var t, c := Next(s, Install(q)), |s.copies|;
            && t.jobs[q].phase == Holding(c) && |t.copies| == c + 1
            && t.copies[c].content == s.jobs[q].phase.content && t.copies[c].revision == s.jobs[q].phase.revision
  {}

  lemma OnlyInstallMoves(s: State, step: Step, q: nat)
    requires Can(s, step) && q < |s.jobs| && s.jobs[q].phase.Loading? && Moves(step, q)
    ensures step == Install(q) && q < |Next(s, step).jobs| && !Next(s, step).jobs[q].phase.Loading?
  {}

  /** A job that never loads again installs what it loaded. */
  lemma {:induction false} LoadingStays(trace: seq<State>, steps: seq<Step>, a: nat, k: nat, q: nat)
    requires IsRun(trace, steps) && a <= k < |trace| && q < |trace[a].jobs| && trace[a].jobs[q].phase.Loading?
    requires forall z | a <= z < k :: steps[z] != Install(q)
    ensures q < |trace[k].jobs| && trace[k].jobs[q] == trace[a].jobs[q]
    decreases k - a
  {
    if a < k {
      if Moves(steps[a], q) {
        OnlyInstallMoves(trace[a], steps[a], q);
      }
      OnlyOneMoves(trace[a], steps[a], q);
      LoadingStays(trace, steps, a + 1, k, q);
    }
  }

  /** What a request asked the store for is what its copy is built of. */
  lemma InstallsWhatItLoaded(trace: seq<State>, steps: seq<Step>, l: nat, k: nat, q: nat)
    requires IsRun(trace, steps) && l < k < |steps| && steps[l] == Load(q) && steps[k] == Install(q)
    requires q < |trace[l].jobs| && trace[l].jobs[q].kind.Request? && forall z | l < z < k :: steps[z] != Install(q)
    ensures var c := |trace[k].copies|;
            q < |trace[k + 1].jobs| && trace[k + 1].jobs[q].phase == Holding(c) && c < |trace[k + 1].copies|
            && trace[l].rows != [] && trace[k + 1].copies[c].content == Row(trace[l])
            && trace[k + 1].copies[c].revision == |trace[l].rows|
  {
    LoadReads(trace[l], q);
    LoadingStays(trace, steps, l + 1, k, q);
    KindStays(trace, steps, l, k, q);
    InstallBuilds(trace[k], q);
  }

  /** The row stored at a step stays, and up to the next restore every later one extends it. */
  lemma LaterRowsExtend(trace: seq<State>, steps: seq<Step>, content: Content, x: nat, l: nat, r: nat)
    requires IsRun(trace, steps) && trace[0] == Initial(content) && x <= l < |trace| && r < |trace[x].rows|
    ensures r < |trace[l].rows| && trace[l].rows[r] == trace[x].rows[r]
    ensures (forall z | r < z < |trace[l].rows| :: z !in trace[l].restored) ==> trace[x].rows[r] <= Row(trace[l])
  {
    RowsOnlyAppended(trace, steps, x, l);
    if forall z | r < z < |trace[l].rows| :: z !in trace[l].restored {
      NoLostUpdate(trace, steps, content, l, r, |trace[l].rows| - 1);
    }
  }

  /**
   * The next request of the process that restored is built on what is stored. Started after the answer, with
   * no copy installed in between, it finds none, and the copy it installs has the row as it stood when it
   * asked: one that, up to the next restore, extends what the restore put back.
   */
  lemma NextRequestIsBuiltOnTheRow(trace: seq<State>, steps: seq<Step>, content: Content, x: nat, h: nat, j: nat,
                                   q: nat, a: nat, l: nat, k: nat)
    requires IsRun(trace, steps) && trace[0] == Initial(content)
    requires x < h < a < l < k < |steps| && steps[x] == CompareAndSet(j) && steps[h] == Hear(j)
    requires j < |trace[x].jobs| && trace[x].jobs[j].phase.Replacing? && trace[x + 1].rows != trace[x].rows
    requires steps[a] == Start(q) && steps[l] == Load(q) && steps[k] == Install(q) && forall z | l < z < k :: steps[z] != Install(q)
    requires trace[a].jobs[q].kind.Request? && trace[a].jobs[q].process == trace[x].jobs[j].process
    requires forall z | h < z < a :: !InstallsAt(trace, steps, z, trace[x].jobs[j].process)
    ensures trace[a + 1].jobs[q].phase == Missed
    ensures var c := |trace[k].copies|;
            trace[k + 1].jobs[q].phase == Holding(c) && c < |trace[k + 1].copies| && trace[l].rows != []
            && trace[k + 1].copies[c].content == Row(trace[l]) && trace[k + 1].copies[c].revision == |trace[l].rows|
    ensures var r := |trace[x].rows|;
            && r < |trace[x + 1].rows| && r < |trace[l].rows| && trace[l].rows[r] == trace[x + 1].rows[r]
            && ((forall z | r < z < |trace[l].rows| :: z !in trace[l].restored) ==> trace[x + 1].rows[r] <= Row(trace[l]))
  {
    RestoreDropsTheCopy(trace, steps, x, h, a, j);
    StartMisses(trace[a], q);
    KindStays(trace, steps, a, l, q);
    InstallsWhatItLoaded(trace, steps, l, k, q);
    ReplaceEffect(trace[x], j);
    LaterRowsExtend(trace, steps, content, x + 1, l, |trace[x].rows|);
  }

  // ---- what the caller is told ------------------------------------------------------------------------------

  /** Of a restore's own steps only two matter here: hearing that it won, and winning. */
  lemma OwnStepEnds(s: State, step: Step)
    requires Can(s, step) && !step.Submit? && s.jobs[step.j].kind.Restore?
    ensures var phase := Next(s, step).jobs[step.j].phase;
            && (phase == Done(Ok) ==> step.Hear? && s.jobs[step.j].phase == Replaced(true))
            && (phase == Replaced(true) ==> step.CompareAndSet? && s.jobs[step.j].phase.Replacing?
                                            && s.jobs[step.j].phase.revision == |s.rows|)
  {
    match step
    case Persist(_) =>
    case Hear(_) =>
    case CompareAndSet(_) =>
    case _ =>
  }

  /** Step `x` is the winning write of restore `j`. */
  ghost predicate WinsAt(trace: seq<State>, steps: seq<Step>, x: int, j: nat) {
    && 0 <= x < |steps| < |trace| && steps[x] == CompareAndSet(j) && j < |trace[x].jobs|
    && trace[x].jobs[j].phase.Replacing? && trace[x + 1].rows != trace[x].rows
  }

  /** A restore that has won, or was answered 200 for it, has a winning write behind it. */
  lemma {:induction false} WonBefore(trace: seq<State>, steps: seq<Step>, content: Content, i: nat, j: nat) returns (x: nat)
    requires IsRun(trace, steps) && trace[0] == Initial(content) && i < |trace|
    requires j < |trace[i].jobs| && trace[i].jobs[j].kind.Restore?
    requires trace[i].jobs[j].phase == Done(Ok) || trace[i].jobs[j].phase == Replaced(true)
    ensures x < i && WinsAt(trace, steps, x, j)
  {
    x := i - 1;
    if j >= |trace[x].jobs| {
      NewcomersWait(trace[x], steps[x], j);
    } else {
      OnlyOneMoves(trace[x], steps[x], j);
      if Moves(steps[x], j) {
        OwnStepEnds(trace[x], steps[x]);
        if steps[x].Hear? {
          x := WonBefore(trace, steps, content, x, j);
        } else {
          ReplaceEffect(trace[x], j);
        }
      } else {
        x := WonBefore(trace, steps, content, x, j);
      }
    }
  }

  /** A restore is answered 200 exactly when its write won, and that is heard. */
  lemma RestoreIsAnsweredIff(trace: seq<State>, steps: seq<Step>, content: Content, h: nat, j: nat)
    requires IsRun(trace, steps) && trace[0] == Initial(content) && h < |steps| && steps[h] == Hear(j)
    requires j < |trace[h].jobs| && trace[h].jobs[j].kind.Restore?
    ensures j < |trace[h + 1].jobs|
    ensures trace[h + 1].jobs[j].phase == Done(Ok) <==> exists x | 0 <= x < h :: WinsAt(trace, steps, x, j)
  {
    OnlyOneMoves(trace[h], steps[h], j);
    if trace[h + 1].jobs[j].phase == Done(Ok) {
      OwnStepEnds(trace[h], steps[h]);
      var x := WonBefore(trace, steps, content, h, j);
    }
    if x :| 0 <= x < h && WinsAt(trace, steps, x, j) {
      ReplaceEffect(trace[x], j);
      OnlyOneMoves(trace[x], steps[x], j);
      ReplacedUntilHeard(trace, steps, x + 1, h, j);
      HearDrops(trace[h], j);
    }
  }
}
