/**
 * No lost update (src/manager.ts:433-477, src/backend.ts:335-353): what every copy and every write on
 * its way was built on, over all interleavings.
 */
module Lineages {
  import opened Options
  import opened Replicas

  /** The copy extends the row of its revision, and is clean only when it is that row. */
  ghost predicate CopyGood(rows: seq<Content>, c: Copy) {
    && 1 <= c.revision <= |rows|
    && rows[c.revision - 1] <= c.content
    && (c.persisted.Some? ==> c.persisted.value <= c.version)
    && (c.persisted == Some(c.version) ==> rows[c.revision - 1] == c.content)
  }

  ghost predicate PhaseGood(rows: seq<Content>, copies: seq<Copy>, phase: Phase) {
    match phase
    case Loading(content, revision) => 1 <= revision <= |rows| && rows[revision - 1] == content
    case Holding(c) => c < |copies|
    case Ran(c) => c < |copies|
    case Saving(c, version, content, revision) =>
      && c < |copies| && 1 <= revision <= copies[c].revision && revision <= |rows|
      && rows[revision - 1] <= content <= copies[c].content
      && version <= copies[c].version && (version == copies[c].version ==> content == copies[c].content)
    case Saved(c, version, revision) =>
      && c < |copies| && 1 <= revision == copies[c].revision < |rows|
      && rows[revision] <= copies[c].content
      && version <= copies[c].version && (version == copies[c].version ==> rows[revision] == copies[c].content)
    case Replacing(content, revision) => 1 <= revision <= |rows| && content in rows
    case _ => true
  }

  /** No copy has two stored writes that its process has not heard of. */
  ghost predicate OneSaved(jobs: seq<Job>) {
    forall i, j | 0 <= i < j < |jobs| && jobs[i].phase.Saved? && jobs[j].phase.Saved? ::
      jobs[i].phase.copy != jobs[j].phase.copy
  }

  /** Each row extends the one before it, except that a restore puts back a row stored earlier. */
  ghost predicate RowsGrow(rows: seq<Content>, restored: set<nat>) {
    && rows != []
    && (forall r | r in restored :: 1 <= r < |rows| && rows[r] in rows[..r])
    && (forall r | 1 <= r < |rows| && r !in restored :: rows[r - 1] <= rows[r])
  }

  ghost predicate CopiesGood(rows: seq<Content>, copies: seq<Copy>) {
    forall c | 0 <= c < |copies| :: CopyGood(rows, copies[c])
  }

  ghost predicate PhasesGood(rows: seq<Content>, copies: seq<Copy>, jobs: seq<Job>) {
    forall j | 0 <= j < |jobs| :: PhaseGood(rows, copies, jobs[j].phase)
  }

  ghost predicate LiveGood(live: map<nat, nat>, copies: seq<Copy>) {
    forall p | p in live :: live[p] < |copies| && copies[live[p]].owner == p
  }

  ghost predicate Lineage(s: State) {
    && RowsGrow(s.rows, s.restored)
    && (forall k | 0 <= k < |s.snapshots| :: s.snapshots[k] in s.rows)
    && CopiesGood(s.rows, s.copies)
    && LiveGood(s.live, s.copies)
    && PhasesGood(s.rows, s.copies, s.jobs)
    && OneSaved(s.jobs)
  }

  /** What a step may do to a copy: let it grow under a new version, and move its revision on. */
  ghost predicate Grown(a: Copy, b: Copy) {
    && a.owner == b.owner && a.content <= b.content && a.version <= b.version && a.revision <= b.revision
    && (a.version == b.version ==> a.content == b.content)
  }

  ghost predicate CopiesGrown(a: seq<Copy>, b: seq<Copy>) {
    |a| <= |b| && forall c | 0 <= c < |a| :: Grown(a[c], b[c])
  }

  lemma PhaseStays(rows: seq<Content>, copies: seq<Copy>, rows1: seq<Content>, copies1: seq<Copy>, phase: Phase)
    requires PhaseGood(rows, copies, phase) && rows <= rows1 && CopiesGrown(copies, copies1)
    requires phase.Saved? ==> copies1[phase.copy].revision == copies[phase.copy].revision
    ensures PhaseGood(rows1, copies1, phase)
  {
    if phase.Saving? || phase.Saved? {
      assert Grown(copies[phase.copy], copies1[phase.copy]);
    }
  }

  /** Only job `j` moved; the other jobs keep what they had. */
  lemma OthersStay(s: State, t: State, j: nat)
    requires PhasesGood(s.rows, s.copies, s.jobs) && j < |s.jobs|
    requires |t.jobs| == |s.jobs| && forall i | 0 <= i < |s.jobs| && i != j :: t.jobs[i] == s.jobs[i]
    requires s.rows <= t.rows && CopiesGrown(s.copies, t.copies)
    requires forall i | 0 <= i < |s.jobs| && i != j && s.jobs[i].phase.Saved? && s.jobs[i].phase.copy < |s.copies| ::
               t.copies[s.jobs[i].phase.copy].revision == s.copies[s.jobs[i].phase.copy].revision
    requires PhaseGood(t.rows, t.copies, t.jobs[j].phase)
    ensures PhasesGood(t.rows, t.copies, t.jobs)
  {
    forall i | 0 <= i < |t.jobs| ensures PhaseGood(t.rows, t.copies, t.jobs[i].phase) {
      if i != j {
        PhaseStays(s.rows, s.copies, t.rows, t.copies, s.jobs[i].phase);
      }
    }
  }

  /** A step that moves one job and leaves the rows and the copies alone. */
  lemma LineageOfMove(s: State, t: State, j: nat)
    requires Lineage(s) && j < |s.jobs|
    requires t.rows == s.rows && t.restored == s.restored && t.copies == s.copies
    requires t.snapshots == s.snapshots || t.snapshots == s.snapshots + [s.rows[|s.rows| - 1]]
    requires t.live == s.live || exists p :: t.live == s.live - {p}
    requires |t.jobs| == |s.jobs| && t.jobs == s.jobs[j := t.jobs[j]] && !t.jobs[j].phase.Saved?
    requires PhaseGood(t.rows, t.copies, t.jobs[j].phase)
    ensures Lineage(t)
  {
    OthersStay(s, t, j);
  }

  /** The conjuncts a step that installs or changes a copy has to see to. */
  lemma LineageOfCopy(s: State, t: State, j: nat)
    requires Lineage(s) && j < |s.jobs|
    requires t.rows == s.rows && t.restored == s.restored && t.snapshots == s.snapshots
    requires CopiesGood(t.rows, t.copies) && CopiesGrown(s.copies, t.copies) && LiveGood(t.live, t.copies)
    requires |t.jobs| == |s.jobs| && t.jobs == s.jobs[j := t.jobs[j]] && !t.jobs[j].phase.Saved?
    requires PhaseGood(t.rows, t.copies, t.jobs[j].phase)
    requires forall i | 0 <= i < |s.jobs| && i != j && s.jobs[i].phase.Saved? && s.jobs[i].phase.copy < |s.copies| ::
               t.copies[s.jobs[i].phase.copy].revision == s.copies[s.jobs[i].phase.copy].revision
    ensures Lineage(t)
  {
    OthersStay(s, t, j);
  }

  lemma LineageOfSubmit(s: State, step: Step)
    requires Lineage(s) && step.Submit?
    ensures Lineage(Next(s, step))
  {}

  predicate QuietStep(s: State, step: Step, j: nat) {
    || step == Start(j) || step == Load(j) || step == Throw(j) || step == Reload(j)
    || (step == Hear(j) && j < |s.jobs| && (s.Phase(j).Lost? || s.Phase(j).Replaced?))
  }

  /** Where a job can get to without touching a row or a copy. */
  predicate QuietPhase(s: State, process: nat, phase: Phase) {
    match phase
    case Missed => true
    case Holding(c) => process in s.live && s.live[process] == c
    case Loading(content, revision) => s.rows != [] && content == s.rows[|s.rows| - 1] && revision == |s.rows|
    case Replacing(content, revision) => content in s.snapshots && revision == |s.rows|
    case Done(_) => true
    case _ => false
  }

  lemma LineageOfQuiet(s: State, t: State, j: nat)
    requires Lineage(s) && j < |s.jobs|
    requires t.rows == s.rows && t.restored == s.restored && t.copies == s.copies
    requires t.snapshots == s.snapshots || t.snapshots == s.snapshots + [s.rows[|s.rows| - 1]]
    requires t.live == s.live || t.live == s.live - {s.jobs[j].process}
    requires |t.jobs| == |s.jobs| && t.jobs == s.jobs[j := t.jobs[j]]
    requires QuietPhase(s, s.jobs[j].process, t.jobs[j].phase)
    ensures Lineage(t)
  {
    LineageOfMove(s, t, j);
  }

  lemma QuietEffect(s: State, step: Step, j: nat)
    requires Can(s, step) && QuietStep(s, step, j)
    ensures var t := Next(s, step);
            && t.rows == s.rows && t.restored == s.restored && t.copies == s.copies
            && (t.snapshots == s.snapshots || (s.rows != [] && t.snapshots == s.snapshots + [s.rows[|s.rows| - 1]]))
            && (t.live == s.live || t.live == s.live - {s.jobs[j].process})
            && |t.jobs| == |s.jobs| && t.jobs == s.jobs[j := t.jobs[j]]
            && QuietPhase(s, s.jobs[j].process, t.jobs[j].phase)
  {
    match step
    case Start(_) =>
    case Hear(_) =>
    case Reload(_) =>
    case _ =>
  }

  lemma LineageOfQuietStep(s: State, step: Step, j: nat)
    requires Lineage(s) && Can(s, step) && QuietStep(s, step, j)
    ensures Lineage(Next(s, step))
  {
    QuietEffect(s, step, j);
    LineageOfQuiet(s, Next(s, step), j);
  }

  lemma InstallEffect(s: State, j: nat)
    requires Can(s, Install(j))
    ensures var t, p, phase := Next(s, Install(j)), s.jobs[j].process, s.Phase(j);
            && t.rows == s.rows && t.restored == s.restored && t.snapshots == s.snapshots
            && t.copies == s.copies + [Copy(p, phase.content, 0, phase.revision, None)]
            && t.live == s.live[p := |s.copies|]
            && |t.jobs| == |s.jobs| && t.jobs == s.jobs[j := t.jobs[j]]
            && (t.jobs[j].phase.Done? || t.jobs[j].phase == Holding(|s.copies|))
  {}

  lemma LineageOfInstall(s: State, t: State, j: nat)
    requires Lineage(s) && j < |s.jobs| && s.Phase(j).Loading?
    requires t.rows == s.rows && t.restored == s.restored && t.snapshots == s.snapshots
    requires t.copies == s.copies + [Copy(s.jobs[j].process, s.Phase(j).content, 0, s.Phase(j).revision, None)]
    requires t.live == s.live[s.jobs[j].process := |s.copies|]
    requires |t.jobs| == |s.jobs| && t.jobs == s.jobs[j := t.jobs[j]]
    requires t.jobs[j].phase.Done? || t.jobs[j].phase == Holding(|s.copies|)
    ensures Lineage(t)
  {
    assert PhaseGood(s.rows, s.copies, s.jobs[j].phase);
    LineageOfCopy(s, t, j);
  }

  /** What a changed copy leaves of the conjuncts about copies. */
  lemma OneCopyChanges(rows: seq<Content>, copies: seq<Copy>, live: map<nat, nat>, c: nat, copy: Copy)
    requires CopiesGood(rows, copies) && LiveGood(live, copies) && c < |copies|
    requires CopyGood(rows, copy) && Grown(copies[c], copy)
    ensures CopiesGood(rows, copies[c := copy]) && CopiesGrown(copies, copies[c := copy])
    ensures LiveGood(live, copies[c := copy])
  {}

  lemma AppliedGood(rows: seq<Content>, c: Copy, op: nat)
    requires CopyGood(rows, c)
    ensures CopyGood(rows, Applied(c, op)) && Grown(c, Applied(c, op))
  {}

  lemma LineageOfRun(s: State, t: State, j: nat)
    requires Lineage(s) && j < |s.jobs| && s.Phase(j).Holding? && s.Phase(j).copy < |s.copies|
    requires t.rows == s.rows && t.restored == s.restored && t.snapshots == s.snapshots && t.live == s.live
    requires t.copies == s.copies || t.copies == s.copies[s.Phase(j).copy := Applied(s.copies[s.Phase(j).copy], j)]
    requires |t.jobs| == |s.jobs| && t.jobs == s.jobs[j := t.jobs[j]]
    requires t.jobs[j].phase.Done? || t.jobs[j].phase == Ran(s.Phase(j).copy)
    ensures Lineage(t)
  {
    var c := s.Phase(j).copy;
    AppliedGood(s.rows, s.copies[c], j);
    OneCopyChanges(s.rows, s.copies, s.live, c, s.copies[c]);
    OneCopyChanges(s.rows, s.copies, s.live, c, Applied(s.copies[c], j));
    assert s.copies == s.copies[c := s.copies[c]];
    LineageOfCopy(s, t, j);
  }

  lemma SavingGood(rows: seq<Content>, copies: seq<Copy>, c: nat)
    requires c < |copies| && CopyGood(rows, copies[c])
    ensures PhaseGood(rows, copies, Saving(c, copies[c].version, copies[c].content, copies[c].revision))
  {}

  /** `persist` moves its job alone: done, written out, or on its way with the live copy. */
  lemma PersistEffect(s: State, j: nat)
    requires Can(s, Persist(j))
    ensures var t, p := Next(s, Persist(j)), s.jobs[j].process;
            && t.rows == s.rows && t.restored == s.restored && t.copies == s.copies
            && t.snapshots == s.snapshots && t.live == s.live
            && |t.jobs| == |s.jobs| && t.jobs == s.jobs[j := t.jobs[j]]
            && (|| t.jobs[j].phase.Done? || t.jobs[j].phase.Persisted?
                || (p in s.live && t.jobs[j].phase == Saving(s.live[p], s.copies[s.live[p]].version,
                                                             s.copies[s.live[p]].content, s.copies[s.live[p]].revision)))
  {}

  lemma LineageOfPersist(s: State, t: State, j: nat)
    requires Lineage(s) && j < |s.jobs|
    requires t.rows == s.rows && t.restored == s.restored && t.copies == s.copies
    requires t.snapshots == s.snapshots && t.live == s.live
    requires |t.jobs| == |s.jobs| && t.jobs == s.jobs[j := t.jobs[j]]
    requires var p := s.jobs[j].process;
             (|| t.jobs[j].phase.Done? || t.jobs[j].phase.Persisted?
              || (p in s.live && t.jobs[j].phase == Saving(s.live[p], s.copies[s.live[p]].version,
                                                           s.copies[s.live[p]].content, s.copies[s.live[p]].revision)))
    ensures Lineage(t)
  {
    if t.jobs[j].phase.Saving? {
      SavingGood(s.rows, s.copies, t.jobs[j].phase.copy);
    }
    LineageOfMove(s, t, j);
  }

  lemma RowsAppended(rows: seq<Content>, restored: set<nat>, row: Content, isRestore: bool)
    requires RowsGrow(rows, restored)
    requires if isRestore then row in rows else rows[|rows| - 1] <= row
    ensures RowsGrow(rows + [row], if isRestore then restored + {|rows|} else restored)
  {
    var rows1, restored1 := rows + [row], if isRestore then restored + {|rows|} else restored;
    assert rows1[..|rows|] == rows;
    forall r | r in restored1 ensures 1 <= r < |rows1| && rows1[r] in rows1[..r] {
      if r in restored {
        assert rows1[r] == rows[r] && rows1[..r] == rows[..r];
      }
    }
    forall r | 1 <= r < |rows1| && r !in restored1 ensures rows1[r - 1] <= rows1[r] {
      if r < |rows| {
        assert rows1[r] == rows[r] && rows1[r - 1] == rows[r - 1];
      }
    }
  }

  lemma SaveEffect(s: State, j: nat)
    requires Can(s, CompareAndSet(j)) && s.Phase(j).Saving? && s.Phase(j).revision == |s.rows|
    ensures var t, phase := Next(s, CompareAndSet(j)), s.Phase(j);
            && t.rows == s.rows + [phase.content] && t.restored == s.restored && t.copies == s.copies
            && t.snapshots == s.snapshots && t.live == s.live
            && |t.jobs| == |s.jobs| && t.jobs == s.jobs[j := t.jobs[j]]
            && t.jobs[j].phase == Saved(phase.copy, phase.version, phase.revision)
  {}

  /** A copy whose write goes in has no other one stored: it still has the revision of the last row. */
  lemma SavedAlone(rows: seq<Content>, copies: seq<Copy>, jobs: seq<Job>, j: nat, saved: Job)
    requires PhasesGood(rows, copies, jobs) && OneSaved(jobs) && j < |jobs|
    requires jobs[j].phase.Saving? && jobs[j].phase.revision == |rows|
    requires saved.phase.Saved? && saved.phase.copy == jobs[j].phase.copy
    ensures OneSaved(jobs[j := saved])
  {
    assert PhaseGood(rows, copies, jobs[j].phase);
    forall i | 0 <= i < |jobs| && i != j && jobs[i].phase.Saved? ensures jobs[i].phase.copy != saved.phase.copy {
      assert PhaseGood(rows, copies, jobs[i].phase);
    }
  }

  lemma LineageOfSave(s: State, t: State, j: nat)
    requires Lineage(s) && j < |s.jobs| && s.Phase(j).Saving? && s.Phase(j).revision == |s.rows|
    requires t.rows == s.rows + [s.Phase(j).content] && t.restored == s.restored && t.copies == s.copies
    requires t.snapshots == s.snapshots && t.live == s.live
    requires |t.jobs| == |s.jobs| && t.jobs == s.jobs[j := t.jobs[j]]
    requires t.jobs[j].phase == Saved(s.Phase(j).copy, s.Phase(j).version, s.Phase(j).revision)
    ensures Lineage(t)
  {
    var phase := s.jobs[j].phase;
    assert PhaseGood(s.rows, s.copies, phase);
    assert CopyGood(s.rows, s.copies[phase.copy]);
    RowsAppended(s.rows, s.restored, phase.content, false);
    SavedAlone(s.rows, s.copies, s.jobs, j, t.jobs[j]);
    OthersStay(s, t, j);
  }

  lemma LineageOfReplace(s: State, j: nat)
    requires Lineage(s) && Can(s, CompareAndSet(j)) && s.Phase(j).Replacing? && s.Phase(j).revision == |s.rows|
    ensures Lineage(Next(s, CompareAndSet(j)))
  {
    var t := Next(s, CompareAndSet(j));
    var phase := s.jobs[j].phase;
    assert PhaseGood(s.rows, s.copies, phase);
    RowsAppended(s.rows, s.restored, phase.content, true);
    OthersStay(s, t, j);
  }

  function Told(copies: seq<Copy>, c: nat, version: nat): seq<Copy>
    requires c < |copies|
  {
    copies[c := copies[c].(revision := copies[c].revision + 1, persisted := Some(version))]
  }

  lemma ToldGood(rows: seq<Content>, copies: seq<Copy>, phase: Phase)
    requires phase.Saved? && PhaseGood(rows, copies, phase) && CopyGood(rows, copies[phase.copy])
    ensures var copy := Told(copies, phase.copy, phase.version)[phase.copy];
            CopyGood(rows, copy) && Grown(copies[phase.copy], copy)
  {}

  lemma HearEffect(s: State, j: nat)
    requires Can(s, Hear(j)) && s.Phase(j).Saved?
    ensures var t := Next(s, Hear(j));
            && t.rows == s.rows && t.restored == s.restored && t.snapshots == s.snapshots && t.live == s.live
            && t.copies == Told(s.copies, s.Phase(j).copy, s.Phase(j).version)
            && |t.jobs| == |s.jobs| && t.jobs == s.jobs[j := t.jobs[j]]
            && (t.jobs[j].phase.Done? || t.jobs[j].phase.Persisted?)
  {}

  /** When the process hears its write was taken, the copy moves to the row that now holds it. */
  lemma LineageOfHear(s: State, t: State, j: nat)
    requires Lineage(s) && j < |s.jobs| && s.Phase(j).Saved? && s.Phase(j).copy < |s.copies|
    requires t.rows == s.rows && t.restored == s.restored && t.snapshots == s.snapshots && t.live == s.live
    requires t.copies == Told(s.copies, s.Phase(j).copy, s.Phase(j).version)
    requires |t.jobs| == |s.jobs| && t.jobs == s.jobs[j := t.jobs[j]]
    requires t.jobs[j].phase.Done? || t.jobs[j].phase.Persisted?
    ensures Lineage(t)
  {
    var phase := s.jobs[j].phase;
    ToldGood(s.rows, s.copies, phase);
    OneCopyChanges(s.rows, s.copies, s.live, phase.copy, t.copies[phase.copy]);
    forall i | 0 <= i < |s.jobs| && i != j && s.jobs[i].phase.Saved? && s.jobs[i].phase.copy < |s.copies|
      ensures t.copies[s.jobs[i].phase.copy] == s.copies[s.jobs[i].phase.copy]
    {
      assert s.jobs[i].phase.copy != phase.copy;
    }
    LineageOfCopy(s, t, j);
  }

  lemma LineageOfCompareAndSet(s: State, j: nat)
    requires Lineage(s) && Can(s, CompareAndSet(j))
    ensures Lineage(Next(s, CompareAndSet(j)))
  {
    if s.Phase(j).revision != |s.rows| {
      LineageOfMove(s, Next(s, CompareAndSet(j)), j);
    } else if s.Phase(j).Saving? {
      SaveEffect(s, j);
      LineageOfSave(s, Next(s, CompareAndSet(j)), j);
    } else {
      LineageOfReplace(s, j);
    }
  }

  lemma LineageKept(s: State, step: Step)
    requires Lineage(s) && Can(s, step)
    ensures Lineage(Next(s, step))
  {
    match step
    case Submit(_, _) => LineageOfSubmit(s, step);
    case Install(j) =>
      InstallEffect(s, j);
      LineageOfInstall(s, Next(s, step), j);
    case Run(j, changes) =>
      LineageOfRun(s, Next(s, step), j);
    case Persist(j) =>
      PersistEffect(s, j);
      LineageOfPersist(s, Next(s, step), j);
    case CompareAndSet(j) => LineageOfCompareAndSet(s, j);
    case Hear(j) =>
      if s.Phase(j).Lost? || s.Phase(j).Replaced? {
        LineageOfQuietStep(s, step, j);
      } else {
        HearEffect(s, j);
        LineageOfHear(s, Next(s, step), j);
      }
    case Start(j) => LineageOfQuietStep(s, step, j);
    case Load(j) => LineageOfQuietStep(s, step, j);
    case Throw(j) => LineageOfQuietStep(s, step, j);
    case Reload(j) => LineageOfQuietStep(s, step, j);
  }

  lemma {:induction false} LineageHolds(trace: seq<State>, steps: seq<Step>, content: Content, i: nat)
    requires IsRun(trace, steps) && trace[0] == Initial(content) && i < |trace|
    ensures Lineage(trace[i])
  {
    if i > 0 {
      LineageHolds(trace, steps, content, i - 1);
      LineageKept(trace[i - 1], steps[i - 1]);
    }
  }

  lemma StepAppends(s: State, step: Step)
    requires Can(s, step)
    ensures s.rows <= Next(s, step).rows
    ensures !step.CompareAndSet? ==> Next(s, step).rows == s.rows
  {
    match step
    case Persist(j) =>
    case CompareAndSet(j) =>
    case Hear(j) =>
    case _ =>
  }

  /** Nothing stored is ever rewritten: a row only gets successors. */
  lemma {:induction false} RowsOnlyAppended(trace: seq<State>, steps: seq<Step>, i: nat, k: nat)
    requires IsRun(trace, steps) && i <= k < |trace|
    ensures trace[i].rows <= trace[k].rows
    decreases k - i
  {
    if i < k {
      StepAppends(trace[i], steps[i]);
      RowsOnlyAppended(trace, steps, i + 1, k);
    }
  }

  lemma {:induction false} GrowsBetween(rows: seq<Content>, restored: set<nat>, a: nat, b: nat)
    requires RowsGrow(rows, restored) && a <= b < |rows|
    requires forall r | a < r <= b :: r !in restored
    ensures rows[a] <= rows[b]
    decreases b - a
  {
    if a < b {
      GrowsBetween(rows, restored, a, b - 1);
    }
  }

  /**
   * No lost update, over every interleaving of any number of processes: what was stored at one
   * revision is a prefix of every later row up to the next snapshot restore.
   */
  lemma NoLostUpdate(trace: seq<State>, steps: seq<Step>, content: Content, i: nat, a: nat, b: nat)
    requires IsRun(trace, steps) && trace[0] == Initial(content) && i < |trace|
    requires a <= b < |trace[i].rows|
    requires forall r | a < r <= b :: r !in trace[i].restored
    ensures trace[i].rows[a] <= trace[i].rows[b]
    ensures forall op | op in trace[i].rows[a] :: op in trace[i].rows[b]
  {
    LineageHolds(trace, steps, content, i);
    var rows := trace[i].rows;
    GrowsBetween(rows, trace[i].restored, a, b);
    forall op | op in rows[a] ensures op in rows[b] {
      var k :| 0 <= k < |rows[a]| && rows[a][k] == op;
      assert rows[b][k] == op;
    }
  }

  /** A restore writes a row that was stored before, and never anything else. */
  lemma RestorePutsBack(trace: seq<State>, steps: seq<Step>, content: Content, i: nat, r: nat)
    requires IsRun(trace, steps) && trace[0] == Initial(content) && i < |trace| && r in trace[i].restored
    ensures r < |trace[i].rows| && trace[i].rows[r] in trace[i].rows[..r]
  {
    LineageHolds(trace, steps, content, i);
  }
}
