/**
 * When `persist` has nothing to do (src/manager.ts:433-477): over every run, exactly when the copy's last write was
 * taken and heard of, and nothing has changed the copy since that write set out.
 */
module CleanCopies {
  import opened Options
  import opened Replicas
  import opened Lineages
  import opened Acknowledgements
  import opened Refusals

  // ---- what happened to a copy, told from the steps -------------------------------------------------------

  /** At step `y`, some job changes copy `c`. */
  ghost predicate ChangesAt(trace: seq<State>, steps: seq<Step>, y: int, c: nat) {
    && 0 <= y < |steps| < |trace| && steps[y].Run? && steps[y].changes && steps[y].j < |trace[y].jobs|
    && trace[y].jobs[steps[y].j].phase == Holding(c)
    && (trace[y].jobs[steps[y].j].kind.Request? || trace[y].jobs[steps[y].j].kind.HeadSync?)
  }

  /** At step `h`, the process hears that a write of copy `c` was taken. */
  ghost predicate HeardAt(trace: seq<State>, steps: seq<Step>, h: int, c: nat) {
    && 0 <= h < |steps| < |trace| && steps[h].Hear? && steps[h].j < |trace[h].jobs|
    && trace[h].jobs[steps[h].j].phase.Saved? && trace[h].jobs[steps[h].j].phase.copy == c
  }

  /** Of the writes of copy `c`, the one heard of at `h` is the last heard of before `x`. */
  ghost predicate LastHeard(trace: seq<State>, steps: seq<Step>, h: int, x: nat, c: nat) {
    h < x && HeardAt(trace, steps, h, c) && forall y | h < y < x :: !HeardAt(trace, steps, y, c)
  }

  /** The last write of copy `c` heard of before `x` set out at `a`, and nothing has changed the copy since. */
  ghost predicate CleanSince(trace: seq<State>, steps: seq<Step>, a: nat, h: nat, x: nat, c: nat) {
    && a < h && LastHeard(trace, steps, h, x, c) && SentOut(trace, steps, a, steps[h].j, c)
    && forall y | a < y < x :: !ChangesAt(trace, steps, y, c)
  }

  ghost predicate Clean(trace: seq<State>, steps: seq<Step>, x: nat, c: nat) {
    exists a, h | 0 <= a < h < x :: CleanSince(trace, steps, a, h, x, c)
  }

  // ---- versions count changes -----------------------------------------------------------------------------

  /** This step changes copy `c`. */
  predicate Changes(s: State, step: Step, c: nat)
    requires Can(s, step)
  {
    step.Run? && step.changes && s.jobs[step.j].phase == Holding(c) && (s.jobs[step.j].kind.Request? || s.jobs[step.j].kind.HeadSync?)
  }

  /** This step tells the process of copy `c` that its write was taken. */
  predicate Hears(s: State, step: Step, c: nat)
    requires Can(s, step)
  {
    step.Hear? && s.jobs[step.j].phase.Saved? && s.jobs[step.j].phase.copy == c
  }

  lemma CopyAfter(s: State, step: Step, c: nat)
    requires Can(s, step) && c < |s.copies|
    ensures c < |Next(s, step).copies|
    ensures Next(s, step).copies[c].version == s.copies[c].version + if Changes(s, step, c) then 1 else 0
    ensures Next(s, step).copies[c].persisted ==
            if Hears(s, step, c) then Some(s.jobs[step.j].phase.version) else s.copies[c].persisted
  {
    match step
    case Persist(j) => PersistEffect(s, j);
    case CompareAndSet(_) =>
    case Hear(j) => if s.Phase(j).Saved? { HearEffect(s, j); }
    case Install(j) => InstallEffect(s, j);
    case _ =>
  }

  lemma NewCopy(s: State, step: Step, c: nat)
    requires Can(s, step) && |s.copies| <= c < |Next(s, step).copies|
    ensures Next(s, step).copies[c].persisted.None?
  {
    match step
    case Persist(j) => PersistEffect(s, j);
    case CompareAndSet(_) =>
    case Hear(j) => if s.Phase(j).Saved? { HearEffect(s, j); }
    case Install(j) => InstallEffect(s, j);
    case _ =>
  }

  ghost predicate CountedAt(trace: seq<State>, steps: seq<Step>, y: nat, c: nat) {
    && y + 1 < |trace|
    && (c < |trace[y].copies| ==> c < |trace[y + 1].copies|)
    && (c < |trace[y].copies| ==>
          trace[y + 1].copies[c].version == trace[y].copies[c].version + if ChangesAt(trace, steps, y, c) then 1 else 0)
  }

  lemma StepCounts(trace: seq<State>, steps: seq<Step>, y: nat, c: nat)
    requires IsRun(trace, steps) && y < |steps|
    ensures CountedAt(trace, steps, y, c)
  {
    if c < |trace[y].copies| {
      CopyAfter(trace[y], steps[y], c);
      assert Changes(trace[y], steps[y], c) <==> ChangesAt(trace, steps, y, c);
    }
  }

  lemma {:induction false} CountsAddUp(trace: seq<State>, steps: seq<Step>, a: nat, b: nat, c: nat)
    requires a <= b < |trace| && c < |trace[a].copies| && forall y | a <= y < b :: CountedAt(trace, steps, y, c)
    ensures c < |trace[b].copies| && trace[a].copies[c].version <= trace[b].copies[c].version
    ensures trace[a].copies[c].version == trace[b].copies[c].version <==> forall y | a <= y < b :: !ChangesAt(trace, steps, y, c)
    decreases b
  {
    if a < b {
      CountsAddUp(trace, steps, a, b - 1, c);
      assert CountedAt(trace, steps, b - 1, c);
    }
  }

  lemma VersionsCount(trace: seq<State>, steps: seq<Step>, a: nat, b: nat, c: nat)
    requires IsRun(trace, steps) && a <= b < |trace| && c < |trace[a].copies|
    ensures c < |trace[b].copies| && trace[a].copies[c].version <= trace[b].copies[c].version
    ensures trace[a].copies[c].version == trace[b].copies[c].version <==> forall y | a <= y < b :: !ChangesAt(trace, steps, y, c)
  {
    forall y | a <= y < b ensures CountedAt(trace, steps, y, c) { StepCounts(trace, steps, y, c); }
    CountsAddUp(trace, steps, a, b, c);
  }

  // ---- the version a write carries ------------------------------------------------------------------------

  /** Where the job of a write can be from then on: on its way, taken, or past hearing of it. */
  predicate Onwards(phase: Phase, c: nat, version: nat) {
    match phase
    case Saving(copy, v, _, _) => copy == c && v == version
    case Saved(copy, v, _) => copy == c && v == version
    case Lost => true
    case Persisted => true
    case Replacing(_, _) => true
    case Replaced(_) => true
    case Done(_) => true
    case _ => false
  }

  lemma OnwardsStays(s: State, step: Step, i: nat, c: nat, version: nat)
    requires Can(s, step) && i < |s.jobs| && Onwards(s.jobs[i].phase, c, version)
    ensures i < |Next(s, step).jobs| && Onwards(Next(s, step).jobs[i].phase, c, version)
  {
    OnlyOneMoves(s, step, i);
    match step
    case Persist(_) =>
    case CompareAndSet(_) =>
    case Hear(_) =>
    case _ =>
  }

  lemma {:induction false} SentOnwards(trace: seq<State>, steps: seq<Step>, a: nat, k: nat, i: nat, c: nat, version: nat)
    requires IsRun(trace, steps) && a <= k < |trace| && i < |trace[a].jobs| && Onwards(trace[a].jobs[i].phase, c, version)
    ensures i < |trace[k].jobs| && Onwards(trace[k].jobs[i].phase, c, version)
    decreases k
  {
    if a < k {
      SentOnwards(trace, steps, a, k - 1, i, c, version);
      OnwardsStays(trace[k - 1], steps[k - 1], i, c, version);
    }
  }

  lemma SendsVersion(s: State, i: nat)
    requires Can(s, Persist(i)) && Next(s, Persist(i)).jobs[i].phase.Saving?
    ensures var phase := Next(s, Persist(i)).jobs[i].phase;
            phase.copy < |s.copies| && phase.version == s.copies[phase.copy].version
  {
    PersistEffect(s, i);
  }

  /** What is heard of carries the version its copy had when it set out. */
  lemma HeardVersion(trace: seq<State>, steps: seq<Step>, a: nat, h: nat, c: nat)
    requires IsRun(trace, steps) && a < h && HeardAt(trace, steps, h, c) && SentOut(trace, steps, a, steps[h].j, c)
    ensures c < |trace[a].copies| && trace[h].jobs[steps[h].j].phase.version == trace[a].copies[c].version
  {
    var i := steps[h].j;
    SendsVersion(trace[a], i);
    SentOnwards(trace, steps, a + 1, h, i, c, trace[a].copies[c].version);
  }

  lemma SavedByOwn(s: State, step: Step, i: nat)
    requires Can(s, step) && i < |Next(s, step).jobs| && Next(s, step).jobs[i].phase.Saved?
    ensures i < |s.jobs|
    ensures if Moves(step, i) then s.jobs[i].phase.Saving? && s.jobs[i].phase.copy == Next(s, step).jobs[i].phase.copy
            else s.jobs[i] == Next(s, step).jobs[i]
  {
    if i >= |s.jobs| {
      NewcomersWait(s, step, i);
    } else {
      OnlyOneMoves(s, step, i);
    }
    match step
    case Persist(_) =>
    case CompareAndSet(_) =>
    case Hear(_) =>
    case _ =>
  }

  /** What is heard of has set out. */
  lemma {:induction false} HeardSetOut(trace: seq<State>, steps: seq<Step>, k: nat, i: nat) returns (a: nat)
    requires IsRun(trace, steps) && trace[0].jobs == [] && k < |trace| && i < |trace[k].jobs| && trace[k].jobs[i].phase.Saved?
    ensures a < k && SentOut(trace, steps, a, i, trace[k].jobs[i].phase.copy)
  {
    SavedByOwn(trace[k - 1], steps[k - 1], i);
    if Moves(steps[k - 1], i) {
      a := SetOut(trace, steps, k - 1, i);
    } else {
      a := HeardSetOut(trace, steps, k - 1, i);
    }
  }

  // ---- what is known to be stored ---------------------------------------------------------------------------

  lemma NotHeardOfYet(trace: seq<State>, steps: seq<Step>, content: Content, k: nat, c: nat)
    requires IsRun(trace, steps) && trace[0] == Initial(content) && k < |trace| && |trace[k].copies| <= c
    ensures forall h | 0 <= h <= k :: !HeardAt(trace, steps, h, c)
  {
    forall h | 0 <= h <= k ensures !HeardAt(trace, steps, h, c) {
      CopiesOnlyGrow(trace, steps, content, h, k);
    }
  }

  /** A copy knows the version of its last write heard of, and none before the first. */
  lemma {:induction false} PersistedIs(trace: seq<State>, steps: seq<Step>, content: Content, x: nat, c: nat)
    requires IsRun(trace, steps) && trace[0] == Initial(content) && x < |trace| && c < |trace[x].copies|
    ensures trace[x].copies[c].persisted.None? ==> forall h | 0 <= h < x :: !HeardAt(trace, steps, h, c)
    ensures trace[x].copies[c].persisted.Some? ==>
              exists h | 0 <= h < x :: LastHeard(trace, steps, h, x, c)
                                       && trace[x].copies[c].persisted.value == trace[h].jobs[steps[h].j].phase.version
  {
    var k := x - 1;
    if c >= |trace[k].copies| {
      NewCopy(trace[k], steps[k], c);
      NotHeardOfYet(trace, steps, content, k, c);
    } else {
      PersistedIs(trace, steps, content, k, c);
      CopyAfter(trace[k], steps[k], c);
      assert Hears(trace[k], steps[k], c) <==> HeardAt(trace, steps, k, c);
      if HeardAt(trace, steps, k, c) {
        assert LastHeard(trace, steps, k, x, c);
      } else if trace[k].copies[c].persisted.Some? {
        var h :| 0 <= h < k && LastHeard(trace, steps, h, k, c)
                 && trace[k].copies[c].persisted.value == trace[h].jobs[steps[h].j].phase.version;
        assert LastHeard(trace, steps, h, x, c);
      }
    }
  }

  lemma KnownIsClean(trace: seq<State>, steps: seq<Step>, content: Content, x: nat, c: nat)
    requires IsRun(trace, steps) && trace[0] == Initial(content) && x < |trace| && c < |trace[x].copies|
    requires trace[x].copies[c].persisted == Some(trace[x].copies[c].version)
    ensures Clean(trace, steps, x, c)
  {
    PersistedIs(trace, steps, content, x, c);
    var h: nat :| h < x && LastHeard(trace, steps, h, x, c)
                  && trace[x].copies[c].persisted.value == trace[h].jobs[steps[h].j].phase.version;
    var a := HeardSetOut(trace, steps, h, steps[h].j);
    HeardVersion(trace, steps, a, h, c);
    VersionsCount(trace, steps, a, x, c);
    assert CleanSince(trace, steps, a, h, x, c);
  }

  lemma CleanIsKnown(trace: seq<State>, steps: seq<Step>, content: Content, a: nat, h: nat, x: nat, c: nat)
    requires IsRun(trace, steps) && trace[0] == Initial(content) && x < |trace| && c < |trace[x].copies|
    requires h < x && CleanSince(trace, steps, a, h, x, c)
    ensures trace[x].copies[c].persisted == Some(trace[x].copies[c].version)
  {
    PersistedIs(trace, steps, content, x, c);
    HeardVersion(trace, steps, a, h, c);
    NoChangeSince(trace, steps, a, x, c);
  }

  lemma CleanIff(trace: seq<State>, steps: seq<Step>, content: Content, x: nat, c: nat)
    requires IsRun(trace, steps) && trace[0] == Initial(content) && x < |trace| && c < |trace[x].copies|
    ensures trace[x].copies[c].persisted == Some(trace[x].copies[c].version) <==> Clean(trace, steps, x, c)
  {
    if trace[x].copies[c].persisted == Some(trace[x].copies[c].version) {
      KnownIsClean(trace, steps, content, x, c);
    }
    if a: nat, h: nat :| a < h < x && CleanSince(trace, steps, a, h, x, c) {
      CleanIsKnown(trace, steps, content, a, h, x, c);
    }
  }

  lemma NoChangeSince(trace: seq<State>, steps: seq<Step>, a: nat, x: nat, c: nat)
    requires IsRun(trace, steps) && a < x < |trace| && c < |trace[a].copies| && steps[a].Persist?
    requires forall y | a < y < x :: !ChangesAt(trace, steps, y, c)
    ensures c < |trace[x].copies| && trace[a].copies[c].version == trace[x].copies[c].version
  {
    assert !ChangesAt(trace, steps, a, c);
    VersionsCount(trace, steps, a, x, c);
  }

  lemma SkipsIff(s: State, j: nat, c: nat)
    requires Can(s, Persist(j)) && s.jobs[j].phase == Ran(c) && s.jobs[j].process in s.live && s.live[s.jobs[j].process] == c
    ensures var phase := Next(s, Persist(j)).jobs[j].phase;
            && Next(s, Persist(j)).rows == s.rows
            && (phase.Saving? <==> s.copies[c].persisted != Some(s.copies[c].version))
            && (!phase.Saving? && s.jobs[j].kind.Request? ==> phase == Done(Ok))
  {
  }

  /**
   * A copy that is clean is not written again. Over every run, when a job persists the copy it ran on, still live:
   * a write sets out unless the copy's last write heard of set out with all that the copy holds now; then a
   * request is answered 200 at once, having moved no revision under anyone.
   */
  lemma CleanIsSkippedIff(trace: seq<State>, steps: seq<Step>, content: Content, x: nat, j: nat, c: nat)
    requires IsRun(trace, steps) && trace[0] == Initial(content) && x < |steps| && steps[x] == Persist(j)
    requires trace[x].jobs[j].phase == Ran(c) && trace[x].jobs[j].process in trace[x].live
    requires trace[x].live[trace[x].jobs[j].process] == c
    ensures j < |trace[x + 1].jobs| && trace[x + 1].rows == trace[x].rows
    ensures trace[x + 1].jobs[j].phase.Saving? <==> !Clean(trace, steps, x, c)
    ensures Clean(trace, steps, x, c) && trace[x].jobs[j].kind.Request? ==> trace[x + 1].jobs[j].phase == Done(Ok)
  {
    CleanIff(trace, steps, content, x, c);
    SkipsIff(trace[x], j, c);
    OnlyOneMoves(trace[x], steps[x], j);
  }
}
