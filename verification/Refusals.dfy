/**
 * A request answered 409 (src/server.ts:341-358): exactly when its operation is stored all the same, over
 * every run, head syncs by timer included (src/manager.ts:115-126).
 */
module Refusals {
  import opened Options
  import opened Replicas
  import opened Lineages
  import opened Acknowledgements

  // ---- the queue and the copies ------------------------------------------------------------------

  /** If queued and under way, at the head of its process's queue; and on its own process's copies. */
  ghost predicate OrderlyJob(j: nat, job: Job, running: map<nat, nat>, copies: seq<Copy>) {
    && (job.kind.Fetch? ==> job.phase.Waiting? || job.phase.Missed? || job.phase.Loading? || job.phase.Done?)
    && (Queued(job.kind) && !job.phase.Waiting? && !job.phase.Done? ==>
          job.process in running && running[job.process] == j)
    && (job.phase.Holding? || job.phase.Ran? || job.phase.Saving? ==>
          job.phase.copy < |copies| && copies[job.phase.copy].owner == job.process)
  }

  ghost predicate Orderly(jobs: seq<Job>, running: map<nat, nat>, copies: seq<Copy>) {
    forall j | 0 <= j < |jobs| :: OrderlyJob(j, jobs[j], running, copies)
  }

  ghost predicate IsRequest(jobs: seq<Job>, k: int) {
    0 <= k < |jobs| && jobs[k].kind.Request?
  }

  lemma OrderlyOfOther(s: State, step: Step, i: nat)
    requires CopiesGood(s.rows, s.copies) && Orderly(s.jobs, s.running, s.copies) && Can(s, step)
    requires i < |s.jobs| && !Moves(step, i)
    ensures i < |Next(s, step).jobs| && OrderlyJob(i, Next(s, step).jobs[i], Next(s, step).running, Next(s, step).copies)
  {
    OnlyOneMoves(s, step, i);
    StepGrows(s, step);
    assert OrderlyJob(i, s.jobs[i], s.running, s.copies);
    assert !step.Submit? ==> OrderlyJob(step.j, s.jobs[step.j], s.running, s.copies);
    if Queued(s.jobs[i].kind) && !s.jobs[i].phase.Waiting? && !s.jobs[i].phase.Done? {
      RunningOfOther(s, step, i);
    }
  }

  /** Only the queue of the job that moved changes, and only while no other job is at its head. */
  lemma RunningOfOther(s: State, step: Step, i: nat)
    requires Can(s, step) && i < |s.jobs| && !Moves(step, i)
    requires s.jobs[i].process in s.running && s.running[s.jobs[i].process] == i
    requires !step.Submit? && Queued(s.jobs[step.j].kind) && !s.jobs[step.j].phase.Waiting? && !s.jobs[step.j].phase.Done? ==>
               s.jobs[step.j].process in s.running && s.running[s.jobs[step.j].process] == step.j
    ensures s.jobs[i].process in Next(s, step).running && Next(s, step).running[s.jobs[i].process] == i
  {
    match step
    case Persist(j) =>
    case CompareAndSet(j) =>
    case Hear(j) =>
    case Start(j) =>
    case _ =>
  }

  lemma OrderlyOfMoved(s: State, step: Step, j: nat)
    requires LiveGood(s.live, s.copies) && j < |s.jobs| && OrderlyJob(j, s.jobs[j], s.running, s.copies)
    requires Can(s, step) && Moves(step, j)
    ensures j < |Next(s, step).jobs| && OrderlyJob(j, Next(s, step).jobs[j], Next(s, step).running, Next(s, step).copies)
  {
    match step
    case Persist(_) =>
    case CompareAndSet(_) =>
    case Hear(_) =>
    case Start(_) =>
    case Install(_) =>
    case _ =>
  }

  lemma OnlySubmitAdds(s: State, step: Step)
    requires Can(s, step)
    ensures step.Submit? ==> Next(s, step).jobs == s.jobs + [Job(step.process, step.kind, Waiting)]
    ensures !step.Submit? ==> |Next(s, step).jobs| == |s.jobs|
  {
    match step
    case Persist(_) =>
    case CompareAndSet(_) =>
    case Hear(_) =>
    case _ =>
  }

  lemma OrderlyKept(s: State, step: Step)
    requires CopiesGood(s.rows, s.copies) && LiveGood(s.live, s.copies) && Orderly(s.jobs, s.running, s.copies)
    requires Can(s, step)
    ensures Orderly(Next(s, step).jobs, Next(s, step).running, Next(s, step).copies)
  {
    var t := Next(s, step);
    forall i | 0 <= i < |t.jobs| ensures OrderlyJob(i, t.jobs[i], t.running, t.copies) {
      if i < |s.jobs| && Moves(step, i) {
        OrderlyOfMoved(s, step, i);
      } else if i < |s.jobs| {
        OrderlyOfOther(s, step, i);
      } else {
        OnlySubmitAdds(s, step);
      }
    }
  }

  lemma {:induction false} OrderlyHolds(trace: seq<State>, steps: seq<Step>, content: Content, i: nat)
    requires IsRun(trace, steps) && trace[0] == Initial(content) && i < |trace|
    ensures Orderly(trace[i].jobs, trace[i].running, trace[i].copies)
  {
    if i > 0 {
      OrderlyHolds(trace, steps, content, i - 1);
      LineageHolds(trace, steps, content, i - 1);
      OrderlyKept(trace[i - 1], steps[i - 1]);
    }
  }

  lemma StepGrows(s: State, step: Step)
    requires CopiesGood(s.rows, s.copies) && Can(s, step)
    ensures CopiesGrown(s.copies, Next(s, step).copies)
  {
    match step
    case Run(j, changes) => RunGrows(s, j, changes);
    case Hear(j) => HearGrows(s, j);
    case Persist(j) =>
    case CompareAndSet(j) =>
    case _ =>
  }

  lemma RunGrows(s: State, j: nat, changes: bool)
    requires CopiesGood(s.rows, s.copies) && Can(s, Run(j, changes))
    ensures CopiesGrown(s.copies, Next(s, Run(j, changes)).copies)
  {
    var c := s.Phase(j).copy;
    AppliedGood(s.rows, s.copies[c], j);
  }

  lemma HearGrows(s: State, j: nat)
    requires CopiesGood(s.rows, s.copies) && Can(s, Hear(j))
    ensures CopiesGrown(s.copies, Next(s, Hear(j)).copies)
  {
    if s.Phase(j).Saved? {
      HearEffect(s, j);
    }
  }

  lemma {:induction false} CopiesOnlyGrow(trace: seq<State>, steps: seq<Step>, content: Content, i: nat, k: nat)
    requires IsRun(trace, steps) && trace[0] == Initial(content) && i <= k < |trace|
    ensures CopiesGrown(trace[i].copies, trace[k].copies)
    decreases k - i
  {
    if i < k {
      LineageHolds(trace, steps, content, i);
      StepGrows(trace[i], steps[i]);
      CopiesOnlyGrow(trace, steps, content, i + 1, k);
    }
  }

  lemma {:induction false} KindStays(trace: seq<State>, steps: seq<Step>, i: nat, k: nat, j: nat)
    requires IsRun(trace, steps) && i <= k < |trace| && j < |trace[i].jobs|
    ensures j < |trace[k].jobs| && trace[k].jobs[j].kind == trace[i].jobs[j].kind
    ensures trace[k].jobs[j].process == trace[i].jobs[j].process
    decreases k - i
  {
    if i < k {
      OnlyOneMoves(trace[i], steps[i], j);
      KindStays(trace, steps, i + 1, k, j);
    }
  }

  lemma {:induction false} DoneForGood(trace: seq<State>, steps: seq<Step>, i: nat, k: nat, j: nat)
    requires IsRun(trace, steps) && i <= k < |trace| && j < |trace[i].jobs| && trace[i].jobs[j].phase.Done?
    ensures j < |trace[k].jobs| && trace[k].jobs[j] == trace[i].jobs[j]
    decreases k - i
  {
    if i < k {
      DoneStays(trace[i], steps[i], j);
      DoneForGood(trace, steps, i + 1, k, j);
    }
  }

  // ---- where an operation came from ----------------------------------------------------------------

  /** At step `r`, job `j` ran on copy `c` and changed it. */
  ghost predicate RanOn(trace: seq<State>, steps: seq<Step>, r: nat, j: nat, c: nat) {
    && r < |steps| < |trace| && steps[r] == Run(j, true)
    && j < |trace[r].jobs| && trace[r].jobs[j].phase == Holding(c)
  }

  /** At step `a`, job `h` turned copy `c` into a pending write. */
  ghost predicate SentOut(trace: seq<State>, steps: seq<Step>, a: nat, h: nat, c: nat) {
    && a < |steps| < |trace| && steps[a] == Persist(h) && h < |trace[a].jobs| && h < |trace[a + 1].jobs|
    && trace[a + 1].jobs[h].phase.Saving? && trace[a + 1].jobs[h].phase.copy == c
  }

  /** At step `b`, the store took what job `h` had on its way. */
  ghost predicate Won(trace: seq<State>, steps: seq<Step>, b: nat, h: nat, phase: Phase) {
    && b < |steps| < |trace| && steps[b] == CompareAndSet(h) && h < |trace[b].jobs|
    && trace[b].jobs[h].phase == phase && phase.Saving? && phase.revision == |trace[b].rows|
  }

  ghost predicate BeforeRun(content: Content) {
    forall op | op in content :: op < 0
  }

  /** A copy's content after a step: new from a row, grown by the operation that ran on it, or as it was. */
  lemma ContentEffect(s: State, step: Step, c: nat)
    requires Can(s, step) && c < |Next(s, step).copies|
    ensures var t := Next(s, step);
            if c >= |s.copies| then
              step.Install? && t.copies[c].content == s.Phase(step.j).content
            else
              || t.copies[c].content == s.copies[c].content
              || (step == Run(step.j, true) && s.Phase(step.j) == Holding(c)
                  && t.copies[c].content == s.copies[c].content + [step.j])
  {
    match step
    case Persist(_) =>
    case CompareAndSet(_) =>
    case Hear(_) =>
    case Run(_, _) =>
    case Install(_) =>
    case _ =>
  }

  lemma StoredOn(rows: seq<Content>, rows1: seq<Content>, op: nat)
    requires Stored(rows, op) && rows <= rows1
    ensures Stored(rows1, op)
  {
    var r :| 0 <= r < |rows| && op in rows[r];
    assert rows1[r] == rows[r];
  }

  lemma StoredBefore(trace: seq<State>, steps: seq<Step>, i: nat, k: nat, op: nat)
    requires IsRun(trace, steps) && i <= k < |trace| && Stored(trace[i].rows, op)
    ensures Stored(trace[k].rows, op)
  {
    RowsOnlyAppended(trace, steps, i, k);
    StoredOn(trace[i].rows, trace[k].rows, op);
  }

  /** An operation a copy has and no row has ran on that copy. */
  lemma {:induction false} UnstoredRanHere(trace: seq<State>, steps: seq<Step>, content: Content, i: nat, c: nat, op: nat)
    returns (r: nat)
    requires IsRun(trace, steps) && trace[0] == Initial(content) && i < |trace|
    requires c < |trace[i].copies| && op in trace[i].copies[c].content && !Stored(trace[i].rows, op)
    ensures r < i && RanOn(trace, steps, r, op, c)
  {
    if i == 0 {
      assert false;
    } else {
      LineageHolds(trace, steps, content, i - 1);
      UnstoredBefore(trace[i - 1], steps[i - 1], c, op);
      if op in trace[i - 1].copies[c].content {
        r := UnstoredRanHere(trace, steps, content, i - 1, c, op);
      } else {
        r := i - 1;
      }
    }
  }

  lemma UnstoredBefore(s: State, step: Step, c: nat, op: nat)
    requires Lineage(s) && Can(s, step) && c < |Next(s, step).copies|
    requires op in Next(s, step).copies[c].content && !Stored(Next(s, step).rows, op)
    ensures !Stored(s.rows, op) && c < |s.copies|
    ensures op in s.copies[c].content || (step == Run(op, true) && op < |s.jobs| && s.Phase(op) == Holding(c))
  {
    ContentEffect(s, step, c);
    StepAppends(s, step);
    if Stored(s.rows, op) {
      StoredOn(s.rows, Next(s, step).rows, op);
    }
    if c >= |s.copies| {
      LoadedIsStored(s, step.j, op);
    }
  }

  lemma LoadedIsStored(s: State, j: nat, op: nat)
    requires Lineage(s) && Can(s, Install(j)) && op in s.Phase(j).content
    ensures Stored(s.rows, op)
  {
    assert PhaseGood(s.rows, s.copies, s.jobs[j].phase);
    assert op in s.rows[s.Phase(j).revision - 1];
  }

  lemma SavingComesFrom(s: State, step: Step, j: nat)
    requires Can(s, step) && j < |Next(s, step).jobs| && Next(s, step).jobs[j].phase.Saving?
    ensures j < |s.jobs| && (if Moves(step, j) then step == Persist(j) else Next(s, step).jobs[j] == s.jobs[j])
  {
    OnlySubmitAdds(s, step);
    if j < |s.jobs| {
      OnlyOneMoves(s, step, j);
    }
    match step
    case Persist(_) =>
    case CompareAndSet(_) =>
    case Hear(_) =>
    case _ =>
  }

  /** A write on its way holds what the live copy held when it set out. */
  lemma {:induction false} SetOut(trace: seq<State>, steps: seq<Step>, i: nat, h: nat) returns (a: nat)
    requires IsRun(trace, steps) && i < |trace| && h < |trace[i].jobs| && trace[i].jobs[h].phase.Saving?
    requires trace[0].jobs == []
    ensures a < i && SentOut(trace, steps, a, h, trace[i].jobs[h].phase.copy)
    ensures trace[a + 1].jobs[h].phase == trace[i].jobs[h].phase
    ensures TakesLive(trace[a], h, trace[i].jobs[h].phase)
  {
    if i == 0 {
      assert false;
    } else {
      SavingComesFrom(trace[i - 1], steps[i - 1], h);
      if Moves(steps[i - 1], h) {
        a := i - 1;
        PersistTakesLive(trace[a], h);
      } else {
        a := SetOut(trace, steps, i - 1, h);
      }
    }
  }

  /** What `persist` sends is the live copy of the job's process, as it stands. */
  ghost predicate TakesLive(s: State, h: nat, phase: Phase) {
    && h < |s.jobs| && s.jobs[h].phase.Ran? && phase.Saving? && s.jobs[h].process in s.live
    && s.live[s.jobs[h].process] == phase.copy && phase.copy < |s.copies| && phase.content == s.copies[phase.copy].content
  }

  lemma PersistTakesLive(s: State, h: nat)
    requires Can(s, Persist(h)) && Next(s, Persist(h)).jobs[h].phase.Saving?
    ensures TakesLive(s, h, Next(s, Persist(h)).jobs[h].phase)
  {
    PersistEffect(s, h);
  }

  /** A row that brings an operation in is written by the store's step, from what was on its way. */
  lemma {:induction false} FirstStored(trace: seq<State>, steps: seq<Step>, k: nat, op: nat) returns (b: nat)
    requires IsRun(trace, steps) && k < |trace| && Stored(trace[k].rows, op) && !Stored(trace[0].rows, op)
    ensures b < k && !Stored(trace[b].rows, op) && Stored(trace[b + 1].rows, op)
    ensures steps[b].CompareAndSet? && trace[b].Phase(steps[b].j).revision == |trace[b].rows|
    ensures op in trace[b].Phase(steps[b].j).content
  {
    if Stored(trace[k - 1].rows, op) {
      b := FirstStored(trace, steps, k - 1, op);
    } else {
      b := k - 1;
      BringsIn(trace[b], steps[b], op);
    }
  }

  lemma BringsIn(s: State, step: Step, op: nat)
    requires Can(s, step) && Stored(Next(s, step).rows, op) && !Stored(s.rows, op)
    ensures step.CompareAndSet? && s.Phase(step.j).revision == |s.rows| && op in s.Phase(step.j).content
  {
    StepAppends(s, step);
    forall r | 0 <= r < |s.rows| ensures op !in Next(s, step).rows[r] {
      assert Next(s, step).rows[r] == s.rows[r];
    }
  }

  // ---- a request after its run -----------------------------------------------------------------------

  /** Where a request that changed copy `c` can be. */
  predicate Since(phase: Phase, c: nat) {
    phase == Ran(c) || phase.Saving? || phase.Saved? || phase == Lost || phase.Done?
  }

  lemma {:induction false} AfterRun(trace: seq<State>, steps: seq<Step>, r: nat, x: nat, j: nat, c: nat)
    requires IsRun(trace, steps) && RanOn(trace, steps, r, j, c) && IsRequest(trace[r].jobs, j) && r < x < |trace|
    ensures IsRequest(trace[x].jobs, j) && Since(trace[x].jobs[j].phase, c)
  {
    if x == r + 1 {
      OnlyOneMoves(trace[r], steps[r], j);
    } else {
      AfterRun(trace, steps, r, x - 1, j, c);
      SinceStays(trace[x - 1], steps[x - 1], j, c);
    }
  }

  lemma SinceStays(s: State, step: Step, j: nat, c: nat)
    requires Can(s, step) && IsRequest(s.jobs, j) && Since(s.jobs[j].phase, c)
    ensures IsRequest(Next(s, step).jobs, j) && Since(Next(s, step).jobs[j].phase, c)
  {
    OnlyOneMoves(s, step, j);
    match step
    case Persist(_) =>
    case CompareAndSet(_) =>
    case Hear(_) =>
    case _ =>
  }

  /** A request whose own write was taken is never told 409. */
  lemma {:induction false} SavedEndsWell(trace: seq<State>, steps: seq<Step>, i: nat, k: nat, j: nat)
    requires IsRun(trace, steps) && i <= k < |trace| && IsRequest(trace[i].jobs, j)
    requires trace[i].jobs[j].phase.Saved? || trace[i].jobs[j].phase == Done(Ok)
    ensures j < |trace[k].jobs| && trace[k].jobs[j].phase != Done(Stale)
    decreases k - i
  {
    if i < k {
      OnlyOneMoves(trace[i], steps[i], j);
      if Moves(steps[i], j) {
        assert steps[i] == Hear(j);
      }
      SavedEndsWell(trace, steps, i + 1, k, j);
    }
  }

  lemma LiveStaysAway(s: State, step: Step, c: nat, p: nat)
    requires Can(s, step) && c < |s.copies| && (p in s.live ==> s.live[p] != c)
    ensures p in Next(s, step).live ==> Next(s, step).live[p] != c
  {
    match step
    case Persist(_) =>
    case CompareAndSet(_) =>
    case Hear(_) =>
    case _ =>
  }

  /** The end of a request that lost: refused by `persist` for running on a dropped copy, or by the store. */
  lemma LoserEffect(s: State, step: Step, j: nat)
    requires Can(s, step) && IsRequest(s.jobs, j) && !s.jobs[j].phase.Done? && !s.jobs[j].phase.Replaced?
    requires j < |Next(s, step).jobs| && Next(s, step).jobs[j].phase == Done(Stale)
    ensures var t, p := Next(s, step), s.jobs[j].process;
            || (s.jobs[j].phase.Ran? && t.live == s.live && (p in s.live ==> s.live[p] != s.jobs[j].phase.copy))
            || (s.jobs[j].phase == Lost && t.live == s.live - {p})
  {
    OnlyOneMoves(s, step, j);
    match step
    case Persist(_) =>
    case CompareAndSet(_) =>
    case Hear(_) =>
    case _ =>
  }

  /** Once a request has been answered 409, the copy it changed is served by no process again. */
  lemma {:induction false} AfterReply(trace: seq<State>, steps: seq<Step>, content: Content, r: nat, x: nat, j: nat, c: nat,
                                      p: nat)
    requires IsRun(trace, steps) && trace[0] == Initial(content)
    requires RanOn(trace, steps, r, j, c) && IsRequest(trace[r].jobs, j) && r < x < |trace|
    requires j < |trace[x].jobs| && trace[x].jobs[j].phase == Done(Stale)
    ensures p in trace[x].live ==> trace[x].live[p] != c
    decreases x, 0
  {
    if x == r + 1 {
      RunLeavesRan(trace, steps, r, j, c);
    } else {
      var y := x - 1;
      AfterRun(trace, steps, r, y, j, c);
      ReplyEarlier(trace, steps, content, r, y, j, c, p);
      ReplyStep(trace, steps, content, r, y, j, c, p);
    }
  }

  lemma ReplyEarlier(trace: seq<State>, steps: seq<Step>, content: Content, r: nat, y: nat, j: nat, c: nat, p: nat)
    requires IsRun(trace, steps) && trace[0] == Initial(content) && r < y < |trace| - 1
    requires RanOn(trace, steps, r, j, c) && IsRequest(trace[r].jobs, j)
    requires j < |trace[y].jobs| && j < |trace[y + 1].jobs| && trace[y + 1].jobs[j].phase == Done(Stale)
    ensures trace[y].jobs[j].phase.Done? ==> (p in trace[y].live ==> trace[y].live[p] != c)
    decreases y, 1
  {
    if trace[y].jobs[j].phase.Done? {
      DoneForGood(trace, steps, y, y + 1, j);
      AfterReply(trace, steps, content, r, y, j, c, p);
    }
  }

  lemma RunLeavesRan(trace: seq<State>, steps: seq<Step>, r: nat, j: nat, c: nat)
    requires IsRun(trace, steps) && RanOn(trace, steps, r, j, c) && IsRequest(trace[r].jobs, j)
    ensures j < |trace[r + 1].jobs| && trace[r + 1].jobs[j].phase == Ran(c)
  {
  }

  lemma ReplyStep(trace: seq<State>, steps: seq<Step>, content: Content, r: nat, x: nat, j: nat, c: nat, p: nat)
    requires IsRun(trace, steps) && trace[0] == Initial(content) && r < x < |steps|
    requires RanOn(trace, steps, r, j, c) && IsRequest(trace[r].jobs, j)
    requires j < |trace[x].jobs| && j < |trace[x + 1].jobs| && trace[x + 1].jobs[j].phase == Done(Stale)
    requires trace[x].jobs[j].phase.Done? ==> (p in trace[x].live ==> trace[x].live[p] != c)
    ensures p in trace[x + 1].live ==> trace[x + 1].live[p] != c
  {
    AfterRun(trace, steps, r, x, j, c);
    KindStays(trace, steps, r, x, j);
    OwnerOf(trace, steps, content, r, x, j, c);
    LineageHolds(trace, steps, content, x);
    GoneAfter(trace[x], steps[x], j, c, p);
  }

  lemma GoneAfter(s: State, step: Step, j: nat, c: nat, p: nat)
    requires LiveGood(s.live, s.copies) && Can(s, step) && IsRequest(s.jobs, j) && Since(s.jobs[j].phase, c)
    requires c < |s.copies| && s.copies[c].owner == s.jobs[j].process
    requires j < |Next(s, step).jobs| && Next(s, step).jobs[j].phase == Done(Stale)
    requires s.jobs[j].phase.Done? ==> (p in s.live ==> s.live[p] != c)
    ensures p in Next(s, step).live ==> Next(s, step).live[p] != c
  {
    if s.jobs[j].phase.Done? {
      LiveStaysAway(s, step, c, p);
    } else {
      LoserEffect(s, step, j);
    }
  }

  /** The copy a request changed is its own process's. */
  lemma OwnerOf(trace: seq<State>, steps: seq<Step>, content: Content, r: nat, x: nat, j: nat, c: nat)
    requires IsRun(trace, steps) && trace[0] == Initial(content)
    requires RanOn(trace, steps, r, j, c) && r <= x < |trace|
    ensures c < |trace[x].copies| && trace[x].copies[c].owner == trace[r].jobs[j].process
  {
    OrderlyHolds(trace, steps, content, r);
    assert OrderlyJob(j, trace[r].jobs[j], trace[r].running, trace[r].copies);
    CopiesOnlyGrow(trace, steps, content, r, x);
  }

  // ---- when a refused operation is stored -------------------------------------------------------------

  /**
   * A head sync of the request's own process carried its work off: after the request ran on a copy and
   * before it was answered, the sync sent that copy to the store, and the store took it.
   */
  ghost predicate CarriedOff(trace: seq<State>, steps: seq<Step>, k: nat, j: nat, h: nat, c: nat, r: nat, a: nat, b: nat) {
    && r < a < b < k < |trace| && RanOn(trace, steps, r, j, c)
    && SentOut(trace, steps, a, h, c) && trace[a].jobs[h].kind.HeadSync?
    && j < |trace[a].jobs| && trace[a].jobs[h].process == trace[a].jobs[j].process && !trace[a].jobs[j].phase.Done?
    && Won(trace, steps, b, h, trace[a + 1].jobs[h].phase)
  }

  ghost predicate SyncCarriedOff(trace: seq<State>, steps: seq<Step>, k: nat, j: nat) {
    exists h: nat, c: nat, r: nat, a: nat, b: nat :: CarriedOff(trace, steps, k, j, h, c, r, a, b)
  }

  lemma CarriedOffIsStored(trace: seq<State>, steps: seq<Step>, content: Content, k: nat, j: nat,
                           h: nat, c: nat, r: nat, a: nat, b: nat)
    requires IsRun(trace, steps) && trace[0] == Initial(content) && k < |trace|
    requires CarriedOff(trace, steps, k, j, h, c, r, a, b) && IsRequest(trace[k].jobs, j)
    ensures Stored(trace[k].rows, j)
  {
    KindBack(trace, steps, r, k, j);
    RanIsThere(trace, steps, content, r, a, j, c);
    PersistTakesLive(trace[a], h);
    assert j in trace[b].jobs[h].phase.content;
    WonIsStored(trace[b], h, j);
    StoredBefore(trace, steps, b + 1, k, j);
  }

  lemma WonIsStored(s: State, h: nat, op: nat)
    requires Can(s, CompareAndSet(h)) && s.Phase(h).revision == |s.rows| && op in s.Phase(h).content
    ensures Stored(Next(s, CompareAndSet(h)).rows, op)
  {
    assert op in Next(s, CompareAndSet(h)).rows[|s.rows|];
  }

  lemma RanIsThere(trace: seq<State>, steps: seq<Step>, content: Content, r: nat, x: nat, j: nat, c: nat)
    requires IsRun(trace, steps) && trace[0] == Initial(content) && r < x < |trace|
    requires RanOn(trace, steps, r, j, c) && IsRequest(trace[r].jobs, j)
    ensures c < |trace[x].copies| && j in trace[x].copies[c].content
  {
    OwnerOf(trace, steps, content, r, r, j, c);
    var before, after := trace[r].copies[c].content, trace[r + 1].copies;
    assert after[c].content == before + [j] && after[c].content[|before|] == j;
    CopiesOnlyGrow(trace, steps, content, r + 1, x);
    assert trace[x].copies[c].content[|before|] == j;
  }

  /** The write that brings a refused operation in is a head sync's, and set out before the answer. */
  lemma StoredIsCarriedOff(trace: seq<State>, steps: seq<Step>, content: Content, k: nat, j: nat)
    requires IsRun(trace, steps) && trace[0] == Initial(content) && BeforeRun(content) && k < |trace|
    requires IsRequest(trace[k].jobs, j) && trace[k].jobs[j].phase == Done(Stale) && Stored(trace[k].rows, j)
    ensures SyncCarriedOff(trace, steps, k, j)
  {
    var b := FirstStored(trace, steps, k, j);
    var h := steps[b].j;
    LineageHolds(trace, steps, content, b);
    SavingNotReplacing(trace[b], h, j);
    var phase := trace[b].jobs[h].phase;
    var a := SetOut(trace, steps, b, h);
    if Stored(trace[a].rows, j) {
      StoredBefore(trace, steps, a, b, j);
    }
    var r := UnstoredRanHere(trace, steps, content, a, phase.copy, j);
    KindStays(trace, steps, r, k, j);
    AfterRun(trace, steps, r, a, j, phase.copy);
    KindStays(trace, steps, r, a, j);
    NotAnswered(trace, steps, content, r, a, k, j, h, phase);
    SenderIsSync(trace, steps, content, r, a, b, k, j, h, phase);
    assert CarriedOff(trace, steps, k, j, h, phase.copy, r, a, b);
  }

  lemma SavingNotReplacing(s: State, h: nat, op: nat)
    requires Lineage(s) && Can(s, CompareAndSet(h)) && op in s.Phase(h).content && !Stored(s.rows, op)
    ensures s.Phase(h).Saving?
  {
    assert PhaseGood(s.rows, s.copies, s.jobs[h].phase);
  }

  /** While its copy is still live, the request has not been answered. */
  lemma NotAnswered(trace: seq<State>, steps: seq<Step>, content: Content, r: nat, a: nat, k: nat, j: nat, h: nat, phase: Phase)
    requires IsRun(trace, steps) && trace[0] == Initial(content) && r < a < k < |trace|
    requires IsRequest(trace[r].jobs, j) && j < |trace[a].jobs| && j < |trace[k].jobs| && trace[k].jobs[j].phase == Done(Stale)
    requires phase.Saving? && RanOn(trace, steps, r, j, phase.copy) && TakesLive(trace[a], h, phase)
    ensures !trace[a].jobs[j].phase.Done?
  {
    if trace[a].jobs[j].phase.Done? {
      DoneForGood(trace, steps, a, k, j);
      AfterReply(trace, steps, content, r, a, j, phase.copy, trace[a].jobs[h].process);
    }
  }

  /** No queued job of the process can send the copy meanwhile, and the request's own write did not win. */
  lemma SenderIsSync(trace: seq<State>, steps: seq<Step>, content: Content, r: nat, a: nat, b: nat, k: nat, j: nat, h: nat,
                     phase: Phase)
    requires IsRun(trace, steps) && trace[0] == Initial(content) && r < a < b < k < |trace|
    requires phase.Saving? && IsRequest(trace[r].jobs, j) && IsRequest(trace[a].jobs, j)
    requires Since(trace[a].jobs[j].phase, phase.copy) && RanOn(trace, steps, r, j, phase.copy) && TakesLive(trace[a], h, phase)
    requires !trace[a].jobs[j].phase.Done? && j < |trace[k].jobs| && trace[k].jobs[j].phase == Done(Stale)
    requires trace[a].jobs[j].process == trace[r].jobs[j].process
    requires Won(trace, steps, b, h, phase)
    ensures trace[a].jobs[h].kind.HeadSync? && trace[a].jobs[h].process == trace[a].jobs[j].process
  {
    OwnerOf(trace, steps, content, r, a, j, phase.copy);
    LineageHolds(trace, steps, content, a);
    OrderlyHolds(trace, steps, content, a);
    assert OrderlyJob(j, trace[a].jobs[j], trace[a].running, trace[a].copies);
    assert OrderlyJob(h, trace[a].jobs[h], trace[a].running, trace[a].copies);
    if h == j {
      KindStays(trace, steps, a, b + 1, j);
      WonIsSaved(trace[b], h);
      SavedEndsWell(trace, steps, b + 1, k, j);
    }
  }

  lemma WonIsSaved(s: State, h: nat)
    requires Can(s, CompareAndSet(h)) && s.Phase(h).Saving? && s.Phase(h).revision == |s.rows|
    ensures h < |Next(s, CompareAndSet(h)).jobs| && Next(s, CompareAndSet(h)).jobs[h].phase.Saved?
  {
  }

  /**
   * Exactly when a 409 is untrue: over every run of any number of processes, a request answered 409 has
   * its operation in a stored row if and only if a head sync of its own process carried it off.
   */
  lemma RefusedIsStoredIff(trace: seq<State>, steps: seq<Step>, content: Content, k: nat, j: nat)
    requires IsRun(trace, steps) && trace[0] == Initial(content) && BeforeRun(content) && k < |trace|
    requires IsRequest(trace[k].jobs, j) && trace[k].jobs[j].phase == Done(Stale)
    ensures Stored(trace[k].rows, j) <==> SyncCarriedOff(trace, steps, k, j)
  {
    if Stored(trace[k].rows, j) {
      StoredIsCarriedOff(trace, steps, content, k, j);
    }
    if h: nat, c: nat, r: nat, a: nat, b: nat :| CarriedOff(trace, steps, k, j, h, c, r, a, b) {
      CarriedOffIsStored(trace, steps, content, k, j, h, c, r, a, b);
    }
  }

  lemma KindBack(trace: seq<State>, steps: seq<Step>, i: nat, k: nat, j: nat)
    requires IsRun(trace, steps) && i <= k < |trace| && j < |trace[i].jobs| && IsRequest(trace[k].jobs, j)
    ensures IsRequest(trace[i].jobs, j)
  {
    KindStays(trace, steps, i, k, j);
  }

  // ---- what can be known beforehand ---------------------------------------------------------------------

  /** Nobody asks this process to follow the head. */
  ghost predicate NoHeadSyncOn(steps: seq<Step>, p: nat) {
    forall n | 0 <= n < |steps| && steps[n].Submit? && steps[n].kind.HeadSync? :: steps[n].process != p
  }

  lemma {:induction false} WasSubmitted(trace: seq<State>, steps: seq<Step>, i: nat, h: nat) returns (n: nat)
    requires IsRun(trace, steps) && trace[0].jobs == [] && i < |trace| && h < |trace[i].jobs|
    ensures n < i && steps[n] == Submit(trace[i].jobs[h].kind, trace[i].jobs[h].process)
  {
    if i == 0 {
      assert false;
    } else {
      OnlySubmitAdds(trace[i - 1], steps[i - 1]);
      if h < |trace[i - 1].jobs| {
        OnlyOneMoves(trace[i - 1], steps[i - 1], h);
        n := WasSubmitted(trace, steps, i - 1, h);
      } else {
        n := i - 1;
      }
    }
  }

  /**
   * So a 409 is true wherever the request's own process never follows the head, whatever the others do:
   * the operation is in no row, then or ever after.
   */
  lemma RefusedIsNowhere(trace: seq<State>, steps: seq<Step>, content: Content, i: nat, k: nat, j: nat)
    requires IsRun(trace, steps) && trace[0] == Initial(content) && BeforeRun(content)
    requires i <= k < |trace| && IsRequest(trace[i].jobs, j) && trace[i].jobs[j].phase == Done(Stale)
    requires NoHeadSyncOn(steps, trace[i].jobs[j].process)
    ensures !Stored(trace[k].rows, j)
  {
    DoneForGood(trace, steps, i, k, j);
    RefusedIsStoredIff(trace, steps, content, k, j);
    if h: nat, c: nat, r: nat, a: nat, b: nat :| CarriedOff(trace, steps, k, j, h, c, r, a, b) {
      KindStays(trace, steps, a, k, j);
      var n := WasSubmitted(trace, steps, a, h);
    }
  }

  // ---- a run in which it happens --------------------------------------------------------------------------

  /** Process 0 with one request, one head sync and, once loaded, one copy. */
  function Scene(rows: seq<Content>, copies: seq<Copy>, live: map<nat, nat>, request: Phase, sync: Phase,
                 running: map<nat, nat>, applied: set<nat>): State {
    State(rows, {}, copies, live, [Job(0, Request, request), Job(0, HeadSync, sync)], running, [], applied, {})
  }

  const HERE: map<nat, nat> := map[0 := 0]
  const OUT: Phase := Saving(0, 2, [0, 1], 1)

  lemma RequestStarts() returns (trace: seq<State>, steps: seq<Step>)
    ensures IsRun(trace, steps) && trace[0] == Initial([])
    ensures trace[|trace| - 1] == Scene([[]], [], map[], Missed, Waiting, HERE, {})
  {
    var s0 := Initial([]);
    var s1 := Next(s0, Submit(Request, 0));
    var s2 := Scene([[]], [], map[], Waiting, Waiting, map[], {});
    trace := [s0, s1, s2, Scene([[]], [], map[], Missed, Waiting, HERE, {})];
    steps := [Submit(Request, 0), Submit(HeadSync, 0), Start(0)];
  }

  lemma RequestLoads() returns (trace: seq<State>, steps: seq<Step>)
    ensures IsRun(trace, steps) && trace[0] == Scene([[]], [], map[], Missed, Waiting, HERE, {})
    ensures trace[|trace| - 1] == Scene([[]], [Copy(0, [], 0, 1, None)], HERE, Holding(0), Waiting, HERE, {})
  {
    var s0 := Scene([[]], [], map[], Missed, Waiting, HERE, {});
    var s1 := Scene([[]], [], map[], Loading([], 1), Waiting, HERE, {});
    var s2 := Scene([[]], [Copy(0, [], 0, 1, None)], HERE, Holding(0), Waiting, HERE, {});
    trace := [s0, s1, s2];
    steps := [Load(0), Install(0)];
  }

  lemma RequestRuns() returns (trace: seq<State>, steps: seq<Step>)
    ensures IsRun(trace, steps)
    ensures trace[0] == Scene([[]], [Copy(0, [], 0, 1, None)], HERE, Holding(0), Waiting, HERE, {})
    ensures trace[|trace| - 1] == Scene([[]], [Copy(0, [0], 1, 1, None)], HERE, Ran(0), Holding(0), HERE, {0})
  {
    var one := Copy(0, [0], 1, 1, None);
    var s0 := Scene([[]], [Copy(0, [], 0, 1, None)], HERE, Holding(0), Waiting, HERE, {});
    var s1 := Scene([[]], [one], HERE, Ran(0), Waiting, HERE, {0});
    var s2 := Scene([[]], [one], HERE, Ran(0), Holding(0), HERE, {0});
    assert s0.copies[0].content + [0] == one.content;
    assert one == Applied(s0.copies[0], 0);
    assert Next(s0, Run(0, true)).copies == s1.copies;
    trace := [s0, s1, s2];
    steps := [Run(0, true), Start(1)];
  }

  lemma SyncRuns() returns (trace: seq<State>, steps: seq<Step>)
    ensures IsRun(trace, steps)
    ensures trace[0] == Scene([[]], [Copy(0, [0], 1, 1, None)], HERE, Ran(0), Holding(0), HERE, {0})
    ensures trace[|trace| - 1] == Scene([[]], [Copy(0, [0, 1], 2, 1, None)], HERE, OUT, OUT, HERE, {0, 1})
  {
    var one := Copy(0, [0], 1, 1, None);
    var two := Copy(0, [0, 1], 2, 1, None);
    var s0 := Scene([[]], [one], HERE, Ran(0), Holding(0), HERE, {0});
    var s1 := Scene([[]], [two], HERE, Ran(0), Ran(0), HERE, {0, 1});
    assert one.content + [1] == two.content;
    assert two == Applied(one, 1);
    assert Next(s0, Run(1, true)).copies == s1.copies;
    trace := [s0, s1, Scene([[]], [two], HERE, Ran(0), OUT, HERE, {0, 1}), Scene([[]], [two], HERE, OUT, OUT, HERE, {0, 1})];
    steps := [Run(1, true), Persist(1), Persist(0)];
  }

  lemma SyncWinsTheWrite() returns (trace: seq<State>, steps: seq<Step>)
    ensures IsRun(trace, steps)
    ensures trace[0] == Scene([[]], [Copy(0, [0, 1], 2, 1, None)], HERE, OUT, OUT, HERE, {0, 1})
    ensures var last := trace[|trace| - 1];
            IsRequest(last.jobs, 0) && last.jobs[0].phase == Done(Stale) && last.rows == [[], [0, 1]]
  {
    var two := [Copy(0, [0, 1], 2, 1, None)];
    var s0 := Scene([[]], two, HERE, OUT, OUT, HERE, {0, 1});
    var s1 := Scene([[], [0, 1]], two, HERE, OUT, Saved(0, 2, 1), HERE, {0, 1});
    var s2 := Scene([[], [0, 1]], two, HERE, Lost, Saved(0, 2, 1), HERE, {0, 1});
    var s3 := Scene([[], [0, 1]], two, map[], Done(Stale), Saved(0, 2, 1), map[], {0, 1});
    trace := [s0, s1, s2, s3];
    steps := [CompareAndSet(1), CompareAndSet(0), Hear(0)];
  }

  lemma RunsJoin(front: seq<State>, first: seq<Step>, back: seq<State>, second: seq<Step>)
    requires IsRun(front, first) && IsRun(back, second) && front[|front| - 1] == back[0]
    ensures IsRun(front + back[1..], first + second)
    ensures (front + back[1..])[0] == front[0]
    ensures (front + back[1..])[|front + back[1..]| - 1] == back[|back| - 1]
  {
    var trace, steps := front + back[1..], first + second;
    forall i | 0 <= i < |steps| ensures Can(trace[i], steps[i]) && trace[i + 1] == Next(trace[i], steps[i]) {
      if i < |first| {
        assert trace[i] == front[i] && trace[i + 1] == front[i + 1];
      } else {
        assert trace[i] == back[i - |first|] && trace[i + 1] == back[i - |first| + 1];
      }
    }
  }

  /**
   * A head sync writes without queueing. When it sets out beside a request on the same copy, its
   * write carries the request's operation, and the request's own write then loses: the caller is
   * told 409, and the operation is stored.
   */
  lemma HeadSyncStoresARefused() returns (trace: seq<State>, steps: seq<Step>)
    ensures IsRun(trace, steps) && trace[0] == Initial([])
    ensures var last := trace[|trace| - 1];
            IsRequest(last.jobs, 0) && last.jobs[0].phase == Done(Stale) && Stored(last.rows, 0)
  {
    var next, more;
    trace, steps := RequestStarts();
    next, more := RequestLoads();
    RunsJoin(trace, steps, next, more);
    trace, steps := trace + next[1..], steps + more;
    next, more := RequestRuns();
    RunsJoin(trace, steps, next, more);
    trace, steps := trace + next[1..], steps + more;
    next, more := SyncRuns();
    RunsJoin(trace, steps, next, more);
    trace, steps := trace + next[1..], steps + more;
    next, more := SyncWinsTheWrite();
    RunsJoin(trace, steps, next, more);
    trace, steps := trace + next[1..], steps + more;
    assert 0 in trace[|trace| - 1].rows[1];
  }
}
