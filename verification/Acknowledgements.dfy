/** A request answered 200 is stored (src/server.ts:307-340). */
module Acknowledgements {
  import opened Options
  import opened Replicas
  import opened Lineages

  ghost predicate Stored(rows: seq<Content>, op: nat) {
    exists r | 0 <= r < |rows| :: op in rows[r]
  }

  /** Where the operation of a request that changed something is, as its job moves on. */
  ghost predicate Carried(rows: seq<Content>, copies: seq<Copy>, j: nat, phase: Phase) {
    match phase
    case Ran(c) => c < |copies| && j in copies[c].content
    case Saving(_, _, content, _) => j in content
    case Saved(_, _, _) => Stored(rows, j)
    case Lost => true
    case Done(reply) => reply == Ok ==> Stored(rows, j)
    case _ => false
  }

  ghost predicate AllCarried(s: State) {
    && (forall j | 0 <= j < |s.jobs| && s.jobs[j].kind.Request? && j in s.applied ::
          Carried(s.rows, s.copies, j, s.jobs[j].phase))
    && (forall j | j in s.applied :: j < |s.jobs|)
    && (forall j | j in s.dispatched :: j < |s.jobs| && s.jobs[j].kind.Request? && s.jobs[j].phase == Done(Ok))
  }

  /** `persist` sends the copy that holds the operation, or finds that copy already in the store. */
  lemma CarriedOfPersist(s: State, j: nat)
    requires CopiesGood(s.rows, s.copies) && Can(s, Persist(j)) && s.jobs[j].kind.Request?
    requires Carried(s.rows, s.copies, j, s.jobs[j].phase)
    ensures Carried(s.rows, s.copies, j, Next(s, Persist(j)).jobs[j].phase)
  {
    var c := s.copies[s.Phase(j).copy];
    assert CopyGood(s.rows, c);
  }

  lemma CarriedOfCompareAndSet(s: State, j: nat)
    requires Can(s, CompareAndSet(j)) && s.jobs[j].kind.Request?
    requires Carried(s.rows, s.copies, j, s.jobs[j].phase)
    ensures Carried(Next(s, CompareAndSet(j)).rows, s.copies, j, Next(s, CompareAndSet(j)).jobs[j].phase)
  {
    var t := Next(s, CompareAndSet(j));
    if s.Phase(j).revision == |s.rows| {
      assert j in t.rows[|s.rows|];
    }
  }

  predicate Moves(step: Step, j: nat) {
    !step.Submit? && step.j == j
  }

  lemma OnlyOneMoves(s: State, step: Step, i: nat)
    requires Can(s, step) && i < |s.jobs|
    ensures |s.jobs| <= |Next(s, step).jobs|
    ensures Next(s, step).jobs[i].kind == s.jobs[i].kind && Next(s, step).jobs[i].process == s.jobs[i].process
    ensures !Moves(step, i) ==> Next(s, step).jobs[i] == s.jobs[i]
  {
    match step
    case Persist(j) =>
    case CompareAndSet(j) =>
    case Hear(j) =>
    case _ =>
  }

  lemma CarriedOfMove(s: State, step: Step, j: nat)
    requires CopiesGood(s.rows, s.copies) && Can(s, step) && Moves(step, j) && j < |s.jobs|
    requires s.jobs[j].kind.Request? && j in Next(s, step).applied
    requires j in s.applied ==> Carried(s.rows, s.copies, j, s.jobs[j].phase)
    ensures Carried(Next(s, step).rows, Next(s, step).copies, j, Next(s, step).jobs[j].phase)
  {
    match step
    case Persist(_) => CarriedOfPersist(s, j);
    case CompareAndSet(_) => CarriedOfCompareAndSet(s, j);
    case Run(_, changes) =>
    case Hear(_) =>
    case Throw(_) =>
    case Start(_) =>
    case Load(_) =>
    case Install(_) =>
    case Reload(_) =>
  }

  lemma AppliedGrows(s: State, step: Step, j: nat)
    requires Can(s, step) && j in Next(s, step).applied && j !in s.applied
    ensures step == Run(j, true)
  {
    match step
    case Persist(_) =>
    case CompareAndSet(_) =>
    case Hear(_) =>
    case _ =>
  }

  /** A finished job never moves again. */
  lemma DoneStays(s: State, step: Step, j: nat)
    requires Can(s, step) && j < |s.jobs| && s.jobs[j].phase.Done?
    ensures j < |Next(s, step).jobs| && Next(s, step).jobs[j] == s.jobs[j]
  {
    OnlyOneMoves(s, step, j);
  }

  lemma DispatchedGrows(s: State, step: Step, j: nat)
    requires Can(s, step) && j in Next(s, step).dispatched && j !in s.dispatched
    ensures j < |s.jobs| && s.jobs[j].kind.Request? && !step.Submit? && Next(s, step).jobs[j].phase == Done(Ok)
  {
    match step
    case Persist(_) =>
    case CompareAndSet(_) =>
    case Hear(_) =>
    case _ =>
  }

  lemma CarriedKept(s: State, step: Step)
    requires CopiesGood(s.rows, s.copies) && AllCarried(s) && Can(s, step)
    ensures AllCarried(Next(s, step))
  {
    var t := Next(s, step);
    forall j | j in t.applied ensures j < |t.jobs| {
      if j !in s.applied {
        AppliedGrows(s, step, j);
      }
      OnlyOneMoves(s, step, j);
    }
    forall j | 0 <= j < |t.jobs| && t.jobs[j].kind.Request? && j in t.applied
      ensures Carried(t.rows, t.copies, j, t.jobs[j].phase)
    {
      if j !in s.applied {
        AppliedGrows(s, step, j);
      }
      OnlyOneMoves(s, step, j);
      if Moves(step, j) {
        CarriedOfMove(s, step, j);
      } else {
        StepAppends(s, step);
      }
    }
    forall j | j in t.dispatched
      ensures j < |t.jobs| && t.jobs[j].kind.Request? && t.jobs[j].phase == Done(Ok)
    {
      if j in s.dispatched {
        DoneStays(s, step, j);
      } else {
        DispatchedGrows(s, step, j);
      }
      OnlyOneMoves(s, step, j);
    }
  }

  lemma {:induction false} CarriedHolds(trace: seq<State>, steps: seq<Step>, content: Content, i: nat)
    requires IsRun(trace, steps) && trace[0] == Initial(content) && i < |trace|
    ensures AllCarried(trace[i])
  {
    if i > 0 {
      CarriedHolds(trace, steps, content, i - 1);
      LineageHolds(trace, steps, content, i - 1);
      CarriedKept(trace[i - 1], steps[i - 1]);
    }
  }

  /**
   * 200 is real: a request that changed the environment and was answered 200 has its operation in a
   * stored row, from the moment of the answer on.
   */
  lemma AcknowledgedIsStored(trace: seq<State>, steps: seq<Step>, content: Content, i: nat, k: nat, j: nat)
    requires IsRun(trace, steps) && trace[0] == Initial(content) && i <= k < |trace|
    requires j < |trace[i].jobs| && trace[i].jobs[j].kind.Request? && trace[i].jobs[j].phase == Done(Ok)
    requires j in trace[i].applied
    ensures Stored(trace[k].rows, j)
  {
    CarriedHolds(trace, steps, content, i);
    assert Carried(trace[i].rows, trace[i].copies, j, Done(Ok));
    RowsOnlyAppended(trace, steps, i, k);
    var r :| 0 <= r < |trace[i].rows| && j in trace[i].rows[r];
    assert trace[k].rows[r] == trace[i].rows[r];
  }

  lemma DispatchedOnlyGrows(s: State, step: Step)
    requires Can(s, step)
    ensures s.dispatched <= Next(s, step).dispatched
  {
    match step
    case Persist(_) =>
    case CompareAndSet(_) =>
    case Hear(_) =>
    case _ =>
  }

  lemma EndDispatches(s: State, step: Step)
    requires Can(s, step) && !step.Submit? && s.jobs[step.j].kind.Request? && Next(s, step).jobs[step.j].phase == Done(Ok)
    ensures step.j in Next(s, step).dispatched
  {
    match step
    case Persist(_) =>
    case CompareAndSet(_) =>
    case Hear(_) =>
    case _ =>
  }

  lemma DispatchedOnly(s: State, step: Step, j: nat)
    requires Can(s, step) && j < |Next(s, step).jobs|
    requires Next(s, step).jobs[j].kind.Request? && Next(s, step).jobs[j].phase == Done(Ok)
    ensures j in Next(s, step).dispatched || (j < |s.jobs| && s.jobs[j] == Next(s, step).jobs[j])
  {
    if j < |s.jobs| {
      OnlyOneMoves(s, step, j);
      if Moves(step, j) {
        EndDispatches(s, step);
      }
    } else {
      NewcomersWait(s, step, j);
    }
  }

  /** A job begins by waiting. */
  lemma NewcomersWait(s: State, step: Step, j: nat)
    requires Can(s, step) && |s.jobs| <= j < |Next(s, step).jobs|
    ensures Next(s, step).jobs[j].phase == Waiting
  {
    match step
    case Persist(_) =>
    case Hear(_) =>
    case _ =>
  }

  lemma {:induction false} AnsweredIsDispatched(trace: seq<State>, steps: seq<Step>, i: nat, j: nat)
    requires IsRun(trace, steps) && trace[0].jobs == [] && i < |trace|
    requires j < |trace[i].jobs| && trace[i].jobs[j].kind.Request? && trace[i].jobs[j].phase == Done(Ok)
    ensures j in trace[i].dispatched
  {
    if i > 0 {
      DispatchedOnly(trace[i - 1], steps[i - 1], j);
      DispatchedOnlyGrows(trace[i - 1], steps[i - 1]);
      if j !in trace[i].dispatched {
        AnsweredIsDispatched(trace, steps, i - 1, j);
      }
    }
  }

  /** The alerts are sent what exactly the requests answered 200 did. */
  lemma DispatchedIff(trace: seq<State>, steps: seq<Step>, content: Content, i: nat, j: nat)
    requires IsRun(trace, steps) && trace[0] == Initial(content) && i < |trace|
    ensures j in trace[i].dispatched <==>
            j < |trace[i].jobs| && trace[i].jobs[j].kind.Request? && trace[i].jobs[j].phase == Done(Ok)
  {
    CarriedHolds(trace, steps, content, i);
    if j < |trace[i].jobs| && trace[i].jobs[j].kind.Request? && trace[i].jobs[j].phase == Done(Ok) {
      AnsweredIsDispatched(trace, steps, i, j);
    }
  }

  /** A block sent to the alerts is in a stored row. */
  lemma DispatchedIsStored(trace: seq<State>, steps: seq<Step>, content: Content, i: nat, j: nat)
    requires IsRun(trace, steps) && trace[0] == Initial(content) && i < |trace|
    requires j in trace[i].dispatched && j in trace[i].applied
    ensures Stored(trace[i].rows, j)
  {
    CarriedHolds(trace, steps, content, i);
    AcknowledgedIsStored(trace, steps, content, i, i, j);
  }
}
