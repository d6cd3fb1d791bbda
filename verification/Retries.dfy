/**
 * "Send it again" (src/server.ts:346-357): how a request left alone ends, over every schedule in which
 * nothing else moves, and what becomes of one that was refused and is sent a second time.
 */
module Retries {
  import opened Options
  import opened Replicas
  import opened Lineages
  import opened Acknowledgements

  /** A step of job `j`'s own, in a request that changes the environment and does not throw. */
  predicate Own(step: Step, j: nat) {
    Moves(step, j) && !step.Throw? && (step.Run? ==> step.changes)
  }

  /** The steps lead from one state to the other, and all of them are job `j`'s. */
  ghost predicate Alone(s: State, steps: seq<Step>, t: State, j: nat)
    decreases |steps|
  {
    if steps == [] then s == t
    else Own(steps[0], j) && Can(s, steps[0]) && Alone(Next(s, steps[0]), steps[1..], t, j)
  }

  /** A request that has not begun, with nothing ahead of it in its queue. */
  predicate MayBegin(s: State, j: nat, p: nat) {
    j < |s.jobs| && s.jobs[j] == Job(p, Request, Waiting) && p !in s.running
  }

  /** What the request will be built on: its process's copy if it has one, and else the row. */
  function Base(s: State, p: nat): Content
    requires Lineage(s)
  {
    if p in s.live then s.copies[s.live[p]].content else s.rows[|s.rows| - 1]
  }

  function BaseRevision(s: State, p: nat): nat
    requires Lineage(s)
  {
    if p in s.live then s.copies[s.live[p]].revision else |s.rows|
  }

  /** The copy the request holds is its process's live one. */
  ghost predicate Holds(t: State, p: nat, c: nat, content: Content, revision: nat) {
    && p in t.live && t.live[p] == c && c < |t.copies|
    && t.copies[c].content == content && t.copies[c].revision == revision
  }

  /** Where the request can have got to by itself, given what it is built on. */
  ghost predicate OnItsWay(s: State, t: State, j: nat, p: nat, base: Content, revision: nat)
    requires j < |t.jobs|
  {
    match t.jobs[j].phase
    case Waiting => t == s
    case Missed => t.rows == s.rows && p !in s.live && t.live == s.live
    case Loading(content, rev) => t.rows == s.rows && content == base && rev == revision && p !in s.live
    case Holding(c) => t.rows == s.rows && Holds(t, p, c, base, revision)
                       && (t.copies[c].persisted.Some? ==> t.copies[c].persisted.value <= t.copies[c].version)
    case Ran(c) => t.rows == s.rows && Holds(t, p, c, base + [j], revision)
                   && t.copies[c].persisted != Some(t.copies[c].version)
    case Saving(c, _, content, rev) => t.rows == s.rows && c < |t.copies| && content == base + [j] && rev == revision
    case Saved(c, _, _) => t.rows == s.rows + [base + [j]] && c < |t.copies| && revision == |s.rows|
    case Lost => t.rows == s.rows && revision != |s.rows|
    case Done(Ok) => t.rows == s.rows + [base + [j]] && revision == |s.rows|
    case Done(Stale) => t.rows == s.rows && revision != |s.rows| && p !in t.live && p !in t.running
    case _ => false
  }

  /** How far along a request is. */
  function Rank(phase: Phase): nat {
    match phase
    case Waiting => 0
    case Missed => 1
    case Loading(_, _) => 2
    case Holding(_) => 3
    case Ran(_) => 4
    case Saving(_, _, _, _) => 5
    case Done(_) => 7
    case _ => 6
  }

  lemma OneStep(s: State, t: State, step: Step, j: nat, p: nat, base: Content, revision: nat)
    requires Lineage(s) && base == Base(s, p) && revision == BaseRevision(s, p)
    requires j < |t.jobs| && t.jobs[j].kind.Request? && t.jobs[j].process == p
    requires OnItsWay(s, t, j, p, base, revision) && Own(step, j) && Can(t, step)
    ensures j < |Next(t, step).jobs| && OnItsWay(s, Next(t, step), j, p, base, revision)
    ensures Rank(Next(t, step).jobs[j].phase) > Rank(t.jobs[j].phase)
  {
    match step
    case Start(_) => Starts(s, t, j, p, base, revision);
    case Persist(_) =>
    case CompareAndSet(_) =>
    case Hear(_) =>
    case _ =>
  }

  lemma Starts(s: State, t: State, j: nat, p: nat, base: Content, revision: nat)
    requires Lineage(s) && base == Base(s, p) && revision == BaseRevision(s, p) && t == s
    requires j < |t.jobs| && t.jobs[j].kind.Request? && t.jobs[j].process == p && Can(t, Start(j))
    ensures OnItsWay(s, Next(t, Start(j)), j, p, base, revision)
  {
    if p in s.live {
      assert CopyGood(s.rows, s.copies[s.live[p]]);
    }
  }

  lemma OthersStand(t: State, step: Step, j: nat)
    requires j < |t.jobs| && Own(step, j) && Can(t, step)
    ensures var u := Next(t, step);
            |u.jobs| == |t.jobs| && u.jobs[j].kind == t.jobs[j].kind && u.jobs[j].process == t.jobs[j].process
  {
    OnlyOneMoves(t, step, j);
    match step
    case Persist(_) =>
    case CompareAndSet(_) =>
    case Hear(_) =>
    case _ =>
  }

  lemma {:induction false} KeepsOnItsWay(s: State, t: State, steps: seq<Step>, u: State, j: nat, p: nat,
                                         base: Content, revision: nat)
    requires Lineage(s) && base == Base(s, p) && revision == BaseRevision(s, p)
    requires Lineage(t) && j < |t.jobs| && t.jobs[j].kind.Request? && t.jobs[j].process == p
    requires OnItsWay(s, t, j, p, base, revision) && Alone(t, steps, u, j)
    ensures Lineage(u) && |u.jobs| == |t.jobs| && u.jobs[j].kind.Request? && u.jobs[j].process == p
    ensures OnItsWay(s, u, j, p, base, revision)
    ensures Rank(t.jobs[j].phase) + |steps| <= Rank(u.jobs[j].phase)
    decreases |steps|
  {
    if steps != [] {
      var next := Next(t, steps[0]);
      OneStep(s, t, steps[0], j, p, base, revision);
      OthersStand(t, steps[0], j);
      LineageKept(t, steps[0]);
      KeepsOnItsWay(s, next, steps[1..], u, j, p, base, revision);
    }
  }

  /** While it is unanswered, a request left alone has a step to take. */
  lemma NeverStuck(s: State, t: State, j: nat, p: nat, base: Content, revision: nat) returns (step: Step)
    requires Lineage(t) && MayBegin(s, j, p) && j < |t.jobs| && t.jobs[j].kind.Request? && t.jobs[j].process == p
    requires OnItsWay(s, t, j, p, base, revision) && !t.jobs[j].phase.Done?
    ensures Own(step, j) && Can(t, step)
  {
    match t.jobs[j].phase
    case Waiting => step := Start(j);
    case Missed => step := Load(j);
    case Loading(_, _) => step := Install(j);
    case Holding(_) => step := Run(j, true);
    case Ran(_) => step := Persist(j);
    case Saving(_, _, _, _) => step := CompareAndSet(j);
    case _ => step := Hear(j);
  }

  /**
   * A request left alone, in whatever order its own steps come: within seven of them it is answered, 200
   * with its operation stored on top exactly when its process had no copy or one of the row as it
   * stands, and else 409 with nothing stored and the copy dropped.
   */
  lemma LeftAloneIsAnswered(s: State, j: nat, p: nat, steps: seq<Step>, t: State)
    requires Lineage(s) && MayBegin(s, j, p) && Alone(s, steps, t, j)
    ensures |steps| <= 7 && j < |t.jobs| == |s.jobs| && Lineage(t)
    ensures !t.jobs[j].phase.Done? ==> exists step :: Own(step, j) && Can(t, step)
    ensures t.jobs[j].phase.Done? ==>
              if BaseRevision(s, p) == |s.rows| then
                t.jobs[j].phase == Done(Ok) && t.rows == s.rows + [Base(s, p) + [j]]
              else
                t.jobs[j].phase == Done(Stale) && t.rows == s.rows && p !in t.live && p !in t.running
  {
    var base, revision := Base(s, p), BaseRevision(s, p);
    KeepsOnItsWay(s, s, steps, t, j, p, base, revision);
    if !t.jobs[j].phase.Done? {
      var step := NeverStuck(s, t, j, p, base, revision);
    }
  }

  /**
   * Refused and sent again, with nothing else moving: the second answer is 200, and the operation is
   * stored on top of everything stored by then.
   */
  lemma SentAgainIsStored(s: State, j: nat, p: nat, first: seq<Step>, t: State, again: seq<Step>, u: State)
    requires Lineage(s) && MayBegin(s, j, p) && Alone(s, first, t, j)
    requires j < |t.jobs| && t.jobs[j].phase == Done(Stale)
    requires Alone(Next(t, Submit(Request, p)), again, u, |t.jobs|) && |t.jobs| < |u.jobs| && u.jobs[|t.jobs|].phase.Done?
    ensures u.jobs[|t.jobs|].phase == Done(Ok)
    ensures u.rows == s.rows + [s.rows[|s.rows| - 1] + [|t.jobs|]]
  {
    FirstWasRefused(s, j, p, first, t);
    var t1 := Resent(t, p);
    FreshIsStored(t1, |t.jobs|, p, again, u);
  }

  lemma FirstWasRefused(s: State, j: nat, p: nat, steps: seq<Step>, t: State)
    requires Lineage(s) && MayBegin(s, j, p) && Alone(s, steps, t, j) && j < |t.jobs| && t.jobs[j].phase == Done(Stale)
    ensures Lineage(t) && t.rows == s.rows && p !in t.live && p !in t.running
  {
    LeftAloneIsAnswered(s, j, p, steps, t);
  }

  /** A request whose process has no copy loads the row, and is stored on top of it. */
  lemma FreshIsStored(s: State, j: nat, p: nat, steps: seq<Step>, t: State)
    requires Lineage(s) && MayBegin(s, j, p) && p !in s.live && Alone(s, steps, t, j)
    requires j < |t.jobs| && t.jobs[j].phase.Done?
    ensures t.jobs[j].phase == Done(Ok) && t.rows == s.rows + [s.rows[|s.rows| - 1] + [j]]
  {
    LeftAloneIsAnswered(s, j, p, steps, t);
  }

  lemma Resent(t: State, p: nat) returns (t1: State)
    requires Lineage(t) && p !in t.live && p !in t.running
    ensures t1 == Next(t, Submit(Request, p)) && Lineage(t1) && MayBegin(t1, |t.jobs|, p)
    ensures t1.rows == t.rows && p !in t1.live
  {
    t1 := Next(t, Submit(Request, p));
    LineageKept(t, Submit(Request, p));
  }
}
