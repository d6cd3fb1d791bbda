/**
 * Several processes holding copies of one environment's row (src/manager.ts, src/server.ts,
 * src/backend.ts `saveEnvironment`).
 *
 * Every awaited call is a step of its own, so a read, an install, a run, the store's
 * compare-and-set and the return from it interleave freely across processes and jobs. The content
 * of an environment is the list of operations applied to it; a request's operation is its own id, and
 * what was there before the run is negative.
 */
module Replicas {
  import opened Options

  type Content = seq<int>

  /** An in-memory environment with its `Held` record. */
  datatype Copy = Copy(owner: nat, content: Content, version: nat, revision: nat, persisted: Option<nat>)

  datatype Kind =
    | Request                   // a mutating RPC call, queued
    | Restore(snapshot: nat)    // `restoreSnapshot`, queued
    | TakeSnapshot              // `snapshot` (and the reading half of `clone`), queued
    | Fetch                     // a read, which only calls `get`
    | HeadSync                  // `syncFollowers`, which persists outside the queue

  datatype Reply = Ok | Stale | Failed

  datatype Phase =
    | Waiting
    | Missed                                        // `get` found no live copy; the store is being asked
    | Loading(content: Content, revision: nat)      // the store answered; the copy is being rebuilt
    | Holding(copy: nat)                            // the environment is in hand
    | Ran(copy: nat)                                // the work is done, `persist` comes next
    | Saving(copy: nat, version: nat, content: Content, revision: nat)
    | Saved(copy: nat, version: nat, revision: nat) // the store took it; the process has not heard yet
    | Lost                                          // the store refused it; the process has not heard yet
    | Persisted                                     // `current` has written the row out
    | Replacing(content: Content, revision: nat)    // a restore's own write, on its way
    | Replaced(won: bool)                           // the store has answered it; the process has not heard yet
    | Done(reply: Reply)

  datatype Job = Job(process: nat, kind: Kind, phase: Phase)

  /**
   * `rows[r]` is the content stored at revision r + 1; the last is the row. `restored` holds the
   * indices written by a snapshot restore. `running` is the head of each process's write queue.
   * `applied` remembers which requests changed the copy they ran on, and `dispatched` those whose
   * blocks went out to the alerts.
   */
  datatype State = State(rows: seq<Content>, restored: set<nat>, copies: seq<Copy>, live: map<nat, nat>,
                         jobs: seq<Job>, running: map<nat, nat>, snapshots: seq<Content>,
                         applied: set<nat>, dispatched: set<nat>)
  {
    function Phase(j: nat): Phase
      requires j < |jobs|
    {
      jobs[j].phase
    }

    function Moved(j: nat, phase: Phase): State
      requires j < |jobs|
    {
      this.(jobs := jobs[j := jobs[j].(phase := phase)])
    }

    /** The job is over: its reply is sent and, if it was queued, the next one may start. */
    function Finish(j: nat, reply: Reply): State
      requires j < |jobs|
    {
      var p := jobs[j].process;
      Moved(j, Done(reply)).(running := if Queued(jobs[j].kind) then running - {p} else running,
                          dispatched := if reply == Ok && jobs[j].kind.Request? then dispatched + {j} else dispatched)
    }
  }

  predicate Queued(kind: Kind) { kind.Request? || kind.Restore? || kind.TakeSnapshot? }

  datatype Step =
    | Submit(kind: Kind, process: nat)
    | Start(j: nat)
    | Load(j: nat)
    | Install(j: nat)
    | Run(j: nat, changes: bool)
    | Throw(j: nat)
    | Persist(j: nat)
    | CompareAndSet(j: nat)
    | Hear(j: nat)
    | Reload(j: nat)

  predicate Can(s: State, step: Step) {
    match step
    case Submit(_, _) => true
    case Start(j) =>
      && j < |s.jobs| && s.Phase(j) == Waiting
      && (Queued(s.jobs[j].kind) ==> s.jobs[j].process !in s.running)
      && (s.jobs[j].kind.Restore? ==> s.jobs[j].kind.snapshot < |s.snapshots|)
      && (s.jobs[j].kind.HeadSync? ==> s.jobs[j].process in s.live && s.live[s.jobs[j].process] < |s.copies|)
    case Load(j) => j < |s.jobs| && s.Phase(j) == Missed && s.rows != []
    case Install(j) => j < |s.jobs| && s.Phase(j).Loading?
    case Run(j, _) => j < |s.jobs| && s.Phase(j).Holding? && s.Phase(j).copy < |s.copies|
    case Throw(j) => j < |s.jobs| && s.Phase(j).Ran? && s.jobs[j].kind.Request?
    case Persist(j) => j < |s.jobs| && s.Phase(j).Ran? && s.Phase(j).copy < |s.copies|
                       && (s.jobs[j].process in s.live ==> s.live[s.jobs[j].process] < |s.copies|)
    case CompareAndSet(j) => j < |s.jobs| && (s.Phase(j).Saving? || s.Phase(j).Replacing?)
    case Hear(j) => j < |s.jobs| && (s.Phase(j).Lost? || s.Phase(j).Replaced? || (s.Phase(j).Saved? && s.Phase(j).copy < |s.copies|))
    case Reload(j) => j < |s.jobs| && s.Phase(j).Persisted? && s.rows != []
                      && (s.jobs[j].kind.Restore? ==> s.jobs[j].kind.snapshot < |s.snapshots|)
  }

  /** `version` moves with every change, so an unchanged copy is known by its version. */
  function Applied(c: Copy, op: nat): Copy {
    c.(content := c.content + [op], version := c.version + 1)
  }

  /** What follows a `persist` that had nothing to do or was told its write was taken. */
  function AfterPersist(s: State, j: nat): State
    requires j < |s.jobs|
  {
    if s.jobs[j].kind.Restore? || s.jobs[j].kind.TakeSnapshot? then s.Moved(j, Persisted) else s.Finish(j, Ok)
  }

  /** `persist`: refuse a copy that is no longer live, skip one that is clean, and else send it to the store. */
  function PersistStep(s: State, j: nat): State
    requires Can(s, Persist(j))
  {
    var p := s.jobs[j].process;
    var ran := s.Phase(j).copy;
    if !s.jobs[j].kind.HeadSync? && (p !in s.live || s.live[p] != ran) then s.Finish(j, Stale)
    else if p !in s.live then s.Finish(j, Ok)
    else
      var c := s.copies[s.live[p]];
      if c.persisted == Some(c.version) then AfterPersist(s, j)
      else s.Moved(j, Saving(s.live[p], c.version, c.content, c.revision))
  }

  function Next(s: State, step: Step): State
    requires Can(s, step)
  {
    match step
    case Submit(kind, process) => s.(jobs := s.jobs + [Job(process, kind, Waiting)])
    case Start(j) =>
      var p := s.jobs[j].process;
      var s1 := if Queued(s.jobs[j].kind) then s.(running := s.running[p := j]) else s;
      if p !in s.live then s1.Moved(j, Missed)
      else if s.jobs[j].kind.Fetch? then s1.Finish(j, Ok)
      else s1.Moved(j, Holding(s.live[p]))
    case Load(j) => s.Moved(j, Loading(s.rows[|s.rows| - 1], |s.rows|))
    case Install(j) =>
      var p, c := s.jobs[j].process, |s.copies|;
      var s1 := s.(copies := s.copies + [Copy(p, s.Phase(j).content, 0, s.Phase(j).revision, None)],
                   live := s.live[p := c]);
      if s.jobs[j].kind.Fetch? then s1.Finish(j, Ok) else s1.Moved(j, Holding(c))
    case Run(j, changes) =>
      var c := s.Phase(j).copy;
      if changes && (s.jobs[j].kind.Request? || s.jobs[j].kind.HeadSync?)
      then s.(copies := s.copies[c := Applied(s.copies[c], j)], applied := s.applied + {j}).Moved(j, Ran(c))
      else if s.jobs[j].kind.HeadSync? then s.Finish(j, Ok)
      else s.Moved(j, Ran(c))
    case Throw(j) => s.Finish(j, Failed)
    case Persist(j) => PersistStep(s, j)
    case CompareAndSet(j) =>
      var phase := s.Phase(j);
      if phase.revision != |s.rows| then
        s.Moved(j, if phase.Saving? then Lost else Replaced(false))
      else
        var s1 := s.(rows := s.rows + [phase.content]);
        if phase.Saving? then s1.Moved(j, Saved(phase.copy, phase.version, phase.revision))
        else s1.(restored := s.restored + {|s.rows|}).Moved(j, Replaced(true))
    case Hear(j) =>
      if s.Phase(j).Lost? then s.(live := s.live - {s.jobs[j].process}).Finish(j, Stale)
      else if s.Phase(j) == Replaced(true) then s.(live := s.live - {s.jobs[j].process}).Finish(j, Ok)
      else if s.Phase(j).Replaced? then s.Finish(j, Stale)
      else
        var c := s.Phase(j).copy;
        AfterPersist(s.(copies := s.copies[c := s.copies[c].(revision := s.copies[c].revision + 1,
                                                             persisted := Some(s.Phase(j).version))]), j)
    case Reload(j) =>
      if s.jobs[j].kind.Restore?
      then s.Moved(j, Replacing(s.snapshots[s.jobs[j].kind.snapshot], |s.rows|))
      else s.(snapshots := s.snapshots + [s.rows[|s.rows| - 1]]).Finish(j, Ok)
  }

  function Initial(content: Content): State {
    State([content], {}, [], map[], [], map[], [], {}, {})
  }

  ghost predicate IsRun(trace: seq<State>, steps: seq<Step>) {
    && |trace| == |steps| + 1
    && forall i | 0 <= i < |steps| :: Can(trace[i], steps[i]) && trace[i + 1] == Next(trace[i], steps[i])
  }
}
