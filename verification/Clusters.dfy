/**
 * The same protocol as objects updated in place: `Held` records that several jobs may point at, a
 * `live` map that is reassigned while they do, and the row written by compare-and-set
 * (src/manager.ts, src/server.ts:300-340, src/backend.ts:335-353). Each method is one stretch of
 * code between two awaits, and does to the objects what `Replicas.Next` does to the state.
 */
module Clusters {
  import opened Options
  import opened Replicas

  class Held {
    const owner: nat
    var content: Content
    var version: nat
    var revision: nat
    var persisted: Option<nat>

    constructor (owner: nat, content: Content, revision: nat)
      ensures View() == Copy(owner, content, 0, revision, None)
    {
      this.owner := owner;
      this.content, this.version, this.revision, this.persisted := content, 0, revision, None;
    }

    function View(): Copy
      reads this
    {
      Copy(owner, content, version, revision, persisted)
    }
  }

  function Views(copies: seq<Held>): (v: seq<Copy>)
    reads copies
    ensures |v| == |copies| && forall c | 0 <= c < |v| :: v[c] == copies[c].View()
  {
    seq(|copies|, c requires 0 <= c < |copies| reads copies => copies[c].View())
  }

  class Cluster {
    var rows: seq<Content>
    ghost var restored: set<nat>
    var copies: seq<Held>
    var live: map<nat, nat>
    var jobs: seq<Job>
    var running: map<nat, nat>
    var snapshots: seq<Content>
    ghost var applied: set<nat>
    var dispatched: set<nat>

    ghost predicate Valid()
      reads this
    {
      forall c, d | 0 <= c < d < |copies| :: copies[c] != copies[d]
    }

    ghost function View(): State
      reads this, copies
    {
      State(rows, restored, Views(copies), live, jobs, running, snapshots, applied, dispatched)
    }

    constructor (content: Content)
      ensures Valid() && View() == Initial(content)
    {
      rows, restored, copies, live, jobs, running := [content], {}, [], map[], [], map[];
      snapshots, applied, dispatched := [], {}, {};
    }

    method Move(j: nat, phase: Phase)
      requires Valid() && j < |jobs|
      modifies this`jobs
      ensures View() == old(View()).Moved(j, phase)
    {
      jobs := jobs[j := jobs[j].(phase := phase)];
    }

    /** The reply goes out and the queue moves on. */
    method Finish(j: nat, reply: Reply)
      requires Valid() && j < |jobs|
      modifies this`jobs, this`running, this`dispatched
      ensures View() == old(View()).Finish(j, reply)
    {
      var job := jobs[j];
      if Queued(job.kind) {
        running := running - {job.process};
      }
      if reply == Ok && job.kind.Request? {
        dispatched := dispatched + {j};
      }
      jobs := jobs[j := job.(phase := Done(reply))];
    }

    method Submit(kind: Kind, process: nat) returns (j: nat)
      requires Valid()
      modifies this`jobs
      ensures j == old(|jobs|) && View() == Next(old(View()), Step.Submit(kind, process))
    {
      j := |jobs|;
      jobs := jobs + [Job(process, kind, Waiting)];
    }

    /** The head of `get`, run when the queue reaches the job: is there a live copy? */
    method Start(j: nat)
      requires Valid() && Can(View(), Step.Start(j))
      modifies this`jobs, this`running, this`dispatched
      ensures View() == Next(old(View()), Step.Start(j))
    {
      var job := jobs[j];
      if Queued(job.kind) {
        running := running[job.process := j];
      }
      if job.process !in live {
        Move(j, Missed);
      } else if job.kind.Fetch? {
        Finish(j, Ok);
      } else {
        Move(j, Holding(live[job.process]));
      }
    }

    method Load(j: nat)
      requires Valid() && Can(View(), Step.Load(j))
      modifies this`jobs
      ensures View() == Next(old(View()), Step.Load(j))
    {
      Move(j, Loading(rows[|rows| - 1], |rows|));
    }

    /** The tail of `get`: the copy rebuilt from the row replaces whatever is live by now. */
    method Install(j: nat)
      requires Valid() && Can(View(), Step.Install(j))
      modifies this
      ensures Valid() && View() == Next(old(View()), Step.Install(j))
    {
      var job, c := jobs[j], |copies|;
      var held := new Held(job.process, job.phase.content, job.phase.revision);
      copies, live := copies + [held], live[job.process := c];
      if job.kind.Fetch? {
        Finish(j, Ok);
      } else {
        Move(j, Holding(c));
      }
    }

    method Run(j: nat, changes: bool)
      requires Valid() && Can(View(), Step.Run(j, changes))
      modifies this, copies
      ensures Valid() && View() == Next(old(View()), Step.Run(j, changes))
    {
      var job := jobs[j];
      var c := job.phase.copy;
      if changes && (job.kind.Request? || job.kind.HeadSync?) {
        var held := copies[c];
        held.content, held.version := held.content + [j], held.version + 1;
        applied := applied + {j};
        assert View().copies == old(View()).copies[c := Applied(old(View()).copies[c], j)];
        Move(j, Ran(c));
      } else if job.kind.HeadSync? {
        Finish(j, Ok);
      } else {
        Move(j, Ran(c));
      }
    }

    method AfterPersist(j: nat)
      requires Valid() && j < |jobs|
      modifies this`jobs, this`running, this`dispatched
      ensures View() == Replicas.AfterPersist(old(View()), j)
    {
      if jobs[j].kind.Restore? || jobs[j].kind.TakeSnapshot? {
        Move(j, Persisted);
      } else {
        Finish(j, Ok);
      }
    }

    /** `persist` up to the write. */
    method Persist(j: nat)
      requires Valid() && Can(View(), Step.Persist(j))
      modifies this`jobs, this`running, this`dispatched
      ensures View() == Next(old(View()), Step.Persist(j))
    {
      var job := jobs[j];
      var p := job.process;
      if !job.kind.HeadSync? && (p !in live || live[p] != job.phase.copy) {
        Finish(j, Stale);
        return;
      }
      if p !in live {
        Finish(j, Ok);
        return;
      }
      var held := copies[live[p]];
      if held.persisted == Some(held.version) {
        AfterPersist(j);
        return;
      }
      Move(j, Saving(live[p], held.version, held.content, held.revision));
    }

    /** `saveEnvironment`: the row is replaced only if it is still at the revision the writer had. */
    method SaveEnvironment(content: Content, revision: nat) returns (written: bool)
      modifies this`rows
      ensures written <==> revision == old(|rows|)
      ensures rows == if written then old(rows) + [content] else old(rows)
    {
      written := revision == |rows|;
      if written {
        rows := rows + [content];
      }
    }

    method CompareAndSet(j: nat)
      requires Valid() && Can(View(), Step.CompareAndSet(j))
      modifies this`rows, this`restored, this`jobs
      ensures View() == Next(old(View()), Step.CompareAndSet(j))
    {
      var job := jobs[j];
      var written := SaveEnvironment(job.phase.content, job.phase.revision);
      if job.phase.Saving? {
        Move(j, if written then Saved(job.phase.copy, job.phase.version, job.phase.revision) else Lost);
      } else {
        restored := if written then restored + {|rows| - 1} else restored;
        Move(j, Replaced(written));
      }
    }

    /**
     * What follows the store's answer: a write `persist` lost drops the live copy, whichever that is by
     * now, and so does a restore that won.
     */
    method Hear(j: nat)
      requires Valid() && Can(View(), Step.Hear(j))
      modifies this`live, this`jobs, this`running, this`dispatched, copies
      ensures Valid() && View() == Next(old(View()), Step.Hear(j))
    {
      var job := jobs[j];
      if job.phase.Lost? {
        live := live - {job.process};
        Finish(j, Stale);
        return;
      }
      if job.phase.Replaced? {
        live := if job.phase.won then live - {job.process} else live;
        Finish(j, if job.phase.won then Ok else Stale);
        return;
      }
      HearSaved(j);
    }

    /** A write that was taken: the copy moves to the revision now stored, clean at the version written. */
    method HearSaved(j: nat)
      requires Valid() && Can(View(), Step.Hear(j)) && jobs[j].phase.Saved?
      modifies this`jobs, this`running, this`dispatched, copies
      ensures Valid() && View() == Next(old(View()), Step.Hear(j))
    {
      var job := jobs[j];
      var c := job.phase.copy;
      var held := copies[c];
      held.revision, held.persisted := held.revision + 1, Some(job.phase.version);
      assert View().copies == old(View()).copies[c := View().copies[c]];
      AfterPersist(j);
    }

    /** `current` reads the row back: for a snapshot to keep, or for a restore to replace. */
    method Reload(j: nat)
      requires Valid() && Can(View(), Step.Reload(j))
      modifies this`jobs, this`running, this`dispatched, this`snapshots
      ensures View() == Next(old(View()), Step.Reload(j))
    {
      var kind := jobs[j].kind;
      if kind.Restore? {
        Move(j, Replacing(snapshots[kind.snapshot], |rows|));
      } else {
        snapshots := snapshots + [rows[|rows| - 1]];
        Finish(j, Ok);
      }
    }
  }
}
