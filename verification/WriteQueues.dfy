/**
 * Work for one environment never overlaps and keeps its order (src/write-queue.ts:35-46). `run` chains
 * new work onto the tail in the map and puts its own tail there; the promise callbacks are steps that
 * may happen in any order their promises allow.
 */
module WriteQueues {
  import opened Options

  datatype Status = Waiting | Running | Settled(ok: bool)

  /** A piece of work: the one it was chained onto, and whether its own tail's clean-up has run. */
  datatype Item = Item(id: string, after: Option<nat>, status: Status, tidied: bool)

  datatype Queue = Queue(items: seq<Item>, writing: map<string, nat>, started: seq<nat>)
  {
    predicate Has(n: nat) { n < |items| }

    function With(n: nat, status: Status): Queue
      requires Has(n)
    {
      this.(items := items[n := items[n].(status := status)])
    }
  }

  datatype Step = Run(id: string) | Start(n: nat) | Settle(n: nat, ok: bool) | Tidy(n: nat)

  /** `then(work, work)`: the work may begin once what it was chained onto has settled, well or badly. */
  predicate Ready(q: Queue, n: nat) {
    && q.Has(n) && q.items[n].status == Waiting
    && match q.items[n].after
       case None => true
       case Some(m) => q.Has(m) && q.items[m].status.Settled?
  }

  predicate Can(q: Queue, step: Step) {
    match step
    case Run(_) => true
    case Start(n) => Ready(q, n)
    case Settle(n, _) => q.Has(n) && q.items[n].status == Running
    case Tidy(n) => q.Has(n) && q.items[n].status.Settled? && !q.items[n].tidied
  }

  function Next(q: Queue, step: Step): Queue
    requires Can(q, step)
  {
    match step
    case Run(id) =>
      q.(items := q.items + [Item(id, Lookup(q.writing, id), Waiting, false)], writing := q.writing[id := |q.items|])
    case Start(n) => q.With(n, Running).(started := q.started + [n])
    case Settle(n, ok) => q.With(n, Settled(ok))
    case Tidy(n) =>
      var id := q.items[n].id;
      q.(items := q.items[n := q.items[n].(tidied := true)],
         writing := if Lookup(q.writing, id) == Some(n) then q.writing - {id} else q.writing)
  }

  // ---- the invariant ---------------------------------------------------------------------------

  /** `m` and `n` are for one environment, and `m` was submitted first. */
  predicate Before(items: seq<Item>, m: int, n: int) {
    0 <= m < n < |items| && items[m].id == items[n].id
  }

  /** Work is chained onto the submission just before it, unless everything before it had settled. */
  ghost predicate Chained(items: seq<Item>, n: int)
    requires 0 <= n < |items|
  {
    match items[n].after
    case None => forall m | Before(items, m, n) :: items[m].status.Settled?
    case Some(p) => Before(items, p, n) && forall m | Before(items, m, n) :: m <= p
  }

  /** Work that has begun had everything before it settled. */
  ghost predicate InTurn(items: seq<Item>) {
    forall m, n | Before(items, m, n) && items[n].status != Waiting :: items[m].status.Settled?
  }

  ghost predicate Last(items: seq<Item>, n: int) {
    0 <= n < |items| && forall k | 0 <= k < |items| && items[k].id == items[n].id :: k <= n
  }

  /** The map holds the last submission of an environment until that one is tidied away, and then nothing. */
  ghost predicate MapHolds(items: seq<Item>, writing: map<string, nat>) {
    && (forall id | id in writing ::
          Last(items, writing[id]) && items[writing[id]].id == id && !items[writing[id]].tidied)
    && (forall n | 0 <= n < |items| && items[n].id !in writing ::
          items[n].status.Settled? && (Last(items, n) ==> items[n].tidied))
  }

  ghost predicate StartedInOrder(items: seq<Item>, started: seq<nat>) {
    && (forall n | n in started :: n < |items| && items[n].status != Waiting)
    && (forall n | 0 <= n < |items| && items[n].status != Waiting :: n in started)
    && (forall j, k | 0 <= j < k < |started| && started[j] < |items| && started[k] < |items|
                      && items[started[j]].id == items[started[k]].id :: started[j] < started[k])
  }

  ghost predicate AllChained(items: seq<Item>) {
    forall n | 0 <= n < |items| :: Chained(items, n)
  }

  ghost predicate Inv(q: Queue) {
    AllChained(q.items) && InTurn(q.items) && MapHolds(q.items, q.writing) && StartedInOrder(q.items, q.started)
  }

  lemma InTurnAt(items: seq<Item>, m: int, n: int)
    requires InTurn(items) && Before(items, m, n) && items[n].status != Waiting
    ensures items[m].status.Settled?
  {}

  lemma RunKeeps(q: Queue, id: string)
    requires Inv(q)
    ensures Inv(Next(q, Run(id)))
  {
    var t := Next(q, Run(id));
    var last := |q.items|;
    forall m, n | Before(t.items, m, n) && n < last ensures Before(q.items, m, n) {}
    forall n | 0 <= n < |t.items| ensures Chained(t.items, n) {
      if n < last {
        assert Chained(q.items, n);
      }
    }
    forall n | 0 <= n < last && t.items[n].id !in t.writing && Last(t.items, n) ensures t.items[n].tidied {
      forall k | 0 <= k < last && q.items[k].id == q.items[n].id ensures k <= n {
        assert t.items[k].id == q.items[k].id;
      }
      assert Last(q.items, n);
    }
    forall other | other in q.writing && other != id ensures Last(t.items, q.writing[other]) {
      assert Last(q.items, q.writing[other]);
    }
  }

  /** When work may start, everything before it for its environment has settled. */
  lemma ReadyIsInTurn(q: Queue, n: nat, m: nat)
    requires Inv(q) && Ready(q, n) && Before(q.items, m, n)
    ensures q.items[m].status.Settled?
  {
    assert Chained(q.items, n);
    if q.items[n].after.Some? {
      var p := q.items[n].after.value;
      assert m < p ==> Before(q.items, m, p);
    }
  }

  /** Statuses move on and nothing else changes. */
  ghost predicate Forward(items: seq<Item>, items1: seq<Item>) {
    && |items1| == |items|
    && forall n | 0 <= n < |items| ::
         && items1[n].id == items[n].id && items1[n].after == items[n].after && items1[n].tidied == items[n].tidied
         && (items[n].status.Settled? ==> items1[n].status.Settled?)
  }

  lemma ChainedForward(items: seq<Item>, items1: seq<Item>)
    requires AllChained(items) && Forward(items, items1)
    ensures AllChained(items1)
  {
    forall n | 0 <= n < |items1| ensures Chained(items1, n) {
      assert Chained(items, n);
      forall m | Before(items1, m, n) ensures Before(items, m, n) {}
      assert items[n].after.Some? ==> Before(items1, items[n].after.value, n);
    }
  }

  lemma MapForward(items: seq<Item>, items1: seq<Item>, writing: map<string, nat>)
    requires MapHolds(items, writing) && Forward(items, items1)
    ensures MapHolds(items1, writing)
  {
    forall n | Last(items1, n) ensures Last(items, n) {
      forall k | 0 <= k < |items| && items[k].id == items[n].id ensures k <= n {
        assert items1[k].id == items1[n].id;
      }
    }
    forall n | Last(items, n) ensures Last(items1, n) {}
  }

  lemma StartKeepsOrder(q: Queue, n: nat)
    requires Inv(q) && Can(q, Start(n))
    ensures StartedInOrder(Next(q, Start(n)).items, Next(q, Start(n)).started)
  {
    forall j | 0 <= j < |q.started| && q.started[j] < |q.items| && q.items[q.started[j]].id == q.items[n].id
      ensures q.started[j] < n
    {
      assert q.started[j] in q.started;
      if n < q.started[j] {
        InTurnAt(q.items, n, q.started[j]);
      }
    }
  }

  lemma StartKeeps(q: Queue, n: nat)
    requires Inv(q) && Can(q, Start(n))
    ensures Inv(Next(q, Start(n)))
  {
    var t := Next(q, Start(n));
    forall m | Before(q.items, m, n) ensures q.items[m].status.Settled? {
      ReadyIsInTurn(q, n, m);
    }
    ChainedForward(q.items, t.items);
    MapForward(q.items, t.items, q.writing);
    StartKeepsOrder(q, n);
    forall i, j | Before(t.items, i, j) ensures Before(q.items, i, j) {}
  }

  lemma SettleKeeps(q: Queue, n: nat, ok: bool)
    requires Inv(q) && Can(q, Settle(n, ok))
    ensures Inv(Next(q, Settle(n, ok)))
  {
    var t := Next(q, Settle(n, ok));
    ChainedForward(q.items, t.items);
    MapForward(q.items, t.items, q.writing);
    forall i, j | Before(t.items, i, j) ensures Before(q.items, i, j) {}
  }

  lemma TidyKeepsMap(q: Queue, n: nat)
    requires Inv(q) && Can(q, Tidy(n))
    ensures MapHolds(Next(q, Tidy(n)).items, Next(q, Tidy(n)).writing)
  {
    var t := Next(q, Tidy(n));
    var id := q.items[n].id;
    forall m | Last(t.items, m) ensures Last(q.items, m) {
      forall k | 0 <= k < |q.items| && q.items[k].id == q.items[m].id ensures k <= m {
        assert t.items[k].id == t.items[m].id;
      }
    }
    forall m | Last(q.items, m) ensures Last(t.items, m) {}
    forall m | 0 <= m < |t.items| && t.items[m].id !in t.writing ensures t.items[m].status.Settled? {
      if t.items[m].id in q.writing {
        assert m != n ==> Before(q.items, m, n);
      }
    }
  }

  lemma TidyKeeps(q: Queue, n: nat)
    requires Inv(q) && Can(q, Tidy(n))
    ensures Inv(Next(q, Tidy(n)))
  {
    var t := Next(q, Tidy(n));
    TidyKeepsMap(q, n);
    forall m | 0 <= m < |t.items| ensures Chained(t.items, m) {
      assert Chained(q.items, m);
      forall k | Before(t.items, k, m) ensures Before(q.items, k, m) {}
      assert q.items[m].after.Some? ==> Before(t.items, q.items[m].after.value, m);
    }
    forall i, j | Before(t.items, i, j) ensures Before(q.items, i, j) {}
  }

  lemma InvKept(q: Queue, step: Step)
    requires Inv(q) && Can(q, step)
    ensures Inv(Next(q, step))
  {
    match step
    case Run(id) => RunKeeps(q, id);
    case Start(n) => StartKeeps(q, n);
    case Settle(n, ok) => SettleKeeps(q, n, ok);
    case Tidy(n) => TidyKeeps(q, n);
  }

  // ---- what holds in every reachable state ----------------------------------------------------

  const IDLE := Queue([], map[], [])

  ghost predicate IsRun(trace: seq<Queue>, steps: seq<Step>) {
    && |trace| == |steps| + 1 && trace[0] == IDLE
    && forall i | 0 <= i < |steps| :: Can(trace[i], steps[i]) && trace[i + 1] == Next(trace[i], steps[i])
  }

  lemma {:induction false} InvHolds(trace: seq<Queue>, steps: seq<Step>, i: nat)
    requires IsRun(trace, steps) && i < |trace|
    ensures Inv(trace[i])
  {
    if i > 0 {
      InvHolds(trace, steps, i - 1);
      InvKept(trace[i - 1], steps[i - 1]);
    }
  }

  /** At most one piece of work per environment is running. */
  lemma OneAtATime(trace: seq<Queue>, steps: seq<Step>, i: nat, m: nat, n: nat)
    requires IsRun(trace, steps) && i < |trace| && m < |trace[i].items| && n < |trace[i].items|
    requires trace[i].items[m].status == Running && trace[i].items[n].status == Running
    requires trace[i].items[m].id == trace[i].items[n].id
    ensures m == n
  {
    InvHolds(trace, steps, i);
    var items := trace[i].items;
    if m < n {
      InTurnAt(items, m, n);
    } else if n < m {
      InTurnAt(items, n, m);
    }
  }

  /** Work for one environment starts in the order it was submitted, whether what came before failed or not. */
  lemma StartsInSubmissionOrder(trace: seq<Queue>, steps: seq<Step>, i: nat, j: nat, k: nat)
    requires IsRun(trace, steps) && i < |trace| && j < k < |trace[i].started|
    ensures trace[i].started[j] < |trace[i].items| && trace[i].started[k] < |trace[i].items|
    ensures trace[i].items[trace[i].started[j]].id == trace[i].items[trace[i].started[k]].id ==>
              trace[i].started[j] < trace[i].started[k]
  {
    InvHolds(trace, steps, i);
    var started := trace[i].started;
    assert started[j] in started && started[k] in started;
  }

  lemma OutcomeNext(q: Queue, step: Step, n: nat, ok: bool)
    requires Can(q, step)
    ensures n < |Next(q, step).items| && Next(q, step).items[n].status == Settled(ok) <==>
            step == Settle(n, ok) || (n < |q.items| && q.items[n].status == Settled(ok))
  {
  }

  /** Whoever submitted work is told how that work itself ended: well or badly, and only once it has. */
  lemma {:induction false} OutcomeIsItsOwn(trace: seq<Queue>, steps: seq<Step>, i: nat, n: nat, ok: bool)
    requires IsRun(trace, steps) && i < |trace|
    ensures n < |trace[i].items| && trace[i].items[n].status == Settled(ok) <==>
            exists x | 0 <= x < i :: steps[x] == Settle(n, ok)
  {
    if i > 0 {
      OutcomeIsItsOwn(trace, steps, i - 1, n, ok);
      OutcomeNext(trace[i - 1], steps[i - 1], n, ok);
    }
  }

  /** And it never starts before everything submitted earlier for it has settled. */
  lemma NeverOvertakes(trace: seq<Queue>, steps: seq<Step>, i: nat, m: nat, n: nat)
    requires IsRun(trace, steps) && i < |trace| && Before(trace[i].items, m, n)
    requires trace[i].items[n].status != Waiting
    ensures trace[i].items[m].status.Settled?
  {
    InvHolds(trace, steps, i);
  }

  lemma {:induction false} FirstUnsettled(items: seq<Item>, id: string, n: nat) returns (m: nat)
    requires n < |items| && items[n].id == id && !items[n].status.Settled?
    ensures m <= n && items[m].id == id && !items[m].status.Settled?
    ensures forall k | Before(items, k, m) :: items[k].status.Settled?
  {
    if k :| Before(items, k, n) && !items[k].status.Settled? {
      m := FirstUnsettled(items, id, k);
    } else {
      m := n;
    }
  }

  /**
   * Environments never block one another: while one has work outstanding, some of its own work is
   * running or may start now, whatever the others' work is doing.
   */
  lemma NeverBlocked(trace: seq<Queue>, steps: seq<Step>, i: nat, n: nat) returns (m: nat)
    requires IsRun(trace, steps) && i < |trace| && n < |trace[i].items| && !trace[i].items[n].status.Settled?
    ensures m <= n && trace[i].items[m].id == trace[i].items[n].id
    ensures trace[i].items[m].status == Running || Ready(trace[i], m)
  {
    InvHolds(trace, steps, i);
    m := FirstUnsettled(trace[i].items, trace[i].items[n].id, n);
    assert Chained(trace[i].items, m);
  }

  /**
   * An environment leaves the map only when nothing is outstanding behind it: it is there exactly
   * until its last submission is tidied away, and by then everything submitted for it has settled.
   */
  lemma InTheMapIff(trace: seq<Queue>, steps: seq<Step>, i: nat, n: nat)
    requires IsRun(trace, steps) && i < |trace| && Last(trace[i].items, n)
    ensures trace[i].items[n].id in trace[i].writing <==> !trace[i].items[n].tidied
    ensures trace[i].items[n].tidied ==>
              forall k | 0 <= k < |trace[i].items| && trace[i].items[k].id == trace[i].items[n].id ::
                trace[i].items[k].status.Settled?
  {
    InvHolds(trace, steps, i);
    var q := trace[i];
    if q.items[n].id in q.writing {
      assert Last(q.items, q.writing[q.items[n].id]);
    }
  }

  // ---- the class --------------------------------------------------------------------------------

  class WriteQueue {
    var items: seq<Item>
    var writing: map<string, nat>
    ghost var started: seq<nat>

    ghost function View(): Queue
      reads this
    {
      Queue(items, writing, started)
    }

    constructor ()
      ensures View() == IDLE
    {
      items, writing, started := [], map[], [];
    }

    /** `run`: the caller gets its place in the queue. */
    method Submit(id: string) returns (n: nat)
      modifies this`items, this`writing
      ensures n == old(|items|) && View() == Next(old(View()), Run(id))
    {
      n := |items|;
      items := items + [Item(id, Lookup(writing, id), Waiting, false)];
      writing := writing[id := n];
    }

    /** The chained promise fires. */
    method Start(n: nat)
      requires Can(View(), Step.Start(n))
      modifies this`items, this`started
      ensures View() == Next(old(View()), Step.Start(n))
    {
      items := items[n := items[n].(status := Running)];
      started := started + [n];
    }

    method Settle(n: nat, ok: bool)
      requires Can(View(), Step.Settle(n, ok))
      modifies this`items
      ensures View() == Next(old(View()), Step.Settle(n, ok))
    {
      items := items[n := items[n].(status := Settled(ok))];
    }

    /** The clean-up after item `n`: its environment leaves the map, if no later submission has taken its place. */
    method Tidy(n: nat)
      requires Can(View(), Step.Tidy(n))
      modifies this`items, this`writing
      ensures View() == Next(old(View()), Step.Tidy(n))
    {
      var id := items[n].id;
      items := items[n := items[n].(tidied := true)];
      if id in writing && writing[id] == n {
        writing := writing - {id};
      }
    }
  }
}
