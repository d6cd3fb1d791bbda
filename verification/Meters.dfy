/**
 * Usage per environment and day (src/meter.ts:66-135), conserved while it moves between the counts in
 * memory, a batch in flight and the sink. The sink takes a batch whole or not at all.
 */
module Meters {
  import opened Options

  datatype Counter = Requests | Misses | Forwarded

  datatype Usage = Usage(requests: int, misses: int, forwarded: int)
  {
    function Of(c: Counter): int {
      match c
      case Requests => requests
      case Misses => misses
      case Forwarded => forwarded
    }

    function Plus(u: Usage): Usage {
      Usage(requests + u.requests, misses + u.misses, forwarded + u.forwarded)
    }
  }

  /** An environment and a UTC day, counted from the epoch. */
  datatype Key = Key(envId: string, day: int)
  type Tally = map<Key, Usage>

  function Entry(m: Tally, k: Key): Usage { if k in m then m[k] else Usage(0, 0, 0) }

  /** What a tally has under one counter of one key. */
  function At(m: Tally, k: Key, c: Counter): int { Entry(m, k).Of(c) }

  /** `today`: the day a time falls in, before the epoch too. */
  function Day(at: int): int { at / 86_400_000 }

  /** The first millisecond of a UTC day. */
  function Midnight(day: int): int { day * 86_400_000 }

  lemma MidnightIsThatDay(day: int)
    ensures Day(Midnight(day)) == day
    ensures forall at :: Day(at) == day <==> Midnight(day) <= at < Midnight(day + 1)
  {}

  function Add(m: Tally, k: Key, u: Usage): Tally { m[k := Entry(m, k).Plus(u)] }

  /** A batch put back on top of what has been counted meanwhile. */
  function PutBack(m: Tally, batch: Tally): Tally {
    m + map k | k in batch :: Entry(m, k).Plus(batch[k])
  }

  datatype State = State(pending: Tally, flight: Option<Tally>, sunk: Tally)
  {
    function InFlight(): Tally { if flight.Some? then flight.value else map[] }
  }

  datatype Step =
    | Count(envId: string, u: Usage, at: int)   // `request`, `miss` or `forward`
    | Begin                                     // `flush`
    | Written                                   // the sink took the batch
    | NotWritten                                // the sink threw

  predicate Can(s: State, step: Step) {
    (step.Written? || step.NotWritten?) ==> s.flight.Some?
  }

  function Next(s: State, step: Step): State
    requires Can(s, step)
  {
    match step
    case Count(envId, u, at) => s.(pending := Add(s.pending, Key(envId, Day(at)), u))
    case Begin => if s.flight.Some? || |s.pending| == 0 then s else s.(pending := map[], flight := Some(s.pending))
    case Written => s.(flight := None, sunk := PutBack(s.sunk, s.flight.value))
    case NotWritten => s.(flight := None, pending := PutBack(s.pending, s.flight.value))
  }

  // ---- conservation ---------------------------------------------------------------------------

  /** Everything counted over a run, under one counter of one key. */
  function Counted(steps: seq<Step>, k: Key, c: Counter): int {
    if steps == [] then 0
    else
      var last := steps[|steps| - 1];
      Counted(steps[..|steps| - 1], k, c) + if last.Count? && Key(last.envId, Day(last.at)) == k then last.u.Of(c) else 0
  }

  ghost predicate IsRun(trace: seq<State>, steps: seq<Step>) {
    && |trace| == |steps| + 1 && trace[0] == State(map[], None, map[])
    && forall i | 0 <= i < |steps| :: Can(trace[i], steps[i]) && trace[i + 1] == Next(trace[i], steps[i])
  }

  function Held(s: State, k: Key, c: Counter): int {
    At(s.sunk, k, c) + At(s.pending, k, c) + At(s.InFlight(), k, c)
  }

  lemma HeldAfter(s: State, step: Step, k: Key, c: Counter)
    requires Can(s, step)
    ensures Held(Next(s, step), k, c) ==
            Held(s, k, c) + if step.Count? && Key(step.envId, Day(step.at)) == k then step.u.Of(c) else 0
  {}

  /**
   * Per environment and day, what was counted is what the sink took, what is pending and what is in
   * flight, over any interleaving of counts with flushes that succeed or fail.
   */
  lemma {:induction false} UsageIsConserved(trace: seq<State>, steps: seq<Step>, i: nat, k: Key, c: Counter)
    requires IsRun(trace, steps) && i < |trace|
    ensures Counted(steps[..i], k, c) == At(trace[i].sunk, k, c) + At(trace[i].pending, k, c) + At(trace[i].InFlight(), k, c)
  {
    if i > 0 {
      UsageIsConserved(trace, steps, i - 1, k, c);
      assert steps[..i][..i - 1] == steps[..i - 1];
      HeldAfter(trace[i - 1], steps[i - 1], k, c);
    }
  }

  /** Counts between a flush's beginning and its end leave the batch and the sink alone. */
  lemma {:induction false} BatchWaits(trace: seq<State>, steps: seq<Step>, i: nat, j: nat)
    requires IsRun(trace, steps) && i <= j < |trace| && trace[i].flight.Some?
    requires forall x | i <= x < j :: !steps[x].Written? && !steps[x].NotWritten?
    ensures trace[j].flight == trace[i].flight && trace[j].sunk == trace[i].sunk
    decreases j
  {
    if i < j {
      BatchWaits(trace, steps, i, j - 1);
      BatchStays(trace[j - 1], steps[j - 1]);
    }
  }

  lemma BatchStays(s: State, step: Step)
    requires s.flight.Some? && Can(s, step) && !step.Written? && !step.NotWritten?
    ensures Next(s, step).flight == s.flight && Next(s, step).sunk == s.sunk
  {}

  /** A flush that finds something counted takes it all. */
  lemma BeginTakes(s: State, k: Key, c: Counter)
    requires s.flight.None?
    ensures s.pending != map[] ==> Next(s, Begin).flight.Some?
    ensures var t := Next(s, Begin);
            At(t.pending, k, c) == 0 && At(t.InFlight(), k, c) == At(s.pending, k, c) && t.sunk == s.sunk
  {
    if |s.pending| == 0 {
      assert s.pending == map[];
    }
  }

  lemma WrittenSinks(s: State, k: Key, c: Counter)
    requires s.flight.Some?
    ensures At(Next(s, Written).sunk, k, c) == At(s.sunk, k, c) + At(s.flight.value, k, c)
  {}

  /**
   * What a flush is for. One that begins while none is under way, with anything counted, can be written; and once
   * it is, the sink has exactly what was counted up to its beginning, whatever was counted in between.
   */
  lemma FlushSinksEverything(trace: seq<State>, steps: seq<Step>, i: nat, j: nat, k: Key, c: Counter)
    requires IsRun(trace, steps) && i < j < |trace| && steps[i] == Begin && trace[i].flight.None?
    requires forall x | i < x < j :: !steps[x].Written? && !steps[x].NotWritten?
    ensures trace[i].pending != map[] ==> Can(trace[j], Written)
    ensures Can(trace[j], Written) && trace[i].pending != map[] ==>
              At(Next(trace[j], Written).sunk, k, c) == Counted(steps[..i], k, c)
    ensures trace[i].pending == map[] ==> At(trace[i].sunk, k, c) == Counted(steps[..i], k, c)
  {
    UsageIsConserved(trace, steps, i, k, c);
    BeginTakes(trace[i], k, c);
    if trace[i].pending != map[] {
      BatchWaits(trace, steps, i + 1, j);
      WrittenSinks(trace[j], k, c);
    }
  }

  // ---- the class --------------------------------------------------------------------------------

  class Meter {
    var pending: Tally
    /** The batch being written; while there is one, no other flush begins. */
    var flushing: Option<Tally>
    ghost var sunk: Tally

    ghost function View(): State
      reads this
    {
      State(pending, flushing, sunk)
    }

    constructor ()
      ensures View() == State(map[], None, map[])
    {
      pending, flushing, sunk := map[], None, map[];
    }

    /** `entry`, and what is added to the counters it hands out. */
    method Record(envId: string, at: int, u: Usage)
      modifies this`pending
      ensures pending == Add(old(pending), Key(envId, Day(at)), u)
    {
      var key := Key(envId, Day(at));
      if key !in pending {
        pending := pending[key := Usage(0, 0, 0)];
      }
      pending := pending[key := pending[key].Plus(u)];
    }

    method Request(envId: string, calls: int, at: int)
      modifies this`pending
      ensures View() == Next(old(View()), Count(envId, Usage(calls, 0, 0), at))
    {
      Record(envId, at, Usage(calls, 0, 0));
    }

    method Miss(envId: string, at: int)
      modifies this`pending
      ensures View() == Next(old(View()), Count(envId, Usage(0, 1, 0), at))
    {
      Record(envId, at, Usage(0, 1, 0));
    }

    method Forward(envId: string, at: int)
      modifies this`pending
      ensures View() == Next(old(View()), Count(envId, Usage(0, 0, 1), at))
    {
      Record(envId, at, Usage(0, 0, 1));
    }

    /** `flush` up to the sink. */
    method BeginFlush()
      modifies this`pending, this`flushing
      ensures View() == Next(old(View()), Begin)
    {
      if flushing.Some? || |pending| == 0 {
        return;
      }
      flushing := Some(pending);
      pending := map[];
    }

    /** `flush` after the sink: a batch that failed goes back entry by entry, by way of its day's midnight. */
    method EndFlush(written: bool)
      requires flushing.Some?
      modifies this
      ensures View() == Next(old(View()), if written then Written else NotWritten)
    {
      if written {
        sunk := PutBack(sunk, flushing.value);
      } else {
        Return(flushing.value);
      }
      flushing := None;
    }

    method Return(batch: Tally)
      modifies this`pending
      ensures pending == PutBack(old(pending), batch)
    {
      var left := batch.Keys;
      NothingBack(pending, batch);
      while left != {}
        invariant left <= batch.Keys && pending == PutBack(old(pending), batch - left)
        decreases |left|
      {
        var key :| key in left;
        ReturnOne(old(pending), batch, left, key);
        left := left - {key};
      }
      AllBack(old(pending), batch);
    }

    /** One entry of the batch, the rest of `left` still to come. */
    method ReturnOne(ghost before: Tally, batch: Tally, ghost left: set<Key>, key: Key)
      requires key in left && left <= batch.Keys && pending == PutBack(before, batch - left)
      modifies this`pending
      ensures pending == PutBack(before, batch - (left - {key}))
    {
      MidnightIsThatDay(key.day);
      OneMoreBack(before, batch, left, key);
      Record(key.envId, Midnight(key.day), batch[key]);
    }
  }

  lemma NothingBack(m: Tally, batch: Tally)
    ensures PutBack(m, batch - batch.Keys) == m
  {
    assert batch - batch.Keys == map[];
  }

  lemma AllBack(m: Tally, batch: Tally)
    ensures PutBack(m, batch - {}) == PutBack(m, batch)
  {
    assert batch - {} == batch;
  }

  lemma OneMoreBack(m: Tally, batch: Tally, left: set<Key>, key: Key)
    requires key in left && key in batch
    ensures Add(PutBack(m, batch - left), key, batch[key]) == PutBack(m, batch - (left - {key}))
  {
    var a, b := Add(PutBack(m, batch - left), key, batch[key]), PutBack(m, batch - (left - {key}));
    assert a.Keys == b.Keys;
    forall k | k in a ensures a[k] == b[k] {}
  }
}
