/**
 * What a failed flush leaves (src/upstream-cache.ts:92-127). The batch is dropped, so its values last only
 * where memory still has them; `remember` makes room by dropping the oldest entry, also when the key it is
 * given is held already.
 */
module Evictions {
  import opened Options
  import opened Ordered
  import opened UpstreamCaches

  // ---- one step ---------------------------------------------------------------------------------

  /** The key a step puts in memory, if any. */
  function PutKey(c: Cache, step: Step): Option<string> {
    match step
    case Set(key, _) => Some(key)
    case Answer(key) => if c.stored.Some? && key in c.stored.value then Some(key) else None
    case _ => None
  }

  function PutValue(c: Cache, step: Step): string
    requires PutKey(c, step).Some?
  {
    if step.Set? then step.value else c.stored.value[step.key]
  }

  /** The step puts another key in memory, finds it full, and this key is the oldest there. */
  predicate Evicts(c: Cache, step: Step, key: string) {
    && PutKey(c, step).Some? && PutKey(c, step) != Some(key)
    && |c.memory.keys| >= c.maxMemory && c.memory.keys != [] && c.memory.keys[0] == key
  }

  lemma RememberLooks(c: Cache, put: string, value: string, key: string)
    requires c.memory.Valid()
    ensures c.Remember(put, value).memory.Valid()
    ensures Lookup(c.Remember(put, value).memory.at, key) ==
            if key == put then Some(value)
            else if |c.memory.keys| >= c.maxMemory && c.memory.keys != [] && c.memory.keys[0] == key then None
            else Lookup(c.memory.at, key)
  {
    if |c.memory.keys| >= c.maxMemory && c.memory.keys != [] {
      DeleteAt(c.memory, 0);
      SetIsValid(c.memory.Delete(c.memory.keys[0]), put, value);
    } else {
      SetIsValid(c.memory, put, value);
    }
  }

  /** What memory has for a key after a step. */
  lemma MemoryAfter(c: Cache, step: Step, key: string)
    requires c.memory.Valid() && Can(c, step)
    ensures Next(c, step).memory.Valid()
    ensures Lookup(Next(c, step).memory.at, key) ==
            if PutKey(c, step) == Some(key) then Some(PutValue(c, step))
            else if Evicts(c, step, key) then None
            else Lookup(c.memory.at, key)
  {
    if PutKey(c, step).Some? {
      RememberLooks(c, PutKey(c, step).value, PutValue(c, step), key);
    }
  }

  // ---- over a run ---------------------------------------------------------------------------------

  ghost predicate FromEmpty(trace: seq<Cache>, steps: seq<Step>) {
    IsRun(trace, steps) && IsEmpty(trace[0])
  }

  lemma {:induction false} MemoryValid(trace: seq<Cache>, steps: seq<Step>, i: nat)
    requires FromEmpty(trace, steps) && i < |trace|
    ensures trace[i].memory.Valid()
  {
    if i > 0 {
      MemoryValid(trace, steps, i - 1);
      MemoryAfter(trace[i - 1], steps[i - 1], "");
    }
  }

  /** Step `x` of the run puts the key in memory. */
  ghost predicate PutAt(trace: seq<Cache>, steps: seq<Step>, x: int, key: string) {
    0 <= x < |steps| < |trace| && PutKey(trace[x], steps[x]) == Some(key)
  }

  ghost predicate EvictedAt(trace: seq<Cache>, steps: seq<Step>, x: int, key: string) {
    0 <= x < |steps| < |trace| && Evicts(trace[x], steps[x], key)
  }

  ghost predicate WasPut(trace: seq<Cache>, steps: seq<Step>, i: nat, key: string) {
    exists x | 0 <= x < i :: PutAt(trace, steps, x, key)
  }

  /** The key was evicted before `i`, and has not been put back since. */
  ghost predicate Gone(trace: seq<Cache>, steps: seq<Step>, i: nat, key: string) {
    exists x | 0 <= x < i :: GoneSince(trace, steps, x, i, key)
  }

  ghost predicate GoneSince(trace: seq<Cache>, steps: seq<Step>, x: int, i: nat, key: string) {
    EvictedAt(trace, steps, x, key) && forall y | x < y < i :: !PutAt(trace, steps, y, key)
  }

  lemma GoneNext(trace: seq<Cache>, steps: seq<Step>, j: nat, i: nat, key: string)
    requires IsRun(trace, steps) && j < |steps| && i == j + 1
    ensures Gone(trace, steps, i, key) <==>
            !PutAt(trace, steps, j, key) && (EvictedAt(trace, steps, j, key) || Gone(trace, steps, j, key))
  {
    if x :| 0 <= x < i && GoneSince(trace, steps, x, i, key) {
      if x < j {
        assert GoneSince(trace, steps, x, j, key);
      }
    }
    if !PutAt(trace, steps, j, key) {
      if EvictedAt(trace, steps, j, key) {
        assert GoneSince(trace, steps, j, i, key);
      } else if x :| 0 <= x < j && GoneSince(trace, steps, x, j, key) {
        assert GoneSince(trace, steps, x, i, key);
      }
    }
  }

  lemma WasPutNext(trace: seq<Cache>, steps: seq<Step>, i: nat, key: string)
    requires IsRun(trace, steps) && i < |steps|
    ensures WasPut(trace, steps, i + 1, key) <==> PutAt(trace, steps, i, key) || WasPut(trace, steps, i, key)
  {
    if x :| 0 <= x < i && PutAt(trace, steps, x, key) {
      assert 0 <= x < i + 1;
    }
  }

  /** Memory has a key exactly when it was put there and is not gone. */
  lemma {:induction false} InMemoryIff(trace: seq<Cache>, steps: seq<Step>, i: nat, key: string)
    requires FromEmpty(trace, steps) && i < |trace|
    ensures key in trace[i].memory.at <==> WasPut(trace, steps, i, key) && !Gone(trace, steps, i, key)
  {
    if i > 0 {
      InMemoryIff(trace, steps, i - 1, key);
      MemoryValid(trace, steps, i - 1);
      MemoryAfter(trace[i - 1], steps[i - 1], key);
      GoneNext(trace, steps, i - 1, i, key);
      WasPutNext(trace, steps, i - 1, key);
    }
  }

  /** The last put of the key before `i`, and no eviction since. */
  ghost predicate Stands(trace: seq<Cache>, steps: seq<Step>, r: int, i: nat, key: string, value: string) {
    && PutAt(trace, steps, r, key) && PutValue(trace[r], steps[r]) == value
    && forall y | r < y < i :: !PutAt(trace, steps, y, key) && !EvictedAt(trace, steps, y, key)
  }

  ghost predicate SomePutStands(trace: seq<Cache>, steps: seq<Step>, i: nat, key: string, value: string) {
    exists r | 0 <= r < i :: Stands(trace, steps, r, i, key, value)
  }

  /** And what memory has for it is the value of its last put, if that put still stands. */
  lemma {:induction false} MemoryHolds(trace: seq<Cache>, steps: seq<Step>, i: nat, key: string, value: string)
    requires FromEmpty(trace, steps) && i < |trace|
    ensures Lookup(trace[i].memory.at, key) == Some(value) <==> SomePutStands(trace, steps, i, key, value)
  {
    if i > 0 {
      var j := i - 1;
      MemoryHolds(trace, steps, j, key, value);
      MemoryValid(trace, steps, j);
      MemoryAfter(trace[j], steps[j], key);
      StandsNext(trace, steps, j, i, key, value);
    }
  }

  lemma StandsNext(trace: seq<Cache>, steps: seq<Step>, j: nat, i: nat, key: string, value: string)
    requires IsRun(trace, steps) && j < |steps| && i == j + 1
    ensures SomePutStands(trace, steps, i, key, value) <==>
            if PutAt(trace, steps, j, key) then PutValue(trace[j], steps[j]) == value
            else !EvictedAt(trace, steps, j, key) && SomePutStands(trace, steps, j, key, value)
  {
    if r :| 0 <= r < i && Stands(trace, steps, r, i, key, value) {
      if r < j {
        assert Stands(trace, steps, r, j, key, value);
      }
    }
    if PutAt(trace, steps, j, key) {
      if PutValue(trace[j], steps[j]) == value {
        assert Stands(trace, steps, j, i, key, value);
      }
    } else if !EvictedAt(trace, steps, j, key) {
      if r :| 0 <= r < j && Stands(trace, steps, r, j, key, value) {
        assert Stands(trace, steps, r, i, key, value);
      }
    }
  }

  // ---- what is buffered -------------------------------------------------------------------------------

  /** The last `set` of the key before `i`, with no flush begun since. */
  ghost predicate Buffered(steps: seq<Step>, r: int, i: nat, key: string, value: string) {
    && 0 <= r < |steps| && steps[r] == Set(key, value)
    && forall y | r < y < i && y < |steps| :: steps[y] != Begin && !SetsKey(steps[y], key)
  }

  predicate SetsKey(step: Step, key: string) { step.Set? && step.key == key }

  ghost predicate IsBuffered(steps: seq<Step>, i: nat, key: string, value: string) {
    exists r | 0 <= r < i :: Buffered(steps, r, i, key, value)
  }

  lemma {:induction false} BackendStays(trace: seq<Cache>, steps: seq<Step>, i: nat)
    requires IsRun(trace, steps) && i < |trace|
    ensures trace[i].stored.Some? == trace[0].stored.Some?
  {
    if i > 0 {
      BackendStays(trace, steps, i - 1);
    }
  }

  lemma {:induction false} PendingHolds(trace: seq<Cache>, steps: seq<Step>, i: nat, key: string, value: string)
    requires FromEmpty(trace, steps) && i < |trace| && trace[0].stored.Some?
    ensures Lookup(trace[i].pending, key) == Some(value) <==> IsBuffered(steps, i, key, value)
  {
    if i > 0 {
      var j := i - 1;
      PendingHolds(trace, steps, j, key, value);
      BackendStays(trace, steps, j);
      BufferedNext(steps, j, i, key, value);
    }
  }

  lemma BufferedNext(steps: seq<Step>, j: nat, i: nat, key: string, value: string)
    requires j < |steps| && i == j + 1
    ensures IsBuffered(steps, i, key, value) <==>
            if SetsKey(steps[j], key) then steps[j].value == value
            else steps[j] != Begin && IsBuffered(steps, j, key, value)
  {
    if r :| 0 <= r < i && Buffered(steps, r, i, key, value) {
      if r < j {
        assert Buffered(steps, r, j, key, value);
      }
    }
    if SetsKey(steps[j], key) {
      if steps[j].value == value {
        assert Buffered(steps, j, i, key, value);
      }
    } else if steps[j] != Begin {
      if r :| 0 <= r < j && Buffered(steps, r, j, key, value) {
        assert Buffered(steps, r, i, key, value);
      }
    }
  }

  /** Whatever is on its way or waiting was set. */
  lemma {:induction false} BatchWasSet(trace: seq<Cache>, steps: seq<Step>, i: nat, key: string)
    requires FromEmpty(trace, steps) && i < |trace|
    requires key in trace[i].pending || (trace[i].flight.Some? && key in trace[i].flight.value)
    ensures exists x | 0 <= x < i :: SetsKey(steps[x], key)
  {
    if i > 0 {
      var c := trace[i - 1];
      if key in c.pending || (c.flight.Some? && key in c.flight.value) {
        BatchWasSet(trace, steps, i - 1, key);
        var x :| 0 <= x < i - 1 && SetsKey(steps[x], key);
      } else {
        assert SetsKey(steps[i - 1], key);
      }
    }
  }

  lemma BatchWasPut(trace: seq<Cache>, steps: seq<Step>, i: nat, key: string)
    requires FromEmpty(trace, steps) && i < |trace|
    requires key in trace[i].pending || (trace[i].flight.Some? && key in trace[i].flight.value)
    ensures WasPut(trace, steps, i, key)
  {
    BatchWasSet(trace, steps, i, key);
    var x :| 0 <= x < i && SetsKey(steps[x], key);
    assert PutAt(trace, steps, x, key);
  }

  // ---- after a failed flush ----------------------------------------------------------------------------

  /** The run ends with a flush that failed, and the key was in its batch. */
  ghost predicate FailsWith(trace: seq<Cache>, steps: seq<Step>, key: string) {
    && FromEmpty(trace, steps) && steps != [] && steps[|steps| - 1] == End(false)
    && key in trace[|steps| - 1].flight.value
  }

  /** The value the key had in the batch that failed. */
  ghost function Batched(trace: seq<Cache>, steps: seq<Step>, key: string): string
    requires FailsWith(trace, steps, key)
  {
    trace[|steps| - 1].flight.value[key]
  }

  lemma EndKeeps(trace: seq<Cache>, steps: seq<Step>, key: string)
    requires FailsWith(trace, steps, key)
    ensures var e := |steps| - 1;
            trace[e + 1].memory == trace[e].memory && trace[e + 1].pending == trace[e].pending
    ensures trace[0].stored.Some?
  {
    BackendStays(trace, steps, |steps| - 1);
  }

  /** The key has been set, and no flush begun since. */
  ghost predicate SetAgain(steps: seq<Step>, i: nat, key: string) {
    exists value :: IsBuffered(steps, i, key, value)
  }

  /**
   * What is still hot after a failed flush, over every run: a key of the batch is hot exactly when it was
   * not evicted for good, or has been set again since the batch set out.
   */
  lemma FailedFlushKeepsIff(trace: seq<Cache>, steps: seq<Step>, key: string)
    requires FailsWith(trace, steps, key)
    ensures var e := |steps| - 1;
            trace[e + 1].Hot(key).Some? <==>
            !Gone(trace, steps, e, key) || SetAgain(steps, e, key)
  {
    var e := |steps| - 1;
    EndKeeps(trace, steps, key);
    InMemoryIff(trace, steps, e, key);
    BatchWasPut(trace, steps, e, key);
    if key in trace[e].pending {
      PendingHolds(trace, steps, e, key, trace[e].pending[key]);
    }
    if value :| IsBuffered(steps, e, key, value) {
      PendingHolds(trace, steps, e, key, value);
    }
  }

  /** And with which value: that of its last put while that stands, and else that of its last `set`. */
  lemma FailedFlushKeepsValueIff(trace: seq<Cache>, steps: seq<Step>, key: string)
    requires FailsWith(trace, steps, key)
    ensures var e, value := |steps| - 1, Batched(trace, steps, key);
            trace[e + 1].Hot(key) == Some(value) <==>
            if Gone(trace, steps, e, key) then IsBuffered(steps, e, key, value)
            else SomePutStands(trace, steps, e, key, value)
  {
    var e, value := |steps| - 1, Batched(trace, steps, key);
    EndKeeps(trace, steps, key);
    InMemoryIff(trace, steps, e, key);
    BatchWasPut(trace, steps, e, key);
    MemoryHolds(trace, steps, e, key, value);
    PendingHolds(trace, steps, e, key, value);
  }

  /**
   * Where the cache is transparent all values of a key are one, so a key of the batch is hot with its
   * batched value exactly when it was not evicted for good, or was set again since.
   */
  lemma FailedFlushKeepsBatchedIff(w: World, trace: seq<Cache>, steps: seq<Step>, key: string)
    requires FailsWith(trace, steps, key) && w.OneChainPerHost() && Fetched(w, steps)
    ensures var e := |steps| - 1;
            trace[e + 1].Hot(key) == Some(Batched(trace, steps, key)) <==>
            !Gone(trace, steps, e, key) || SetAgain(steps, e, key)
  {
    var e := |steps| - 1;
    FailedFlushKeepsIff(trace, steps, key);
    if trace[e + 1].Hot(key).Some? {
      InvHolds(w, trace, steps, e);
      InvHolds(w, trace, steps, e + 1);
      BatchWasSet(trace, steps, e, key);
      OneValue(w, key, trace[e + 1].Hot(key).value, Batched(trace, steps, key), steps);
    }
  }

  lemma OneValue(w: World, key: string, a: string, b: string, steps: seq<Step>)
    requires w.Right(key, a) && w.Right(key, b) && Fetched(w, steps)
    requires exists x | 0 <= x < |steps| :: SetsKey(steps[x], key)
    ensures a == b
  {
    var x :| 0 <= x < |steps| && SetsKey(steps[x], key);
    assert FromParent(w, key, steps[x].value);
    var url, ask: Ask :| ask.Separable() && key == Key(w.host(url), ask) && steps[x].value == w.parent(url, ask);
  }

  // ---- what can be known beforehand -------------------------------------------------------------------

  /** Everything put in memory so far found room there. */
  ghost predicate RoomToSpare(trace: seq<Cache>, steps: seq<Step>) {
    forall x | 0 <= x < |steps| < |trace| && PutKey(trace[x], steps[x]).Some? ::
      |trace[x].memory.keys| < trace[x].maxMemory
  }

  /** While there is room, a failed flush loses nothing: every key ever put is hot, with its last value. */
  lemma NothingLostWhileThereIsRoom(trace: seq<Cache>, steps: seq<Step>, key: string)
    requires FromEmpty(trace, steps) && RoomToSpare(trace, steps) && WasPut(trace, steps, |steps|, key)
    ensures var hot := trace[|steps|].Hot(key);
            hot.Some? && SomePutStands(trace, steps, |steps|, key, hot.value)
  {
    InMemoryIff(trace, steps, |steps|, key);
    forall x | 0 <= x < |steps| ensures !GoneSince(trace, steps, x, |steps|, key) {
      assert PutKey(trace[x], steps[x]).Some? ==> |trace[x].memory.keys| < trace[x].maxMemory;
    }
    MemoryHolds(trace, steps, |steps|, key, trace[|steps|].memory.at[key]);
  }

  /**
   * More keys than memory is not needed to lose one: with room for two, a second `set` of the newer key,
   * as two misses at once make, drops the older, and a failed flush then leaves it nowhere.
   */
  lemma SecondSetForgetsTheOther(start: Cache, a: string, v: string, b: string, u: string)
    returns (trace: seq<Cache>, steps: seq<Step>)
    requires IsEmpty(start) && start.maxMemory == 2 && start.stored.Some? && a != b
    ensures steps == [Set(a, v), Set(b, u), Set(b, u), Begin, End(false)]
    ensures FailsWith(trace, steps, a) && trace[0] == start
    ensures trace[5].Hot(a) == None && trace[5].stored == Some(map[]) && trace[5].Hot(b) == Some(u)
  {
    var c1 := Next(start, Set(a, v));
    assert c1.memory.keys == [a];
    var c2 := Next(c1, Set(b, u));
    assert c2.memory.keys == [a, b];
    DropsFirst(c2.memory, a, b);
    var c3 := Next(c2, Set(b, u));
    assert c3.memory == OMap([b], map[b := u]);
    var c4 := Next(c3, Begin);
    trace, steps := [start, c1, c2, c3, c4, Next(c4, End(false))], [Set(a, v), Set(b, u), Set(b, u), Begin, End(false)];
  }

  lemma DropsFirst(m: OMap<string, string>, a: string, b: string)
    requires a != b && m.keys == [a, b] && a in m.at && b in m.at && m.at.Keys == {a, b}
    ensures m.Delete(a) == OMap([b], map[b := m.at[b]])
  {
    assert IndexOf(m.keys, a) == 0;
    assert Without(m.keys, a) == [b];
    assert m.at - {a} == map[b := m.at[b]];
  }
}
