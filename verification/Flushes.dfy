/**
 * What the backend holds (src/upstream-cache.ts:57-109): over every run from an empty cache, told from the steps
 * alone, and so what a flush that ended well is good for.
 */
module Flushes {
  import opened Options
  import opened Ordered
  import opened UpstreamCaches
  import opened Evictions

  // ---- the batch on its way -------------------------------------------------------------------------------

  /** A flush begun at step `b` has not ended before `i`. */
  ghost predicate InFlight(steps: seq<Step>, b: int, i: nat) {
    0 <= b < i <= |steps| && steps[b] == Begin && forall y | b < y < i :: !steps[y].End?
  }

  /** A batch is what was waiting when its flush began. */
  lemma {:induction false} FlightIs(trace: seq<Cache>, steps: seq<Step>, b: nat, i: nat)
    requires IsRun(trace, steps) && InFlight(steps, b, i)
    ensures trace[i].flight == Some(trace[b].pending)
    decreases i
  {
    if b + 1 < i {
      FlightIs(trace, steps, b, i - 1);
      FlightStays(trace[i - 1], steps[i - 1]);
    }
  }

  lemma FlightStays(c: Cache, step: Step)
    requires Can(c, step) && c.flight.Some? && !step.End?
    ensures Next(c, step).flight == c.flight && step != Begin
  {
  }

  lemma FlightStarts(c: Cache, step: Step)
    requires Can(c, step) && c.flight.None? && step != Begin
    ensures Next(c, step).flight.None?
  {
  }

  lemma {:induction false} FlightBegan(trace: seq<Cache>, steps: seq<Step>, i: nat) returns (b: nat)
    requires FromEmpty(trace, steps) && i < |trace| && trace[i].flight.Some?
    ensures InFlight(steps, b, i)
  {
    b := i - 1;
    if steps[b] != Begin {
      if trace[b].flight.None? {
        FlightStarts(trace[b], steps[b]);
      }
      b := FlightBegan(trace, steps, i - 1);
    }
  }

  /** No two flushes overlap. */
  lemma OneInFlight(trace: seq<Cache>, steps: seq<Step>, a: nat, b: nat, i: nat)
    requires IsRun(trace, steps) && InFlight(steps, a, i) && InFlight(steps, b, i)
    ensures a == b
  {
    if a < b {
      FlightIs(trace, steps, a, b);
    } else if b < a {
      FlightIs(trace, steps, b, a);
    }
  }

  // ---- what is stored ---------------------------------------------------------------------------------------

  /** The flush begun at `b` ended well at `e`, and the last `set` of the key before `b` that it took gave the value. */
  ghost predicate Flushed(steps: seq<Step>, b: int, e: nat, key: string, value: string) {
    InFlight(steps, b, e) && e < |steps| && steps[e] == End(true) && IsBuffered(steps, b, key, value)
  }

  ghost predicate FlushedAt(steps: seq<Step>, e: nat, key: string, value: string) {
    exists b | 0 <= b < e :: Flushed(steps, b, e, key, value)
  }

  ghost predicate StoresAt(steps: seq<Step>, e: nat, key: string) {
    exists value :: FlushedAt(steps, e, key, value)
  }

  /** The last flush before `i` that ended well with the key in its batch carried the value. */
  ghost predicate LastFlushed(steps: seq<Step>, e: int, i: nat, key: string, value: string) {
    0 <= e < i && FlushedAt(steps, e, key, value) && forall y: nat | e < y < i :: !StoresAt(steps, y, key)
  }

  ghost predicate IsStored(steps: seq<Step>, i: nat, key: string, value: string) {
    exists e | 0 <= e < i :: LastFlushed(steps, e, i, key, value)
  }

  lemma StoredNext(steps: seq<Step>, j: nat, i: nat, key: string, value: string)
    requires i == j + 1
    ensures IsStored(steps, i, key, value) <==>
            if StoresAt(steps, j, key) then FlushedAt(steps, j, key, value) else IsStored(steps, j, key, value)
  {
    if e :| 0 <= e < i && LastFlushed(steps, e, i, key, value) {
      if e < j {
        assert !StoresAt(steps, j, key);
        assert LastFlushed(steps, e, j, key, value);
      }
    }
    if StoresAt(steps, j, key) {
      if FlushedAt(steps, j, key, value) {
        assert LastFlushed(steps, j, i, key, value);
      }
    } else if e :| 0 <= e < j && LastFlushed(steps, e, j, key, value) {
      assert LastFlushed(steps, e, i, key, value);
    }
  }

  /** A flush that ends well stores its batch over what was there, and no other step stores anything. */
  lemma BackendAfter(c: Cache, step: Step, key: string)
    requires Can(c, step) && c.stored.Some?
    ensures Next(c, step).stored.Some?
    ensures Lookup(Next(c, step).stored.value, key) ==
            if step == End(true) && key in c.flight.value then Some(c.flight.value[key]) else Lookup(c.stored.value, key)
  {
  }

  /** What the flush that ends at `e` carries is what was buffered when it began. */
  lemma CarriedIs(trace: seq<Cache>, steps: seq<Step>, e: nat, key: string, value: string)
    requires FromEmpty(trace, steps) && trace[0].stored.Some? && e < |steps| && steps[e] == End(true)
    ensures Can(trace[e], End(true)) && (Lookup(trace[e].flight.value, key) == Some(value) <==> FlushedAt(steps, e, key, value))
  {
    var b := FlightBegan(trace, steps, e);
    FlightIs(trace, steps, b, e);
    PendingHolds(trace, steps, b, key, value);
    if IsBuffered(steps, b, key, value) {
      assert Flushed(steps, b, e, key, value);
    }
    if a :| 0 <= a < e && Flushed(steps, a, e, key, value) {
      OneInFlight(trace, steps, a, b, e);
    }
  }

  lemma StoresIff(trace: seq<Cache>, steps: seq<Step>, e: nat, key: string)
    requires FromEmpty(trace, steps) && trace[0].stored.Some? && e < |steps| && Can(trace[e], steps[e])
    ensures StoresAt(steps, e, key) <==> steps[e] == End(true) && key in trace[e].flight.value
  {
    if steps[e] == End(true) {
      if key in trace[e].flight.value {
        CarriedIs(trace, steps, e, key, trace[e].flight.value[key]);
      }
      if value :| FlushedAt(steps, e, key, value) {
        CarriedIs(trace, steps, e, key, value);
      }
    }
  }

  /**
   * What the backend answers. Over every run from an empty cache, it has a value for a key exactly when the last
   * flush that ended well with the key in its batch carried that value: the one the last `set` of the key gave
   * before that flush began.
   */
  lemma {:induction false} StoredHolds(trace: seq<Cache>, steps: seq<Step>, i: nat, key: string, value: string)
    requires FromEmpty(trace, steps) && i < |trace| && trace[0].stored.Some?
    ensures trace[i].stored.Some?
    ensures Lookup(trace[i].stored.value, key) == Some(value) <==> IsStored(steps, i, key, value)
  {
    if i > 0 {
      var j := i - 1;
      StoredHolds(trace, steps, j, key, value);
      StoredNext(steps, j, i, key, value);
      BackendAfter(trace[j], steps[j], key);
      StoresIff(trace, steps, j, key);
      if steps[j] == End(true) {
        CarriedIs(trace, steps, j, key, value);
      }
    }
  }

  // ---- what that is good for --------------------------------------------------------------------------------

  lemma NotBufferedAgain(steps: seq<Step>, r: nat, b: nat, a: nat, s: int, key: string, value: string)
    requires r < b < a <= |steps| && steps[b] == Begin && 0 <= s < a
    requires forall z | r < z < a :: !SetsKey(steps[z], key)
    ensures !Buffered(steps, s, a, key, value)
  {
    if r < s {
      assert !SetsKey(steps[s], key);
    }
  }

  lemma NotFlushedAgain(steps: seq<Step>, r: nat, b: nat, e: nat, y: nat, a: int, key: string, value: string)
    requires r < b < e < y <= |steps| && steps[b] == Begin && steps[e].End? && 0 <= a < y
    requires forall z | r < z < y :: !SetsKey(steps[z], key)
    ensures !Flushed(steps, a, y, key, value)
  {
    if e < a {
      forall s | 0 <= s < a ensures !Buffered(steps, s, a, key, value) {
        NotBufferedAgain(steps, r, b, a, s, key, value);
      }
    }
  }

  /** No later flush carries a key that is not set again. */
  lemma NotCarriedAgain(steps: seq<Step>, r: nat, b: nat, e: nat, i: nat, y: nat, key: string)
    requires r < b < e < y < i <= |steps| && steps[b] == Begin && steps[e].End?
    requires forall z | r < z < i :: !SetsKey(steps[z], key)
    ensures !StoresAt(steps, y, key)
  {
    forall value ensures !FlushedAt(steps, y, key, value) {
      forall a | 0 <= a < y ensures !Flushed(steps, a, y, key, value) {
        NotFlushedAgain(steps, r, b, e, y, a, key, value);
      }
    }
  }

  /**
   * A value that was flushed well is not lost: until the key is set again, the backend answers it, whatever
   * memory has dropped since and however later flushes end.
   */
  lemma FlushedIsAnswered(trace: seq<Cache>, steps: seq<Step>, r: nat, b: nat, e: nat, i: nat, key: string, value: string)
    requires FromEmpty(trace, steps) && trace[0].stored.Some? && r < b < e < i < |trace|
    requires steps[r] == Set(key, value) && InFlight(steps, b, e) && steps[e] == End(true)
    requires forall z | r < z < b :: steps[z] != Begin
    requires forall z | r < z < i :: !SetsKey(steps[z], key)
    ensures Can(trace[i], Answer(key)) && Told(trace[i], Answer(key)) == Some(value)
  {
    assert Buffered(steps, r, b, key, value);
    assert Flushed(steps, b, e, key, value);
    forall y: nat | e < y < i ensures !StoresAt(steps, y, key) { NotCarriedAgain(steps, r, b, e, i, y, key); }
    assert LastFlushed(steps, e, i, key, value);
    StoredHolds(trace, steps, i, key, value);
  }
}
