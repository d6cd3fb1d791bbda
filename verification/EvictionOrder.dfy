/**
 * Which entry makes room (src/upstream-cache.ts:114-127): over every run from an empty cache, memory keeps its
 * entries in the order they came in, so the one dropped is the one that has been there longest; putting a key
 * again does not make it younger, unless it was itself the oldest of a full memory.
 */
module EvictionOrder {
  import opened Options
  import opened Ordered
  import opened UpstreamCaches
  import opened Evictions

  predicate Full(c: Cache) {
    |c.memory.keys| >= c.maxMemory && c.memory.keys != []
  }

  /** Once room was made for it, the key is not there. */
  predicate Absent(c: Cache, key: string) {
    key !in c.memory.at || (Full(c) && c.memory.keys[0] == key)
  }

  /** Step `x` brings the key in. */
  ghost predicate EntersAt(trace: seq<Cache>, steps: seq<Step>, x: int, key: string) {
    PutAt(trace, steps, x, key) && Absent(trace[x], key)
  }

  /** The key came in at step `x` and has been there since. */
  ghost predicate ThereSince(trace: seq<Cache>, steps: seq<Step>, x: nat, i: nat, key: string) {
    && x < i && EntersAt(trace, steps, x, key)
    && forall y | x < y < i :: !EvictedAt(trace, steps, y, key) && !EntersAt(trace, steps, y, key)
  }

  predicate Increasing(at: seq<nat>) {
    forall m, n | 0 <= m < n < |at| :: at[m] < at[n]
  }

  /** The entries of memory, oldest first, came in at these steps. */
  ghost predicate CameIn(trace: seq<Cache>, steps: seq<Step>, i: nat, at: seq<nat>) {
    && i < |trace| && |at| == |trace[i].memory.keys| && Increasing(at)
    && forall n | 0 <= n < |at| :: ThereSince(trace, steps, at[n], i, trace[i].memory.keys[n])
  }

  // ---- one step -------------------------------------------------------------------------------------------

  /** What is left once room was made. */
  function Room(c: Cache): seq<string> { if Full(c) then c.memory.keys[1..] else c.memory.keys }

  lemma MakesRoom(m: OMap<string, string>)
    requires m.Valid() && m.keys != []
    ensures m.Delete(m.keys[0]).keys == m.keys[1..]
  {
    WithoutAt(m.keys, 0);
  }

  lemma KeysRemembered(c: Cache, key: string, value: string)
    requires c.memory.Valid()
    ensures c.Remember(key, value).memory.keys == if Absent(c, key) then Room(c) + [key] else Room(c)
  {
    if Full(c) {
      MakesRoom(c.memory);
    }
  }

  lemma PutRemembers(c: Cache, step: Step, key: string)
    requires Can(c, step) && PutKey(c, step) == Some(key)
    ensures Next(c, step).memory == c.Remember(key, PutValue(c, step)).memory
  {
  }

  lemma KeysAfterPut(c: Cache, step: Step, key: string)
    requires c.memory.Valid() && Can(c, step) && PutKey(c, step) == Some(key)
    ensures Next(c, step).memory.keys == if Absent(c, key) then Room(c) + [key] else Room(c)
  {
    PutRemembers(c, step, key);
    KeysRemembered(c, key, PutValue(c, step));
  }

  lemma KeysStay(c: Cache, step: Step)
    requires Can(c, step) && PutKey(c, step).None?
    ensures Next(c, step).memory == c.memory
  {
  }

  lemma StillThere(trace: seq<Cache>, steps: seq<Step>, x: nat, j: nat, key: string)
    requires ThereSince(trace, steps, x, j, key) && !EvictedAt(trace, steps, j, key) && !EntersAt(trace, steps, j, key)
    ensures ThereSince(trace, steps, x, j + 1, key)
  {
  }

  lemma JustCame(trace: seq<Cache>, steps: seq<Step>, j: nat, key: string)
    requires EntersAt(trace, steps, j, key)
    ensures ThereSince(trace, steps, j, j + 1, key)
  {
  }

  /** The entries that stay where they are. */
  lemma RestStays(trace: seq<Cache>, steps: seq<Step>, j: nat, at: seq<nat>, n: nat)
    requires IsRun(trace, steps) && j < |steps| && trace[j].memory.Valid() && CameIn(trace, steps, j, at) && n < |at|
    requires PutKey(trace[j], steps[j]).None? || !Full(trace[j]) || n > 0
    ensures ThereSince(trace, steps, at[n], j + 1, trace[j].memory.keys[n])
  {
    StillThere(trace, steps, at[n], j, trace[j].memory.keys[n]);
  }

  ghost predicate StayedFor(trace: seq<Cache>, steps: seq<Step>, j: nat, keys: seq<string>, at: seq<nat>) {
    |at| == |keys| && forall n | 0 <= n < |at| :: at[n] < j && ThereSince(trace, steps, at[n], j + 1, keys[n])
  }

  /** What stays of the list when the first of it goes, if it does. */
  lemma RestCameIn(trace: seq<Cache>, steps: seq<Step>, j: nat, at: seq<nat>) returns (rest: seq<nat>)
    requires IsRun(trace, steps) && j < |steps| && trace[j].memory.Valid() && CameIn(trace, steps, j, at)
    ensures Increasing(rest) && StayedFor(trace, steps, j, Room(trace[j]), rest)
  {
    if Full(trace[j]) {
      rest := at[1..];
      forall n | 0 <= n < |rest| ensures ThereSince(trace, steps, rest[n], j + 1, Room(trace[j])[n]) {
        RestStays(trace, steps, j, at, n + 1);
      }
    } else {
      rest := at;
      forall n | 0 <= n < |rest| ensures ThereSince(trace, steps, rest[n], j + 1, Room(trace[j])[n]) {
        RestStays(trace, steps, j, at, n);
      }
    }
  }

  lemma OneMore(trace: seq<Cache>, steps: seq<Step>, i: nat, keys: seq<string>, at: seq<nat>, j: nat, key: string)
    requires i == j + 1 && i < |trace| && trace[i].memory.keys == keys + [key]
    requires Increasing(at) && StayedFor(trace, steps, j, keys, at) && ThereSince(trace, steps, j, i, key)
    ensures CameIn(trace, steps, i, at + [j])
  {
  }

  lemma CameInAfterPut(trace: seq<Cache>, steps: seq<Step>, j: nat, at: seq<nat>, key: string) returns (next: seq<nat>)
    requires IsRun(trace, steps) && j < |steps| && trace[j].memory.Valid() && CameIn(trace, steps, j, at)
    requires PutKey(trace[j], steps[j]) == Some(key)
    ensures CameIn(trace, steps, j + 1, next)
  {
    KeysAfterPut(trace[j], steps[j], key);
    next := RestCameIn(trace, steps, j, at);
    if Absent(trace[j], key) {
      JustCame(trace, steps, j, key);
      OneMore(trace, steps, j + 1, Room(trace[j]), next, j, key);
      next := next + [j];
    }
  }

  /** Over every run, memory lists its entries in the order they came in. */
  lemma {:induction false} KeysInOrder(trace: seq<Cache>, steps: seq<Step>, i: nat) returns (at: seq<nat>)
    requires FromEmpty(trace, steps) && i < |trace|
    ensures CameIn(trace, steps, i, at)
  {
    if i == 0 {
      at := [];
    } else {
      at := KeysInOrder(trace, steps, i - 1);
      MemoryValid(trace, steps, i - 1);
      if PutKey(trace[i - 1], steps[i - 1]).Some? {
        at := CameInAfterPut(trace, steps, i - 1, at, PutKey(trace[i - 1], steps[i - 1]).value);
      } else {
        KeysStay(trace[i - 1], steps[i - 1]);
        forall n | 0 <= n < |at| ensures ThereSince(trace, steps, at[n], i, trace[i - 1].memory.keys[n]) {
          RestStays(trace, steps, i - 1, at, n);
        }
      }
    }
  }

  // ---- which one goes ---------------------------------------------------------------------------------------

  lemma OneEntry(trace: seq<Cache>, steps: seq<Step>, x: nat, y: nat, i: nat, key: string)
    requires ThereSince(trace, steps, x, i, key) && ThereSince(trace, steps, y, i, key)
    ensures x == y
  {
  }

  /** What is evicted came in before everything else that is there: nothing else is older. */
  lemma EvictedIsOldest(trace: seq<Cache>, steps: seq<Step>, x: nat, key: string, e: nat, other: string, f: nat)
    requires FromEmpty(trace, steps) && EvictedAt(trace, steps, x, key) && other != key && other in trace[x].memory.at
    requires ThereSince(trace, steps, e, x, key) && ThereSince(trace, steps, f, x, other)
    ensures e < f
  {
    var at := KeysInOrder(trace, steps, x);
    MemoryValid(trace, steps, x);
    var n := IndexOf(trace[x].memory.keys, other);
    OneEntry(trace, steps, e, at[0], x, key);
    OneEntry(trace, steps, f, at[n], x, other);
  }
}
