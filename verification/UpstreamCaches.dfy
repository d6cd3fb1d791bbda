/**
 * The shared memory of parents' answers (src/upstream-cache.ts:53-127), and the
 * reads that go through it (src/state-manager.ts:72-84).
 */
module UpstreamCaches {
  import opened Options
  import opened Ordered
  import opened Texts

  // ---- keys -----------------------------------------------------------------------------------

  /** What is asked of a parent. */
  datatype Ask = Ask(block: string, kind: string, address: string, slot: Option<string>)
  {
    /** No part holds the separator. */
    predicate Separable() {
      '|' !in block && '|' !in kind && '|' !in address && (slot.Some? ==> '|' !in slot.value)
    }

    /** The same question with its text in lower case; an empty slot is no slot. */
    function Normal(): Ask {
      Ask(block, kind, Lower(address), if slot == None || slot == Some("") then None else Some(Lower(slot.value)))
    }
  }

  /** `UpstreamCache.key`. */
  function Key(chain: string, a: Ask): string {
    chain + "|" + a.block + "|" + a.kind + "|" + Lower(a.address)
    + if a.slot == None || a.slot == Some("") then "" else "|" + Lower(a.slot.value)
  }

  function UpToBar(s: string): string {
    if s == "" || s[0] == '|' then "" else [s[0]] + UpToBar(s[1..])
  }

  lemma {:induction false} UpToBarIs(a: string, rest: string)
    requires '|' !in a && (rest == "" || rest[0] == '|')
    ensures UpToBar(a + rest) == a
  {
    if a == "" {
      assert a + rest == rest;
    } else {
      assert a[0] in a;
      assert (a + rest)[1..] == a[1..] + rest;
      UpToBarIs(a[1..], rest);
    }
  }

  /** Text up to a separator, or to the end, is read off one way only. */
  lemma FirstPart(a: string, x: string, b: string, y: string)
    requires '|' !in a && '|' !in b && (x == "" || x[0] == '|') && (y == "" || y[0] == '|')
    requires a + x == b + y
    ensures a == b && x == y
  {
    UpToBarIs(a, x);
    UpToBarIs(b, y);
    assert (a + x)[|a|..] == x && (b + y)[|b|..] == y;
  }

  function SlotPart(a: Ask): string {
    if a.slot == None || a.slot == Some("") then "" else "|" + Lower(a.slot.value)
  }

  function Tail(a: Ask): string {
    Lower(a.address) + SlotPart(a)
  }

  lemma TailInjective(a: Ask, b: Ask)
    requires a.Separable() && b.Separable() && Tail(a) == Tail(b)
    ensures Lower(a.address) == Lower(b.address) && a.Normal().slot == b.Normal().slot
  {
    FirstPart(Lower(a.address), SlotPart(a), Lower(b.address), SlotPart(b));
    if SlotPart(a) != "" {
      assert SlotPart(a)[1..] == Lower(a.slot.value) && SlotPart(b)[1..] == Lower(b.slot.value);
    }
  }

  lemma SameKeySameParts(chain: string, a: Ask, chain1: string, b: Ask)
    requires '|' !in chain && '|' !in chain1 && a.Separable() && b.Separable() && Key(chain, a) == Key(chain1, b)
    ensures chain == chain1 && a.Normal() == b.Normal()
  {
    KeyParts(chain, a);
    KeyParts(chain1, b);
    var x, y := "|" + (a.kind + ("|" + Tail(a))), "|" + (b.kind + ("|" + Tail(b)));
    FirstPart(chain, "|" + (a.block + x), chain1, "|" + (b.block + y));
    assert ("|" + (a.block + x))[1..] == a.block + x && ("|" + (b.block + y))[1..] == b.block + y;
    FirstPart(a.block, x, b.block, y);
    assert x[1..] == a.kind + ("|" + Tail(a)) && y[1..] == b.kind + ("|" + Tail(b));
    FirstPart(a.kind, "|" + Tail(a), b.kind, "|" + Tail(b));
    assert ("|" + Tail(a))[1..] == Tail(a) && ("|" + Tail(b))[1..] == Tail(b);
    TailInjective(a, b);
  }

  lemma SamePartsSameKey(chain: string, a: Ask, b: Ask)
    requires a.Normal() == b.Normal()
    ensures Key(chain, a) == Key(chain, b)
  {
    KeyParts(chain, a);
    KeyParts(chain, b);
    assert Tail(a) == Tail(b);
  }

  /** Two questions share a key exactly when they differ in nothing but case. */
  lemma KeysInjective(chain: string, a: Ask, chain1: string, b: Ask)
    requires '|' !in chain && '|' !in chain1 && a.Separable() && b.Separable()
    ensures Key(chain, a) == Key(chain1, b) <==> chain == chain1 && a.Normal() == b.Normal()
  {
    if Key(chain, a) == Key(chain1, b) {
      SameKeySameParts(chain, a, chain1, b);
    }
    if a.Normal() == b.Normal() {
      SamePartsSameKey(chain, a, b);
    }
  }

  lemma KeyParts(chain: string, a: Ask)
    ensures Key(chain, a) == chain + ("|" + (a.block + ("|" + (a.kind + ("|" + Tail(a))))))
  {
    assert Key(chain, a) == chain + "|" + a.block + "|" + a.kind + "|" + Tail(a);
  }

  // ---- the cache --------------------------------------------------------------------------------

  const FLUSH_AT := 64

  type Rows = map<string, string>

  /** `flight` is the batch being written, `stored` the backend's rows if there is one. */
  datatype Cache = Cache(maxMemory: int, memory: OMap<string, string>, pending: Rows, flight: Option<Rows>, stored: Option<Rows>)
  {
    /** What `get` finds without asking the backend. */
    function Hot(key: string): Option<string> {
      if key in memory.at then Some(memory.at[key]) else Lookup(pending, key)
    }

    /** `remember`: the oldest entry makes room. */
    function Remember(key: string, value: string): Cache {
      var kept := if |memory.keys| >= maxMemory && memory.keys != [] then memory.Delete(memory.keys[0]) else memory;
      this.(memory := kept.Set(key, value))
    }
  }

  datatype Step =
    | Look(key: string)                 // `get`, up to the backend
    | Answer(key: string)               // `get`, when the backend has answered
    | Set(key: string, value: string)
    | Begin                             // a flush takes what is buffered
    | End(ok: bool)                     // the backend took the batch, or threw

  predicate Can(c: Cache, step: Step) {
    match step
    case Answer(_) => c.stored.Some?
    case Begin => c.stored.Some? && c.flight.None?
    case End(_) => c.stored.Some? && c.flight.Some?
    case _ => true
  }

  function Next(c: Cache, step: Step): Cache
    requires Can(c, step)
  {
    match step
    case Look(_) => c
    case Answer(key) => if key in c.stored.value then c.Remember(key, c.stored.value[key]) else c
    case Set(key, value) =>
      var c1 := c.Remember(key, value);
      if c.stored.None? then c1 else c1.(pending := c.pending[key := value])
    case Begin => c.(pending := map[], flight := Some(c.pending))
    case End(ok) => c.(flight := None, stored := if ok then Some(c.stored.value + c.flight.value) else c.stored)
  }

  /** What a step tells whoever asked. */
  function Told(c: Cache, step: Step): Option<string>
    requires Can(c, step)
  {
    match step
    case Look(key) => c.Hot(key)
    case Answer(key) => Lookup(c.stored.value, key)
    case _ => None
  }

  /** The parents: the host a provider's address names, and what that provider answers. */
  datatype World = World(host: string -> string, parent: (string, Ask) -> string)
  {
    /** One chain per host, and answers that do not turn on the case of an address or slot. */
    ghost predicate OneChainPerHost() {
      && (forall url :: '|' !in host(url))
      && (forall u, v, a: Ask, b: Ask | host(u) == host(v) && a.Separable() && b.Separable() && a.Normal() == b.Normal() ::
            parent(u, a) == parent(v, b))
    }

    ghost predicate Right(key: string, value: string) {
      forall url, a: Ask | a.Separable() && Key(host(url), a) == key :: value == parent(url, a)
    }

    ghost predicate AllRight(rows: Rows) {
      forall key | key in rows :: Right(key, rows[key])
    }
  }

  ghost predicate Inv(w: World, c: Cache) {
    && c.memory.Valid() && w.AllRight(c.memory.at) && w.AllRight(c.pending)
    && (c.flight.Some? ==> w.AllRight(c.flight.value)) && (c.stored.Some? ==> w.AllRight(c.stored.value))
  }

  lemma SetIsValid(m: OMap<string, string>, key: string, value: string)
    requires m.Valid()
    ensures m.Set(key, value).Valid() && |m.Set(key, value).keys| <= |m.keys| + 1
  {
    if key !in m.at {
      SetNew(m, key, value);
    }
  }

  /** Remembering keeps the memory within its bound, and every other entry it keeps is one it had. */
  lemma RememberKeeps(w: World, c: Cache, key: string, value: string)
    requires Inv(w, c) && w.Right(key, value)
    ensures Inv(w, c.Remember(key, value))
    ensures c.maxMemory >= 1 && |c.memory.keys| <= c.maxMemory ==> |c.Remember(key, value).memory.keys| <= c.maxMemory
    ensures c.Remember(key, value).Hot(key) == Some(value)
  {
    if |c.memory.keys| >= c.maxMemory && c.memory.keys != [] {
      DeleteAt(c.memory, 0);
      SetIsValid(c.memory.Delete(c.memory.keys[0]), key, value);
    } else {
      SetIsValid(c.memory, key, value);
    }
  }

  lemma InvKept(w: World, c: Cache, step: Step)
    requires Inv(w, c) && Can(c, step)
    requires step.Set? ==> w.Right(step.key, step.value)
    ensures Inv(w, Next(c, step))
    ensures c.maxMemory >= 1 && |c.memory.keys| <= c.maxMemory ==> |Next(c, step).memory.keys| <= c.maxMemory
    ensures Next(c, step).maxMemory == c.maxMemory
  {
    match step
    case Answer(key) =>
      if key in c.stored.value {
        RememberKeeps(w, c, key, c.stored.value[key]);
      }
    case Set(key, value) => RememberKeeps(w, c, key, value);
    case _ =>
  }

  ghost predicate IsRun(trace: seq<Cache>, steps: seq<Step>) {
    && |trace| == |steps| + 1
    && forall i | 0 <= i < |steps| :: Can(trace[i], steps[i]) && trace[i + 1] == Next(trace[i], steps[i])
  }

  /** Everything put in the cache is what some provider answered for that key. */
  ghost predicate Fetched(w: World, steps: seq<Step>) {
    forall i | 0 <= i < |steps| && steps[i].Set? :: FromParent(w, steps[i].key, steps[i].value)
  }

  ghost predicate FromParent(w: World, key: string, value: string) {
    exists url, a: Ask :: a.Separable() && key == Key(w.host(url), a) && value == w.parent(url, a)
  }

  lemma FetchedIsRight(w: World, key: string, value: string)
    requires w.OneChainPerHost() && FromParent(w, key, value)
    ensures w.Right(key, value)
  {
    var url, a: Ask :| a.Separable() && key == Key(w.host(url), a) && value == w.parent(url, a);
    forall url1, b: Ask | b.Separable() && Key(w.host(url1), b) == key ensures value == w.parent(url1, b) {
      KeysInjective(w.host(url), a, w.host(url1), b);
    }
  }

  lemma {:induction false} InvHolds(w: World, trace: seq<Cache>, steps: seq<Step>, i: nat)
    requires w.OneChainPerHost() && IsRun(trace, steps) && Fetched(w, steps) && Inv(w, trace[0]) && i < |trace|
    ensures Inv(w, trace[i])
    ensures 1 <= trace[0].maxMemory && |trace[0].memory.keys| <= trace[0].maxMemory ==>
              |trace[i].memory.keys| <= trace[i].maxMemory
    ensures trace[i].maxMemory == trace[0].maxMemory
  {
    if i > 0 {
      InvHolds(w, trace, steps, i - 1);
      if steps[i - 1].Set? {
        FetchedIsRight(w, steps[i - 1].key, steps[i - 1].value);
      }
      InvKept(w, trace[i - 1], steps[i - 1]);
    }
  }

  /**
   * Over any interleaving of looks, sets, evictions and flushes that end well or badly, every hit is
   * what the asker's own provider answers, and the memory stays within its bound.
   */
  lemma CacheIsTransparent(w: World, trace: seq<Cache>, steps: seq<Step>, i: nat, url: string, a: Ask)
    requires w.OneChainPerHost() && IsRun(trace, steps) && Fetched(w, steps) && Inv(w, trace[0]) && i < |steps|
    requires (steps[i].Look? || steps[i].Answer?) && a.Separable() && steps[i].key == Key(w.host(url), a)
    ensures Told(trace[i], steps[i]).Some? ==> Told(trace[i], steps[i]).value == w.parent(url, a)
    ensures 1 <= trace[0].maxMemory && |trace[0].memory.keys| <= trace[0].maxMemory ==>
              |trace[i].memory.keys| <= trace[0].maxMemory
  {
    InvHolds(w, trace, steps, i);
  }

  // ---- exactly when -------------------------------------------------------------------------------

  /** Any two questions with one key get one answer. */
  ghost predicate AgreeOnKeys(w: World) {
    forall u, v, a: Ask, b: Ask | a.Separable() && b.Separable() && Key(w.host(u), a) == Key(w.host(v), b) ::
      w.parent(u, a) == w.parent(v, b)
  }

  ghost predicate PlainHosts(w: World) {
    forall url :: '|' !in w.host(url)
  }

  /** On plain hosts that is one chain for each host, and answers that do not turn on letter case. */
  lemma AgreeIff(w: World)
    requires PlainHosts(w)
    ensures AgreeOnKeys(w) <==> w.OneChainPerHost()
  {
    forall u, v, a: Ask, b: Ask | a.Separable() && b.Separable()
      ensures Key(w.host(u), a) == Key(w.host(v), b) <==> w.host(u) == w.host(v) && a.Normal() == b.Normal()
    {
      KeysInjective(w.host(u), a, w.host(v), b);
    }
  }

  predicate IsEmpty(c: Cache) {
    c.memory == OMap([], map[]) && c.pending == map[] && c.flight == None && (c.stored == None || c.stored == Some(map[]))
  }

  /** What step `i` tells someone who asks their provider `a` is what that provider answers. */
  ghost predicate ToldRight(w: World, c: Cache, step: Step, url: string, a: Ask)
    requires Can(c, step)
  {
    (step.Look? || step.Answer?) && a.Separable() && step.key == Key(w.host(url), a) && Told(c, step).Some? ==>
      Told(c, step).value == w.parent(url, a)
  }

  /** Every hit of every run from here is right, whoever asks. */
  ghost predicate AlwaysRight(w: World, start: Cache) {
    forall trace: seq<Cache>, steps: seq<Step>, i: nat, url: string, a: Ask
      | IsRun(trace, steps) && trace[0] == start && Fetched(w, steps) && i < |steps| ::
      ToldRight(w, trace[i], steps[i], url, a)
  }

  /** One question stored, and another of the same key looked up. */
  lemma SecondIsToldFirst(w: World, start: Cache, u: string, a: Ask, v: string, b: Ask)
    requires AlwaysRight(w, start) && a.Separable() && b.Separable() && Key(w.host(u), a) == Key(w.host(v), b)
    ensures w.parent(u, a) == w.parent(v, b)
  {
    var key, value := Key(w.host(u), a), w.parent(u, a);
    var after := Next(start, Set(key, value));
    var trace, steps := [start, after, after], [Set(key, value), Look(key)];
    assert FromParent(w, key, value);
    assert IsRun(trace, steps) && Fetched(w, steps);
    assert ToldRight(w, trace[1], steps[1], v, b);
    assert after.Hot(key) == Some(value);
  }

  /**
   * Exactly when the cache is transparent: from empty, with a backend or without and whatever its bound,
   * every hit of every run is what the asker's own provider answers if and only if any two questions
   * with one key get one answer.
   */
  lemma TransparentIff(w: World, start: Cache)
    requires PlainHosts(w) && IsEmpty(start)
    ensures AlwaysRight(w, start) <==> AgreeOnKeys(w)
  {
    AgreeIff(w);
    if AgreeOnKeys(w) {
      forall trace: seq<Cache>, steps: seq<Step>, i: nat, url: string, a: Ask
        | IsRun(trace, steps) && trace[0] == start && Fetched(w, steps) && i < |steps|
        ensures ToldRight(w, trace[i], steps[i], url, a)
      {
        InvHolds(w, trace, steps, i);
      }
    }
    if AlwaysRight(w, start) {
      forall u, v, a: Ask, b: Ask | a.Separable() && b.Separable() && Key(w.host(u), a) == Key(w.host(v), b)
        ensures w.parent(u, a) == w.parent(v, b)
      {
        SecondIsToldFirst(w, start, u, a, v, b);
      }
    }
  }

  /** Two providers on one host that answer differently: the second is told what the first said. */
  lemma SharedHostIsToldWrong(w: World, c: Cache, u: string, v: string, a: Ask)
    requires w.host(u) == w.host(v) && w.parent(u, a) != w.parent(v, a)
    ensures var after := Next(c, Set(Key(w.host(u), a), w.parent(u, a)));
            Told(after, Look(Key(w.host(v), a))) == Some(w.parent(u, a)) != Some(w.parent(v, a))
  {}

  // ---- the class ----------------------------------------------------------------------------------

  class UpstreamCache {
    const maxMemory: int
    var memory: OMap<string, string>
    var pending: Rows
    var flushing: Option<Rows>
    /** The backend's rows, if there is a backend. */
    var backend: Option<Rows>
    var hits: nat
    var misses: nat
    var writes: nat

    ghost function View(): Cache
      reads this
    {
      Cache(maxMemory, memory, pending, flushing, backend)
    }

    constructor (backend: Option<Rows>, maxMemory: int)
      ensures View() == Cache(maxMemory, OMap([], map[]), map[], None, backend)
      ensures hits == 0 && misses == 0 && writes == 0
    {
      this.maxMemory, this.backend := maxMemory, backend;
      memory, pending, flushing := OMap([], map[]), map[], None;
      hits, misses, writes := 0, 0, 0;
    }

    method Remember(key: string, value: string)
      modifies this`memory
      ensures View() == old(View()).Remember(key, value)
    {
      if |memory.keys| >= maxMemory && memory.keys != [] {
        memory := memory.Delete(memory.keys[0]);
      }
      memory := memory.Set(key, value);
    }

    /** `get`, with the backend's answer taken as it stands when it is asked. */
    method Get(key: string) returns (value: Option<string>)
      modifies this`memory, this`hits, this`misses
      ensures var hot := old(View()).Hot(key);
              if hot.Some? || backend.None? then value == hot && View() == old(View())
              else value == Told(old(View()), Answer(key)) && View() == Next(old(View()), Answer(key))
      ensures hits + misses == old(hits + misses) + 1 && (hits > old(hits) <==> value.Some?)
    {
      value := if key in memory.at then Some(memory.at[key]) else Lookup(pending, key);
      if value.Some? {
        hits := hits + 1;
        return;
      }
      if backend.Some? && key in backend.value {
        hits := hits + 1;
        Remember(key, backend.value[key]);
        return Some(backend.value[key]);
      }
      misses := misses + 1;
    }

    /** `set`: says whether enough has piled up to flush at once. */
    method Set(key: string, value: string) returns (due: bool)
      modifies this`memory, this`pending, this`writes
      ensures View() == Next(old(View()), Step.Set(key, value)) && writes == old(writes) + 1
      ensures due <==> backend.Some? && |pending| >= 64
    {
      writes := writes + 1;
      Remember(key, value);
      if backend.None? {
        return false;
      }
      pending := pending[key := value];
      return |pending| >= FLUSH_AT;
    }

    method BeginFlush()
      requires Can(View(), Begin)
      modifies this`pending, this`flushing
      ensures View() == Next(old(View()), Begin)
    {
      flushing := Some(pending);
      pending := map[];
    }

    method EndFlush(ok: bool)
      requires Can(View(), End(ok))
      modifies this`flushing, this`backend
      ensures View() == Next(old(View()), End(ok))
    {
      if ok {
        backend := Some(backend.value + flushing.value);
      }
      flushing := None;
    }

    /** `cached` of the state manager: a read through the cache is a direct read of the provider. */
    method ReadThrough(ghost w: World, ask: (string, Ask) -> string, host: string -> string, url: string, a: Ask)
      returns (value: string)
      requires w == World(host, ask) && w.OneChainPerHost() && a.Separable() && Inv(w, View())
      modifies this
      ensures Inv(w, View()) && value == w.parent(url, a)
    {
      var key := Key(host(url), a);
      var hit := Get(key);
      InvKept(w, old(View()), Look(key));
      if backend.Some? {
        InvKept(w, old(View()), Answer(key));
      }
      if hit.Some? {
        return hit.value;
      }
      value := ask(url, a);
      FetchedIsRight(w, key, value);
      InvKept(w, View(), Step.Set(key, value));
      var _ := Set(key, value);
    }
  }
}
