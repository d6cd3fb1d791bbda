/**
 * What a read answers over a run (src/environment.ts:1494-1560): the value written last, and where nothing was
 * written the parent's at the block the fork stands at, which a head sync moves.
 */
module Readings {
  import opened Options
  import opened Overlays
  import opened Chains
  import opened Environments
  import opened TimeTravel
  import opened Reverts

  /** The head is new to the fork and above every block mined here. */
  predicate Advances(s: EnvState, head: int) {
    head > s.forkBlock && head > s.chain.Height()
  }

  /** What a place reads where the fork stands at a block: the value in the overlay, or else the parent's there. */
  function ReadAt(o: Accounts, parent: Parent, block: int, p: Place): string {
    var own := Get(o, p);
    if own.Some? then own.value else parent(block, p)
  }

  // ---- a head sync --------------------------------------------------------------------------------------

  /**
   * A head sync moves every read to the head, save of places with a value in the overlay, which keep it; one
   * that does not advance changes nothing.
   */
  lemma SyncReads(s: EnvState, head: int, parent: Parent, p: Place)
    requires Normal(p)
    ensures var t := s.SyncToHead(head, parent);
            if Advances(s, head) then
              t.forkBlock == head && t.chain.forkHeight == head && t.Read(parent, p) == ReadAt(s.accounts, parent, head, p)
            else t == s
  {
    if Advances(s, head) {
      var moved := s.(chain := s.chain.AdvanceForkTo(head), forkBlock := head);
      ReapplyReads(moved, parent, p);
      SyncReapplies(s, head, parent, moved);
    }
  }

  lemma SyncReapplies(s: EnvState, head: int, parent: Parent, moved: EnvState)
    requires Advances(s, head) && moved == s.(chain := s.chain.AdvanceForkTo(head), forkBlock := head)
    ensures s.SyncToHead(head, parent) == moved.Reapply(parent)
    ensures moved.Reapply(parent).forkBlock == head && moved.Reapply(parent).chain.forkHeight == head
  {
  }

  // ---- over a run -----------------------------------------------------------------------------------------

  /** A step that neither writes the place nor puts back another state nor moves the fork. */
  ghost predicate Spares(w: World, op: Op, p: Place) {
    match op
    case WriteField(q, _) => q != p
    case WriteAccount(a, _, _) => p != Place(a, Balance) && p != Place(a, Nonce)
    case Revert(id) => id !in w.env.snapshots
    case SyncToHead(head) => !Advances(w.env, head)
    case _ => true
  }

  /** The same fork, and the same answer for the place. */
  ghost predicate SameRead(s: EnvState, t: EnvState, parent: Parent, p: Place) {
    t.forkBlock == s.forkBlock && t.Read(parent, p) == s.Read(parent, p)
  }

  lemma RecordedRead(s: EnvState, q: Place, v: string, parent: Parent, p: Place)
    ensures var t := s.Record(q, v);
            t.forkBlock == s.forkBlock && t.Read(parent, p) == if p == q then v else s.Read(parent, p)
  {
    PutGet(s.accounts, q, v, p);
  }

  lemma AccountRead(s: EnvState, a: string, balance: string, nonce: string, parent: Parent, p: Place)
    ensures var t := s.WriteAccount(a, balance, nonce);
            t.forkBlock == s.forkBlock
            && t.Read(parent, p) == if p == Place(a, Balance) then balance else if p == Place(a, Nonce) then nonce else s.Read(parent, p)
  {
    RecordedRead(s, Place(a, Balance), balance, parent, p);
    RecordedRead(s.Record(Place(a, Balance), balance), Place(a, Nonce), nonce, parent, p);
  }

  lemma RestartRead(s: EnvState, parent: Parent, p: Place)
    requires s.chain.txs.Valid() && Clean(s.accounts) && Paired(s.accounts) && Normal(p)
    ensures SameRead(s, s.Restart(parent), parent, p)
  {
    RestoredKeepsFields(s.accounts, parent, s.forkBlock);
    assert Get(s.Restart(parent).accounts, p) == Get(s.accounts, p);
  }

  lemma StepReads(w: World, op: Op, parent: Parent, p: Place)
    requires Inv(w) && Normal(p) && Spares(w, op, p)
    ensures SameRead(w.env, Step(w, op, parent).env, parent, p)
  {
    match op
    case WriteField(q, v) => RecordedRead(w.env, q, v, parent, p);
    case WriteAccount(a, balance, nonce) => AccountRead(w.env, a, balance, nonce, parent, p);
    case Restart => RestartRead(w.env, parent, p);
    case SyncToHead(head) => SyncReads(w.env, head, parent, p);
    case _ =>
  }

  ghost predicate SparedAt(trace: seq<World>, parent: Parent, x: nat, p: Place) {
    x + 1 < |trace| && SameRead(trace[x].env, trace[x + 1].env, parent, p)
  }

  lemma {:induction false} SparedChain(trace: seq<World>, parent: Parent, i: nat, k: nat, p: Place)
    requires i <= k < |trace| && forall x | i <= x < k :: SparedAt(trace, parent, x, p)
    ensures SameRead(trace[i].env, trace[k].env, parent, p)
    decreases k
  {
    if i < k {
      SparedChain(trace, parent, i, k - 1, p);
      assert SparedAt(trace, parent, k - 1, p);
    }
  }

  lemma StepSpares(trace: seq<World>, ops: seq<Op>, parent: Parent, x: nat, p: Place)
    requires IsRun(trace, ops, parent) && x < |ops| && Inv(trace[x]) && Normal(p) && Spares(trace[x], ops[x], p)
    ensures SparedAt(trace, parent, x, p)
  {
    StepReads(trace[x], ops[x], parent, p);
  }

  /** A place nothing touches reads the same from one step of a run to another. */
  lemma ReadStays(forkBlock: nat, trace: seq<World>, ops: seq<Op>, parent: Parent, i: nat, k: nat, p: Place)
    requires IsRun(trace, ops, parent) && trace[0] == Initial(forkBlock) && i <= k < |trace| && Normal(p)
    requires forall x | i <= x < k :: Spares(trace[x], ops[x], p)
    ensures SameRead(trace[i].env, trace[k].env, parent, p)
  {
    InitialGood(forkBlock);
    forall x | i <= x < k ensures SparedAt(trace, parent, x, p) {
      RunKeeps(trace, ops, parent, x);
      StepSpares(trace, ops, parent, x, p);
    }
    SparedChain(trace, parent, i, k, p);
  }

  /**
   * After a head sync that advanced, and until the place is written, a snapshot is put back or the fork moves
   * again: the place reads its value in the overlay of before the sync if it had one, else the parent's at the
   * head, through blocks, snapshots and restarts.
   */
  lemma SyncIsRead(forkBlock: nat, trace: seq<World>, ops: seq<Op>, parent: Parent, i: nat, k: nat, head: int, p: Place)
    requires IsRun(trace, ops, parent) && trace[0] == Initial(forkBlock) && i < k < |trace| && Normal(p)
    requires ops[i] == SyncToHead(head) && Advances(trace[i].env, head)
    requires forall x | i < x < k :: Spares(trace[x], ops[x], p)
    ensures trace[k].env.forkBlock == head
    ensures trace[k].env.Read(parent, p) == ReadAt(trace[i].env.accounts, parent, head, p)
  {
    ReadStays(forkBlock, trace, ops, parent, i + 1, k, p);
    SyncReads(trace[i].env, head, parent, p);
    StepIs(trace, ops, parent, i);
  }

  lemma StepIs(trace: seq<World>, ops: seq<Op>, parent: Parent, i: nat)
    requires IsRun(trace, ops, parent) && i < |ops|
    ensures trace[i].env.chain.txs.Valid() && trace[i + 1] == Step(trace[i], ops[i], parent)
  {
  }

  // ---- what was written ---------------------------------------------------------------------------------

  /** A step that does not write the place or put back another state; a head sync may move the fork. */
  ghost predicate KeepsWrite(w: World, op: Op, p: Place) {
    op.SyncToHead? || Spares(w, op, p)
  }

  lemma SyncKeepsValue(s: EnvState, head: int, parent: Parent, p: Place)
    requires Normal(p) && Get(s.accounts, p).Some?
    ensures Get(s.SyncToHead(head, parent).accounts, p) == Get(s.accounts, p)
  {
  }

  lemma StepKeepsValue(w: World, op: Op, parent: Parent, p: Place)
    requires Inv(w) && Normal(p) && Get(w.env.accounts, p).Some? && KeepsWrite(w, op, p)
    ensures Get(Step(w, op, parent).env.accounts, p) == Get(w.env.accounts, p)
  {
    match op
    case WriteField(q, v) => PutGet(w.env.accounts, q, v, p);
    case WriteAccount(a, balance, nonce) =>
      PutGet(w.env.accounts, Place(a, Balance), balance, p);
      PutGet(Put(w.env.accounts, Place(a, Balance), balance), Place(a, Nonce), nonce, p);
    case Restart => RestoredKeepsFields(w.env.accounts, parent, w.env.forkBlock);
    case SyncToHead(head) => SyncKeepsValue(w.env, head, parent, p);
    case _ =>
  }

  ghost predicate KeptAt(trace: seq<World>, x: nat, p: Place) {
    && x + 1 < |trace|
    && (Get(trace[x].env.accounts, p).Some? ==> Get(trace[x + 1].env.accounts, p) == Get(trace[x].env.accounts, p))
  }

  lemma {:induction false} KeptChain(trace: seq<World>, i: nat, k: nat, p: Place)
    requires i <= k < |trace| && Get(trace[i].env.accounts, p).Some? && forall x | i <= x < k :: KeptAt(trace, x, p)
    ensures Get(trace[k].env.accounts, p) == Get(trace[i].env.accounts, p)
    decreases k
  {
    if i < k {
      KeptChain(trace, i, k - 1, p);
      assert KeptAt(trace, k - 1, p);
    }
  }

  lemma StepKept(trace: seq<World>, ops: seq<Op>, parent: Parent, x: nat, p: Place)
    requires IsRun(trace, ops, parent) && x < |ops| && Inv(trace[x]) && Normal(p) && KeepsWrite(trace[x], ops[x], p)
    ensures KeptAt(trace, x, p)
  {
    if Get(trace[x].env.accounts, p).Some? {
      StepIs(trace, ops, parent, x);
      StepKeepsValue(trace[x], ops[x], parent, p);
    }
  }

  lemma ValueStays(forkBlock: nat, trace: seq<World>, ops: seq<Op>, parent: Parent, i: nat, k: nat, p: Place)
    requires IsRun(trace, ops, parent) && trace[0] == Initial(forkBlock) && i <= k < |trace| && Normal(p)
    requires Get(trace[i].env.accounts, p).Some? && forall x | i <= x < k :: KeepsWrite(trace[x], ops[x], p)
    ensures Get(trace[k].env.accounts, p) == Get(trace[i].env.accounts, p)
  {
    InitialGood(forkBlock);
    forall x | i <= x < k ensures KeptAt(trace, x, p) {
      RunKeeps(trace, ops, parent, x);
      StepKept(trace, ops, parent, x, p);
    }
    KeptChain(trace, i, k, p);
  }

  lemma WriteStores(w: World, op: Op, parent: Parent, p: Place)
    requires w.env.chain.txs.Valid()
    ensures forall v :: op == WriteField(p, v) ==> Get(Step(w, op, parent).env.accounts, p) == Some(v)
    ensures forall v, n :: op == WriteAccount(p.address, v, n) && p.field == Balance ==> Get(Step(w, op, parent).env.accounts, p) == Some(v)
    ensures forall v, n :: op == WriteAccount(p.address, v, n) && p.field == Nonce ==> Get(Step(w, op, parent).env.accounts, p) == Some(n)
  {
    match op
    case WriteField(q, v) => PutGet(w.env.accounts, q, v, p);
    case WriteAccount(a, balance, nonce) =>
      PutGet(w.env.accounts, Place(a, Balance), balance, p);
      PutGet(Put(w.env.accounts, Place(a, Balance), balance), Place(a, Nonce), nonce, p);
    case _ =>
  }

  /**
   * What was written reads back as it was written, through head syncs, blocks, snapshots and restarts, until
   * something else is written there or a snapshot is put back.
   */
  lemma WriteIsRead(forkBlock: nat, trace: seq<World>, ops: seq<Op>, parent: Parent, i: nat, k: nat, p: Place)
    requires IsRun(trace, ops, parent) && trace[0] == Initial(forkBlock) && i < k < |trace| && Normal(p)
    requires forall x | i < x < k :: KeepsWrite(trace[x], ops[x], p)
    ensures forall v :: ops[i] == WriteField(p, v) ==> trace[k].env.Read(parent, p) == v
    ensures forall v, n :: ops[i] == WriteAccount(p.address, v, n) && p.field == Balance ==> trace[k].env.Read(parent, p) == v
    ensures forall v, n :: ops[i] == WriteAccount(p.address, v, n) && p.field == Nonce ==> trace[k].env.Read(parent, p) == n
  {
    StepIs(trace, ops, parent, i);
    WriteStores(trace[i], ops[i], parent, p);
    if Get(trace[i + 1].env.accounts, p).Some? {
      ValueStays(forkBlock, trace, ops, parent, i + 1, k, p);
    }
  }

  /** And a place nothing has touched reads through to the parent at the fork block. */
  lemma UntouchedReadsThrough(forkBlock: nat, trace: seq<World>, ops: seq<Op>, parent: Parent, k: nat, p: Place)
    requires IsRun(trace, ops, parent) && trace[0] == Initial(forkBlock) && k < |trace| && Normal(p)
    requires forall x | 0 <= x < k :: Spares(trace[x], ops[x], p)
    ensures trace[k].env.Read(parent, p) == parent(forkBlock, p)
  {
    ReadStays(forkBlock, trace, ops, parent, 0, k, p);
  }
}
