/**
 * The clock and the headers of the blocks (src/environment.ts:1254-1322, 1358-1364): over every run, time never
 * goes back from a block to the next and each block names the one before it, whatever was reverted in between.
 */
module Clocks {
  import opened Options
  import opened Overlays
  import opened Chains
  import opened Environments
  import opened TimeTravel
  import opened Reverts

  /** The time of a block mined now: the offset clock, but never before the last block. */
  function BlockTime(s: EnvState, now: int): int {
    var time, blocks := now + s.timeOffset, s.chain.blocks;
    Max(time, if blocks == [] then 0 else blocks[|blocks| - 1].timestamp)
  }

  /** What a block is mined with: the time it is, and the hash of the last block if there is one. */
  predicate Headed(s: EnvState, op: Op, now: int) {
    op.Mine? ==>
      && op.timestamp == BlockTime(s, now)
      && (s.chain.blocks != [] ==> op.parentHash == s.chain.blocks[|s.chain.blocks| - 1].hash)
  }

  /** Time does not go back along the blocks, and each names the one before it. */
  ghost predicate Chained(blocks: seq<Block>) {
    forall i | 0 < i < |blocks| :: blocks[i - 1].timestamp <= blocks[i].timestamp && blocks[i].parentHash == blocks[i - 1].hash
  }

  // ---- what a step does to the blocks -----------------------------------------------------------------------

  lemma SameBlocks(s: EnvState, op: Op, parent: Parent)
    requires s.chain.txs.Valid() && !op.Mine? && !op.Revert?
    ensures Step(World(s, map[], map[]), op, parent).env.chain.blocks == s.chain.blocks
  {
    match op
    case SyncToHead(head) =>
    case Restart =>
    case _ =>
  }

  lemma MinedBlocks(s: EnvState, hash: Hash, parentHash: Hash, timestamp: int, txs: seq<Tx>)
    ensures var t := s.Mine(hash, parentHash, timestamp, txs);
            && t.chain.blocks == s.chain.blocks + [s.NextBlock(hash, parentHash, timestamp, txs)]
            && t.blockNumber == |t.chain.blocks| && t.snapshots == s.snapshots && t.timeOffset == s.timeOffset
  {
    var block := s.NextBlock(hash, parentHash, timestamp, txs);
    PruneKeepsBlocks(s.chain.(blocks := s.chain.blocks + [block], txs := SetAll(s.chain.txs, txs),
                              journals := s.chain.journals.Set(block.number, s.chain.pending), pending := map[]));
  }

  lemma BlocksLeft(s: EnvState, id: nat, parent: Parent, target: int)
    requires id in s.snapshots && target == s.snapshots[id].chain.forkHeight + |s.snapshots[id].chain.blocks|
    ensures s.Revert(id, parent).chain.blocks == s.chain.RollbackTo(target).blocks
  {
    RevertReapplies(s, id, s.RollBack(id), parent);
    ReapplyBlocks(s.RollBack(id), parent);
    RollBackBlocks(s, id);
  }

  lemma RevertedBlocks(s: EnvState, id: nat, parent: Parent)
    requires id in s.snapshots && s.chain.Sound()
    ensures s.Revert(id, parent).chain.blocks <= s.chain.blocks
  {
    var target := s.snapshots[id].chain.forkHeight + |s.snapshots[id].chain.blocks|;
    RollbackSound(s.chain, target);
    BlocksLeft(s, id, parent, target);
  }

  lemma EnvOfStep(w: World, op: Op, parent: Parent)
    requires w.env.chain.txs.Valid()
    ensures Step(w, op, parent).env == Step(World(w.env, map[], map[]), op, parent).env
  {
  }

  lemma ChainedOn(blocks: seq<Block>, block: Block)
    requires Chained(blocks)
    requires blocks != [] ==> blocks[|blocks| - 1].timestamp <= block.timestamp && block.parentHash == blocks[|blocks| - 1].hash
    ensures Chained(blocks + [block])
  {
  }

  lemma StepChained(w: World, op: Op, parent: Parent, now: int)
    requires w.env.chain.Sound() && w.env.chain.txs.Valid() && Headed(w.env, op, now) && Chained(w.env.chain.blocks)
    ensures Chained(Step(w, op, parent).env.chain.blocks)
  {
    match op
    case Mine(hash, parentHash, timestamp, txs) => MineChained(w, hash, parentHash, timestamp, txs, parent, now);
    case Revert(id) => RevertChained(w, id, parent);
    case _ =>
      EnvOfStep(w, op, parent);
      SameBlocks(w.env, op, parent);
  }

  lemma MineChained(w: World, hash: Hash, parentHash: Hash, timestamp: int, txs: seq<Tx>, parent: Parent, now: int)
    requires w.env.chain.txs.Valid() && Headed(w.env, Mine(hash, parentHash, timestamp, txs), now)
    requires Chained(w.env.chain.blocks)
    ensures Chained(Step(w, Mine(hash, parentHash, timestamp, txs), parent).env.chain.blocks)
  {
    HeaderFits(w.env, hash, parentHash, timestamp, txs, now);
    MinedBlocks(w.env, hash, parentHash, timestamp, txs);
    MineStep(w, hash, parentHash, timestamp, txs, parent);
  }

  lemma HeaderFits(s: EnvState, hash: Hash, parentHash: Hash, timestamp: int, txs: seq<Tx>, now: int)
    requires Headed(s, Mine(hash, parentHash, timestamp, txs), now) && Chained(s.chain.blocks)
    ensures Chained(s.chain.blocks + [s.NextBlock(hash, parentHash, timestamp, txs)])
  {
    ChainedOn(s.chain.blocks, s.NextBlock(hash, parentHash, timestamp, txs));
  }

  lemma MineStep(w: World, hash: Hash, parentHash: Hash, timestamp: int, txs: seq<Tx>, parent: Parent)
    requires w.env.chain.txs.Valid()
    ensures Step(w, Mine(hash, parentHash, timestamp, txs), parent).env == w.env.Mine(hash, parentHash, timestamp, txs)
  {
  }

  lemma RevertChained(w: World, id: nat, parent: Parent)
    requires w.env.chain.Sound() && w.env.chain.txs.Valid() && Chained(w.env.chain.blocks)
    ensures Chained(Step(w, Revert(id), parent).env.chain.blocks)
  {
    if id in w.env.snapshots {
      RevertedBlocks(w.env, id, parent);
      FrontChained(w.env.Revert(id, parent).chain.blocks, w.env.chain.blocks);
    }
    RevertStep(w, id, parent);
  }

  lemma FrontChained(front: seq<Block>, blocks: seq<Block>)
    requires front <= blocks && Chained(blocks)
    ensures Chained(front)
  {
  }

  lemma RevertStep(w: World, id: nat, parent: Parent)
    requires w.env.chain.txs.Valid()
    ensures Step(w, Revert(id), parent).env == if id in w.env.snapshots then w.env.Revert(id, parent) else w.env
  {
  }

  /**
   * Over every run, whatever the clock says as each block is mined, and however it was moved, snapshotted, put
   * back or lost to a restart: a block is never earlier than the one before it, and names that one's hash.
   */
  lemma {:induction false} BlocksAreChained(forkBlock: nat, trace: seq<World>, ops: seq<Op>, nows: seq<int>, parent: Parent, k: nat)
    requires IsRun(trace, ops, parent) && trace[0] == Initial(forkBlock) && k < |trace|
    requires |nows| == |ops| && forall i | 0 <= i < |ops| :: Headed(trace[i].env, ops[i], nows[i])
    ensures Chained(trace[k].env.chain.blocks)
  {
    if k > 0 {
      BlocksAreChained(forkBlock, trace, ops, nows, parent, k - 1);
      assert Headed(trace[k - 1].env, ops[k - 1], nows[k - 1]);
      ChainedAlong(forkBlock, trace, ops, parent, k - 1, nows[k - 1]);
    }
  }

  lemma ChainedAlong(forkBlock: nat, trace: seq<World>, ops: seq<Op>, parent: Parent, k: nat, now: int)
    requires IsRun(trace, ops, parent) && trace[0] == Initial(forkBlock) && k < |ops|
    requires Headed(trace[k].env, ops[k], now) && Chained(trace[k].env.chain.blocks)
    ensures Chained(trace[k + 1].env.chain.blocks)
  {
    SoundAlong(forkBlock, trace, ops, parent, k);
    StepChained(trace[k], ops[k], parent, now);
  }

  lemma SoundAlong(forkBlock: nat, trace: seq<World>, ops: seq<Op>, parent: Parent, k: nat)
    requires IsRun(trace, ops, parent) && trace[0] == Initial(forkBlock) && k < |ops|
    ensures trace[k].env.chain.Sound() && trace[k].env.chain.txs.Valid() && trace[k + 1] == Step(trace[k], ops[k], parent)
    ensures Inv(trace[k]) && Enabled(trace[k], ops[k])
  {
    InitialGood(forkBlock);
    RunKeeps(trace, ops, parent, k);
  }

  // ---- how many blocks ----------------------------------------------------------------------------------------

  /** The stored block count is right, here and in every snapshot. */
  ghost predicate Counted(s: EnvState) {
    && s.blockNumber == |s.chain.blocks|
    && forall id | id in s.snapshots :: s.snapshots[id].blockNumber == |s.snapshots[id].chain.blocks|
  }

  lemma RevertCounted(w: World, id: nat, parent: Parent)
    requires Inv(w) && Enabled(w, Revert(id)) && id in w.env.snapshots && Counted(w.env)
    ensures Counted(w.env.Revert(id, parent))
  {
    WhatHolds(w);
    LandsThere(w, id);
    SavedBlocks(w.env.snapshots, w.env.snapshotSeq, w.env.chain, id);
    RevertBlocks(w.env, id, parent);
  }

  lemma WhatHolds(w: World)
    requires Inv(w)
    ensures BlocksSound(w.env.chain.blocks) && Grown(w.env.snapshots, w.env.snapshotSeq, w.env.chain)
  {
  }

  lemma LandsThere(w: World, id: nat)
    requires Enabled(w, Revert(id)) && id in w.env.snapshots
    ensures var saved := w.env.snapshots[id].chain; StopsAt(w.env.chain, saved.blocks, saved.forkHeight + |saved.blocks|)
  {
  }

  lemma SavedBlocks(snapshots: map<nat, Saved>, next: nat, c: ChainState, id: nat)
    requires Grown(snapshots, next, c) && id in snapshots
    ensures snapshots[id].chain.blocks <= c.blocks
  {
    assert Extends(Then(snapshots[id]).chain, c);
  }

  lemma OtherCounted(s: EnvState, op: Op, parent: Parent)
    requires s.chain.txs.Valid() && !op.Mine? && !op.Revert? && Counted(s)
    ensures Counted(Step(World(s, map[], map[]), op, parent).env)
  {
    SameBlocks(s, op, parent);
    match op
    case SyncToHead(head) =>
    case Restart =>
    case _ =>
  }

  lemma StepCounted(w: World, op: Op, parent: Parent)
    requires Inv(w) && w.env.chain.txs.Valid() && Enabled(w, op) && Counted(w.env)
    ensures Counted(Step(w, op, parent).env)
  {
    match op
    case Mine(hash, parentHash, timestamp, txs) => MinedBlocks(w.env, hash, parentHash, timestamp, txs);
    case Revert(id) => if id in w.env.snapshots { RevertCounted(w, id, parent); }
    case _ =>
      EnvOfStep(w, op, parent);
      OtherCounted(w.env, op, parent);
  }

  /** Over every run the stored count is that of the blocks there are. */
  lemma {:induction false} BlocksAreCounted(forkBlock: nat, trace: seq<World>, ops: seq<Op>, parent: Parent, k: nat)
    requires IsRun(trace, ops, parent) && trace[0] == Initial(forkBlock) && k < |trace|
    ensures Counted(trace[k].env)
  {
    if k > 0 {
      BlocksAreCounted(forkBlock, trace, ops, parent, k - 1);
      SoundAlong(forkBlock, trace, ops, parent, k - 1);
      StepCounted(trace[k - 1], ops[k - 1], parent);
    }
  }

  // ---- what the clock says --------------------------------------------------------------------------------------

  /** The seconds the steps from `i` to `k` add. */
  function Seconds(ops: seq<Op>, i: nat, k: nat): int
    requires i <= k <= |ops|
    decreases k
  {
    if i == k then 0 else Seconds(ops, i, k - 1) + if ops[k - 1].MoveClock? then ops[k - 1].seconds else 0
  }

  predicate KeepsClock(w: World, op: Op) {
    !op.Restart? && (op.Revert? ==> op.id !in w.env.snapshots)
  }

  lemma ClockAfter(w: World, op: Op, parent: Parent)
    requires w.env.chain.txs.Valid()
    ensures KeepsClock(w, op) ==>
              Step(w, op, parent).env.timeOffset == w.env.timeOffset + if op.MoveClock? then op.seconds else 0
    ensures op.Restart? ==> Step(w, op, parent).env.timeOffset == 0
    ensures op.Revert? && op.id in w.env.snapshots ==> Step(w, op, parent).env.timeOffset == w.env.snapshots[op.id].time
  {
    match op
    case Mine(hash, parentHash, timestamp, txs) => MinedBlocks(w.env, hash, parentHash, timestamp, txs);
    case Revert(id) =>
    case SyncToHead(head) =>
    case _ =>
  }

  ghost predicate TicksAt(trace: seq<World>, ops: seq<Op>, x: nat) {
    && x < |ops| && x + 1 < |trace|
    && trace[x + 1].env.timeOffset == trace[x].env.timeOffset + if ops[x].MoveClock? then ops[x].seconds else 0
  }

  lemma {:induction false} TicksAddUp(trace: seq<World>, ops: seq<Op>, i: nat, k: nat)
    requires i <= k <= |ops| && k < |trace| && forall x | i <= x < k :: TicksAt(trace, ops, x)
    ensures trace[k].env.timeOffset == trace[i].env.timeOffset + Seconds(ops, i, k)
    decreases k
  {
    if i < k {
      TicksAddUp(trace, ops, i, k - 1);
      assert TicksAt(trace, ops, k - 1);
    }
  }

  lemma StepTicks(forkBlock: nat, trace: seq<World>, ops: seq<Op>, parent: Parent, x: nat)
    requires IsRun(trace, ops, parent) && trace[0] == Initial(forkBlock) && x < |ops|
    ensures KeepsClock(trace[x], ops[x]) ==> TicksAt(trace, ops, x)
    ensures ops[x].Restart? ==> trace[x + 1].env.timeOffset == 0
  {
    SoundAlong(forkBlock, trace, ops, parent, x);
    ClockAfter(trace[x], ops[x], parent);
  }

  /** The clock is ahead by the seconds it was moved since it last started: at the first step, or at a restart. */
  lemma ClockIs(forkBlock: nat, trace: seq<World>, ops: seq<Op>, parent: Parent, i: nat, k: nat)
    requires IsRun(trace, ops, parent) && trace[0] == Initial(forkBlock) && i <= k < |trace|
    requires i == 0 || ops[i - 1].Restart?
    requires forall x | i <= x < k :: KeepsClock(trace[x], ops[x])
    ensures trace[k].env.timeOffset == Seconds(ops, i, k)
  {
    if i > 0 {
      StepTicks(forkBlock, trace, ops, parent, i - 1);
    }
    forall x | i <= x < k ensures TicksAt(trace, ops, x) { StepTicks(forkBlock, trace, ops, parent, x); }
    TicksAddUp(trace, ops, i, k);
  }
}
