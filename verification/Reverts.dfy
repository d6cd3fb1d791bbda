/** `evm_revert` as the inverse of everything since `evm_snapshot` (src/environment.ts, `snapshot` and `revert`). */
module Reverts {
  import opened Options
  import opened Ordered
  import opened Overlays
  import opened Chains
  import opened Environments
  import opened TimeTravel

  /** Block numbers run straight up from the fork point, as they do until a head sync follows a block. */
  ghost predicate Contiguous(c: ChainState) {
    forall i | 0 <= i < |c.blocks| :: c.blocks[i].number == c.forkHeight + 1 + i
  }

  // ---- what a snapshot remembers while the run goes on -------------------------------------

  /** Until a revert passes it, a snapshot and the older ones stay as they were when it was taken. */
  ghost predicate Remembers(w: World, s: EnvState)
    requires s.chain.txs.Valid()
  {
    var id := s.snapshotSeq;
    && w.env.snapshotSeq > id
    && (id in w.env.snapshots ==>
          && w.env.snapshots[id] == s.TakeSnapshot().snapshots[id]
          && Older(w.env.snapshots, id) == s.snapshots)
  }

  lemma SnapshotsAfter(w: World, op: Op, parent: Parent)
    requires w.env.chain.txs.Valid() && !op.Restart?
    ensures var s, s' := w.env, Step(w, op, parent).env;
            && s'.snapshotSeq == s.snapshotSeq + (if op.Snapshot? then 1 else 0)
            && s'.snapshots == if op.Snapshot? then s.TakeSnapshot().snapshots
                               else if op.Revert? && op.id in s.snapshots then Older(s.snapshots, op.id)
                               else s.snapshots
  {
  }

  lemma StillRemembers(snapshots: map<nat, Saved>, after: map<nat, Saved>, top: nat, id: nat)
    requires forall k | k < top :: (k in after <==> k in snapshots) && (k in after ==> after[k] == snapshots[k])
    requires id in after && id < top
    ensures id in snapshots && after[id] == snapshots[id] && Older(after, id) == Older(snapshots, id)
  {
    assert Older(after, id).Keys == Older(snapshots, id).Keys;
  }

  lemma RemembersStep(w: World, op: Op, parent: Parent, s: EnvState)
    requires w.env.chain.txs.Valid() && s.chain.txs.Valid() && Remembers(w, s) && !op.Restart?
    ensures Remembers(Step(w, op, parent), s)
  {
    var id, after := s.snapshotSeq, Step(w, op, parent).env.snapshots;
    SnapshotsAfter(w, op, parent);
    if id in after {
      var top := if op.Revert? && op.id in w.env.snapshots then op.id else w.env.snapshotSeq;
      StillRemembers(w.env.snapshots, after, top, id);
    }
  }

  lemma {:induction false} RemembersRun(trace: seq<World>, ops: seq<Op>, parent: Parent, i: nat, k: nat)
    requires IsRun(trace, ops, parent) && i < k < |trace| && ops[i] == Snapshot
    requires forall j | i < j < k :: !ops[j].Restart?
    requires forall id | id in trace[i].env.snapshots :: id < trace[i].env.snapshotSeq
    ensures Remembers(trace[k], trace[i].env)
  {
    if k == i + 1 {
      var s := trace[i].env;
      assert Older(trace[k].env.snapshots, s.snapshotSeq) == s.snapshots;
    } else {
      RemembersRun(trace, ops, parent, i, k - 1);
      RemembersStep(trace[k - 1], ops[k - 1], parent, trace[i].env);
    }
  }

  // ---- when block numbers stay contiguous ---------------------------------------------------

  ghost predicate AllContiguous(s: EnvState) {
    && Contiguous(s.chain)
    && forall id | id in s.snapshots :: Contiguous(Then(s.snapshots[id]).chain)
  }

  lemma MineContiguous(s: EnvState, hash: Hash, parentHash: Hash, timestamp: int, txs: seq<Tx>)
    requires AllContiguous(s)
    requires s.chain.Fits(s.NextBlock(hash, parentHash, timestamp, txs), txs) && s.chain.forkHeight >= 0
    ensures AllContiguous(s.Mine(hash, parentHash, timestamp, txs))
  {
    AddHeight(s.chain, s.NextBlock(hash, parentHash, timestamp, txs), txs);
  }

  lemma RevertContiguous(s: EnvState, id: nat, copies: Copies, parent: Parent)
    requires AllContiguous(s) && id in s.snapshots && Lands(s, id) && s.chain.Sound()
    requires WellKept(s.snapshots[id], copies) && Extends(Then(s.snapshots[id]).chain, s.chain)
    ensures AllContiguous(s.Revert(id, parent))
  {
    RevertIs(s, id, copies, parent);
  }

  lemma SnapshotContiguous(s: EnvState)
    requires AllContiguous(s) && s.chain.Sound() && s.chain.Journalled()
    ensures AllContiguous(s.TakeSnapshot())
  {
    SnapshotOf(s);
  }

  lemma SnapshotOf(s: EnvState)
    requires s.chain.Sound() && s.chain.Journalled()
    ensures Then(s.TakeSnapshot().snapshots[s.snapshotSeq]).chain == s.chain
  {
    RestoreExport(s.chain);
  }

  /** Writes, the clock and a head sync before the first block leave the block list alone. */
  lemma OtherContiguous(s: EnvState, op: Op, parent: Parent)
    requires AllContiguous(s)
    ensures op.WriteField? ==> AllContiguous(s.Record(op.place, op.value))
    ensures op.WriteAccount? ==> AllContiguous(s.WriteAccount(op.address, op.balance, op.nonce))
    ensures op.SyncToHead? && s.chain.blocks == [] ==> AllContiguous(s.SyncToHead(op.head, parent))
  {
  }

  lemma RestartContiguous(s: EnvState, parent: Parent)
    requires AllContiguous(s) && s.chain.Sound() && s.chain.Journalled()
    ensures AllContiguous(s.Restart(parent))
  {
    RestoreExport(s.chain);
  }

  /** Only a head sync that follows a block breaks the numbering; no other step can. */
  lemma ContiguousStep(w: World, op: Op, parent: Parent)
    requires Inv(w) && Enabled(w, op) && AllContiguous(w.env)
    requires op.SyncToHead? ==> w.env.chain.blocks == []
    ensures AllContiguous(Step(w, op, parent).env)
  {
    assert w.env.chain.Sound() && w.env.chain.Journalled();
    match op
    case Mine(hash, parentHash, timestamp, txs) => MineContiguous(w.env, hash, parentHash, timestamp, txs);
    case Revert(id) =>
      if id in w.env.snapshots {
        RevertContiguous(w.env, id, w.kept[id], parent);
      }
    case Snapshot => SnapshotContiguous(w.env);
    case Restart => RestartContiguous(w.env, parent);
    case MoveClock(_) =>
    case _ => OtherContiguous(w.env, op, parent);
  }

  lemma {:induction false} ContiguousRun(forkBlock: nat, trace: seq<World>, ops: seq<Op>, parent: Parent, k: nat)
    requires IsRun(trace, ops, parent) && trace[0] == Initial(forkBlock) && k < |trace|
    requires forall j | 0 <= j < k && ops[j].SyncToHead? :: trace[j].env.chain.blocks == []
    ensures AllContiguous(trace[k].env)
  {
    if k > 0 {
      ContiguousRun(forkBlock, trace, ops, parent, k - 1);
      InitialGood(forkBlock);
      RunKeeps(trace, ops, parent, k - 1);
      ContiguousStep(trace[k - 1], ops[k - 1], parent);
    }
  }

  // ---- the inverse ------------------------------------------------------------------------------

  /** Replaying an overlay fills in what the parent shows, so no read can tell. */
  lemma ReapplyReads(s: EnvState, parent: Parent, p: Place)
    requires Normal(p)
    ensures s.Reapply(parent).Read(parent, p) == s.Read(parent, p)
  {
  }

  /** What `evm_revert` owes: everything as `s` had it, but for notes made while replaying the overlay. */
  ghost predicate BackTo(r: EnvState, s: EnvState, parent: Parent) {
    && r.chain == s.chain.(pending := r.chain.pending)
    && (forall e | e in s.chain.pending :: e in r.chain.pending && r.chain.pending[e] == s.chain.pending[e])
    && (forall e | e in r.chain.pending && e !in s.chain.pending ::
          r.chain.pending[e] == None && e in FilledIn(s.accounts))
    && r.timeOffset == s.timeOffset
    && r.blockNumber == s.blockNumber
    && r.snapshots == s.snapshots
    && (forall p | Normal(p) :: r.Read(parent, p) == s.Read(parent, p))
  }

  lemma RolledBackTo(w: World, s: EnvState, parent: Parent)
    requires s.chain.Sound() && s.chain.Journalled() && s.chain.forkHeight == s.forkBlock
    requires Remembers(w, s) && s.snapshotSeq in w.env.snapshots && w.env.forkBlock == s.forkBlock
    ensures BackTo(RolledBack(w.env, s.snapshotSeq).Reapply(parent), s, parent)
  {
    var back := RolledBack(w.env, s.snapshotSeq);
    RestoreExport(s.chain);
    assert back.chain == s.chain && back.accounts == s.accounts;
    forall p | Normal(p) ensures back.Reapply(parent).Read(parent, p) == s.Read(parent, p) {
      ReapplyReads(back, parent, p);
    }
  }

  /**
   * `evm_revert` undoes everything since the snapshot it names: after any run in this process,
   * with no head sync after the first block, the environment it leaves has the snapshot's blocks,
   * transactions, journals, clock and reads, and exactly the older snapshots.
   */
  lemma RevertIsInverse(forkBlock: nat, trace: seq<World>, ops: seq<Op>, parent: Parent, i: nat, k: nat)
    requires IsRun(trace, ops, parent) && trace[0] == Initial(forkBlock)
    requires i < k < |trace| && ops[i] == Snapshot && forall j | i < j < k :: !ops[j].Restart?
    requires trace[i].env.snapshotSeq in trace[k].env.snapshots
    requires trace[k].env.forkBlock == trace[i].env.forkBlock
    requires forall j | 0 <= j < k && ops[j].SyncToHead? :: trace[j].env.chain.blocks == []
    ensures BackTo(trace[k].env.Revert(trace[i].env.snapshotSeq, parent), trace[i].env, parent)
  {
    var s, w, id := trace[i].env, trace[k], trace[i].env.snapshotSeq;
    InitialGood(forkBlock);
    RunKeeps(trace, ops, parent, i);
    RunKeeps(trace, ops, parent, k);
    ContiguousRun(forkBlock, trace, ops, parent, k);
    RemembersRun(trace, ops, parent, i, k);
    SnapshotOf(s);
    LandsWhenContiguous(w, s);
    RevertIs(w.env, id, w.kept[id], parent);
    RolledBackTo(w, s, parent);
  }

  lemma LandsWhenContiguous(w: World, s: EnvState)
    requires Inv(w) && s.chain.txs.Valid() && Remembers(w, s) && s.snapshotSeq in w.env.snapshots
    requires Then(w.env.snapshots[s.snapshotSeq]).chain == s.chain
    requires w.env.chain.forkHeight == s.chain.forkHeight && Contiguous(w.env.chain)
    ensures Lands(w.env, s.snapshotSeq)
    ensures WellKept(w.env.snapshots[s.snapshotSeq], w.kept[s.snapshotSeq])
    ensures Extends(Then(w.env.snapshots[s.snapshotSeq]).chain, w.env.chain)
  {
  }

  lemma RevertBlocks(s: EnvState, id: nat, parent: Parent)
    requires id in s.snapshots && BlocksSound(s.chain.blocks) && s.snapshots[id].chain.blocks <= s.chain.blocks
    ensures var saved := s.snapshots[id].chain;
            s.Revert(id, parent).chain.blocks == saved.blocks <==>
            StopsAt(s.chain, saved.blocks, saved.forkHeight + |saved.blocks|)
  {
    var saved := s.snapshots[id].chain;
    RollbackStops(s.chain, saved.blocks, saved.forkHeight + |saved.blocks|);
    RevertReapplies(s, id, s.RollBack(id), parent);
    ReapplyBlocks(s.RollBack(id), parent);
    RollBackBlocks(s, id);
  }

  lemma ReapplyBlocks(s: EnvState, parent: Parent)
    ensures s.Reapply(parent).chain.blocks == s.chain.blocks
  {
  }

  lemma RollBackBlocks(s: EnvState, id: nat)
    requires id in s.snapshots
    ensures var saved := s.snapshots[id].chain;
            s.RollBack(id).chain.blocks == s.chain.RollbackTo(saved.forkHeight + |saved.blocks|).blocks
  {
    var saved := s.snapshots[id];
    var target := saved.chain.forkHeight + |saved.chain.blocks|;
    RollBackChain(s, id, saved, target);
    ResetKeepsBlocks(s.chain.RollbackTo(target), saved.chain.history);
  }

  lemma ResetKeepsBlocks(c: ChainState, history: Option<History>)
    ensures c.ResetHistory(history).blocks == c.blocks
  {
  }

  /**
   * In general the rollback stops at the snapshot's blocks exactly when `StopsAt` says so: the
   * fork height plus the number of blocks, which the code takes for the height, must separate the
   * last block kept from the first one dropped.
   */
  lemma RevertRestoresBlocksIff(w: World, id: nat, parent: Parent)
    requires Inv(w) && id in w.env.snapshots
    ensures var saved := w.env.snapshots[id].chain;
            w.env.Revert(id, parent).chain.blocks == saved.blocks <==>
            StopsAt(w.env.chain, saved.blocks, saved.forkHeight + |saved.blocks|)
  {
    RevertBlocks(w.env, id, parent);
  }

  // ---- exactly when -----------------------------------------------------------------------------

  /** A revert neither moves the fork point nor, if it stops short of the snapshot's blocks, restores it. */
  lemma BackToNeeds(w: World, s: EnvState, id: nat, parent: Parent)
    requires Inv(w) && id in w.env.snapshots
    requires w.env.snapshots[id].chain.forkHeight == s.chain.forkHeight
    requires w.env.snapshots[id].chain.blocks == s.chain.blocks
    requires w.env.Revert(id, parent).chain.blocks == s.chain.blocks
    requires w.env.Revert(id, parent).chain.forkHeight == s.chain.forkHeight
    ensures w.env.chain.forkHeight == s.chain.forkHeight
    ensures StopsAt(w.env.chain, s.chain.blocks, s.chain.forkHeight + |s.chain.blocks|)
  {
    RevertRestoresBlocksIff(w, id, parent);
    RevertKeepsFork(w.env, id, parent);
  }

  lemma BackToChain(r: EnvState, s: EnvState, parent: Parent)
    requires BackTo(r, s, parent)
    ensures r.chain.blocks == s.chain.blocks && r.chain.forkHeight == s.chain.forkHeight
  {
  }

  lemma RevertKeepsFork(s: EnvState, id: nat, parent: Parent)
    requires id in s.snapshots
    ensures s.Revert(id, parent).chain.forkHeight == s.chain.forkHeight
  {
    RollBackFork(s, id, s.snapshots[id]);
    RevertReapplies(s, id, s.RollBack(id), parent);
    ReapplyFork(s.RollBack(id), parent);
  }

  lemma ReapplyFork(s: EnvState, parent: Parent)
    ensures s.Reapply(parent).chain.forkHeight == s.chain.forkHeight
  {
  }

  lemma RollBackFork(s: EnvState, id: nat, saved: Saved)
    requires id in s.snapshots && s.snapshots[id] == saved
    ensures s.RollBack(id).chain.forkHeight == s.chain.forkHeight
  {
    var target := saved.chain.forkHeight + |saved.chain.blocks|;
    RollbackShortens(s.chain, target);
    ResetKeepsFork(s.chain.RollbackTo(target), saved.chain.history);
  }

  lemma ResetKeepsFork(c: ChainState, history: Option<History>)
    ensures c.ResetHistory(history).forkHeight == c.forkHeight
  {
  }

  lemma SavedIs(w: World, s: EnvState)
    requires s.chain.Sound() && s.chain.Journalled()
    requires Remembers(w, s) && s.snapshotSeq in w.env.snapshots
    ensures Then(w.env.snapshots[s.snapshotSeq]).chain == s.chain
    ensures w.env.snapshots[s.snapshotSeq].chain.forkHeight == s.chain.forkHeight
    ensures w.env.snapshots[s.snapshotSeq].chain.blocks == s.chain.blocks
  {
    SnapshotOf(s);
  }

  /**
   * Exactly when `evm_revert` undoes everything since the snapshot, over every run in this process:
   * when the fork point has not moved since, and the fork height plus the number of blocks, which the
   * code takes for the snapshot's height, separates its last block from the first one dropped.
   */
  lemma RevertIsInverseIff(forkBlock: nat, trace: seq<World>, ops: seq<Op>, parent: Parent, i: nat, k: nat)
    requires IsRun(trace, ops, parent) && trace[0] == Initial(forkBlock)
    requires i < k < |trace| && ops[i] == Snapshot && forall j | i < j < k :: !ops[j].Restart?
    requires trace[i].env.snapshotSeq in trace[k].env.snapshots
    ensures BackTo(trace[k].env.Revert(trace[i].env.snapshotSeq, parent), trace[i].env, parent) <==>
            StopsAtSnapshot(trace[k].env.chain, trace[i].env.chain)
  {
    var s, w := trace[i].env, trace[k];
    WorldsGood(forkBlock, trace, ops, parent, i);
    WorldsGood(forkBlock, trace, ops, parent, k);
    RemembersRun(trace, ops, parent, i, k);
    InverseIff(w, s, parent);
  }

  /** The rollback a revert asks for stops at the snapshot's last block, and the fork point is where it was. */
  ghost predicate StopsAtSnapshot(c: ChainState, saved: ChainState) {
    c.forkHeight == saved.forkHeight && StopsAt(c, saved.blocks, saved.forkHeight + |saved.blocks|)
  }

  lemma WorldsGood(forkBlock: nat, trace: seq<World>, ops: seq<Op>, parent: Parent, k: nat)
    requires IsRun(trace, ops, parent) && trace[0] == Initial(forkBlock) && k < |trace|
    ensures Inv(trace[k]) && Good(trace[k].env) && trace[k].env.chain.txs.Valid()
    ensures forall id | id in trace[k].env.snapshots :: id < trace[k].env.snapshotSeq
  {
    InitialGood(forkBlock);
    RunKeeps(trace, ops, parent, k);
  }

  lemma InverseIff(w: World, s: EnvState, parent: Parent)
    requires Inv(w) && Good(s) && Remembers(w, s) && s.snapshotSeq in w.env.snapshots
    ensures BackTo(w.env.Revert(s.snapshotSeq, parent), s, parent) <==> StopsAtSnapshot(w.env.chain, s.chain)
  {
    SavedIs(w, s);
    if BackTo(w.env.Revert(s.snapshotSeq, parent), s, parent) {
      BackToChain(w.env.Revert(s.snapshotSeq, parent), s, parent);
      BackToNeeds(w, s, s.snapshotSeq, parent);
    }
    if StopsAtSnapshot(w.env.chain, s.chain) {
      RevertIs(w.env, s.snapshotSeq, w.kept[s.snapshotSeq], parent);
      RolledBackTo(w, s, parent);
    }
  }

  // ---- a head sync between the first block and the revert --------------------------------------------

  lemma EmptyFits(c: ChainState, block: Block)
    requires FindHash(c.blocks, block.hash).None? && block.number == c.Height() + 1 && block.transactions == []
    ensures c.Fits(block, [])
  {
  }

  lemma MinesInto(w: World, hash: Hash, block: Block, parent: Parent)
    requires w.env.chain.txs.Valid() && block == Block(w.env.chain.Height() + 1, hash, 0, 0, [])
    ensures w.env.NextBlock(hash, 0, 0, []) == block
    ensures Step(w, Mine(hash, 0, 0, []), parent).env.chain == w.env.chain.Add(block, [])
  {
  }

  lemma MinesEmpty(w: World, hash: Hash, parent: Parent)
    requires w.env.chain.Sound() && FindHash(w.env.chain.blocks, hash).None?
    ensures Enabled(w, Mine(hash, 0, 0, []))
    ensures var c := Step(w, Mine(hash, 0, 0, []), parent).env.chain;
            && c.Sound() && c.forkHeight == w.env.chain.forkHeight
            && c.blocks == w.env.chain.blocks + [Block(w.env.chain.Height() + 1, hash, 0, 0, [])]
  {
    var block := Block(w.env.chain.Height() + 1, hash, 0, 0, []);
    EmptyFits(w.env.chain, block);
    AddSound(w.env.chain, block, []);
    AddHeight(w.env.chain, block, []);
    MinesInto(w, hash, block, parent);
  }

  function Last(trace: seq<World>): World
    requires trace != []
  {
    trace[|trace| - 1]
  }

  lemma RunGoesOn(trace: seq<World>, ops: seq<Op>, op: Op, parent: Parent) returns (longer: seq<World>)
    requires IsRun(trace, ops, parent)
    requires Last(trace).env.chain.txs.Valid() && Enabled(Last(trace), op)
    ensures IsRun(longer, ops + [op], parent) && longer == trace + [Step(Last(trace), op, parent)]
  {
    longer := trace + [Step(Last(trace), op, parent)];
    forall i | 0 <= i < |ops + [op]|
      ensures longer[i].env.chain.txs.Valid() && Enabled(longer[i], (ops + [op])[i])
      ensures longer[i + 1] == Step(longer[i], (ops + [op])[i], parent)
    {
      if i < |ops| {
        assert longer[i] == trace[i] && longer[i + 1] == trace[i + 1] && (ops + [op])[i] == ops[i];
      }
    }
  }

  /** Fork at 100, block 101, a head sync to 110, a snapshot, block 111: reverting keeps block 111. */
  lemma SyncThenSnapshotKeepsLaterBlock(parent: Parent) returns (trace: seq<World>, ops: seq<Op>)
    ensures IsRun(trace, ops, parent) && trace[0] == Initial(100) && |ops| == 4 && ops[2] == Snapshot
    ensures trace[2].env.snapshotSeq in trace[4].env.snapshots
    ensures !BackTo(trace[4].env.Revert(trace[2].env.snapshotSeq, parent), trace[2].env, parent)
  {
    trace, ops := SyncedRun(parent);
    RevertIsInverseIff(100, trace, ops, parent, 2, 4);
  }

  lemma SyncedRun(parent: Parent) returns (trace: seq<World>, ops: seq<Op>)
    ensures IsRun(trace, ops, parent) && trace[0] == Initial(100) && |ops| == 4 && ops[2] == Snapshot
    ensures trace[2].env.snapshotSeq in trace[4].env.snapshots
    ensures !StopsAtSnapshot(trace[4].env.chain, trace[2].env.chain)
  {
    trace, ops := MinedAndSynced(parent);
    var w2 := Last(trace);
    trace := RunGoesOn(trace, ops, Snapshot, parent);
    var w3 := Last(trace);
    MinesEmpty(w3, 2, parent);
    trace := RunGoesOn(trace, ops + [Snapshot], Mine(2, 0, 0, []), parent);
    ops := ops + [Snapshot] + [Mine(2, 0, 0, [])];
  }

  lemma MinedAndSynced(parent: Parent) returns (trace: seq<World>, ops: seq<Op>)
    ensures IsRun(trace, ops, parent) && trace[0] == Initial(100) && |ops| == 2
    ensures var c := Last(trace).env.chain;
            c.Sound() && c.forkHeight == 110 && c.blocks == [Block(101, 1, 0, 0, [])]
  {
    trace, ops := MinedRun(parent);
    trace := RunGoesOn(trace, ops, SyncToHead(110), parent);
    ops := ops + [SyncToHead(110)];
  }

  lemma MinedRun(parent: Parent) returns (trace: seq<World>, ops: seq<Op>)
    ensures IsRun(trace, ops, parent) && trace[0] == Initial(100) && |ops| == 1
    ensures var s := Last(trace).env;
            && s.chain.Sound() && s.chain.forkHeight == 100 && s.forkBlock == 100
            && s.chain.blocks == [Block(101, 1, 0, 0, [])]
  {
    MinesEmpty(Initial(100), 1, parent);
    ops := [Mine(1, 0, 0, [])];
    trace := RunGoesOn([Initial(100)], [], ops[0], parent);
    assert [] + [ops[0]] == ops;
  }

  /** Fork at 100, block 101, a snapshot, a head sync to 110: reverting loses block 101, which the snapshot has. */
  lemma SnapshotThenSyncLosesBlock(parent: Parent) returns (trace: seq<World>, ops: seq<Op>)
    ensures IsRun(trace, ops, parent) && trace[0] == Initial(100) && |ops| == 3 && ops[1] == Snapshot
    ensures trace[1].env.snapshotSeq in trace[3].env.snapshots
    ensures trace[1].env.chain.blocks == [Block(101, 1, 0, 0, [])]
    ensures trace[3].env.Revert(trace[1].env.snapshotSeq, parent).chain.blocks == []
  {
    trace, ops := SnapshotRun(parent);
    LosesTheBlock(Last(trace).env, trace[1].env.snapshotSeq, parent);
  }

  lemma SnapshotRun(parent: Parent) returns (trace: seq<World>, ops: seq<Op>)
    ensures IsRun(trace, ops, parent) && trace[0] == Initial(100) && |ops| == 3 && ops[1] == Snapshot
    ensures trace[1].env.chain.blocks == [Block(101, 1, 0, 0, [])]
    ensures var s, id := Last(trace).env, trace[1].env.snapshotSeq;
            && id in s.snapshots && s.snapshots[id].chain.forkHeight == 100 && |s.snapshots[id].chain.blocks| == 1
            && s.chain.forkHeight == 110 && |s.chain.blocks| == 1 && s.chain.blocks[0].number == 101
  {
    trace, ops := MinedRun(parent);
    var w1 := Last(trace);
    TakesSnapshot(w1, parent);
    trace := RunGoesOn(trace, ops, Snapshot, parent);
    SyncsAfter(Last(trace), 110, parent);
    trace := RunGoesOn(trace, ops + [Snapshot], SyncToHead(110), parent);
    ops := ops + [Snapshot] + [SyncToHead(110)];
  }

  lemma TakesSnapshot(w: World, parent: Parent)
    requires w.env.chain.Sound()
    ensures var s := Step(w, Snapshot, parent).env;
            && s.chain == w.env.chain && s.forkBlock == w.env.forkBlock && w.env.snapshotSeq in s.snapshots
            && s.snapshots[w.env.snapshotSeq].chain.forkHeight == w.env.chain.forkHeight
            && s.snapshots[w.env.snapshotSeq].chain.blocks == w.env.chain.blocks
  {
  }

  lemma SyncsAfter(w: World, head: int, parent: Parent)
    requires w.env.chain.Sound() && head > w.env.chain.Height() && head > w.env.forkBlock
    ensures var s := Step(w, SyncToHead(head), parent).env;
            s.snapshots == w.env.snapshots && s.chain.forkHeight == head && s.chain.blocks == w.env.chain.blocks
  {
  }

  /** The rollback asked for is to 101, the fork is at 110, and so no block is low enough to stay. */
  lemma LosesTheBlock(s: EnvState, id: nat, parent: Parent)
    requires id in s.snapshots && s.snapshots[id].chain.forkHeight == 100 && |s.snapshots[id].chain.blocks| == 1
    requires s.chain.forkHeight == 110 && |s.chain.blocks| == 1 && s.chain.blocks[0].number == 101
    ensures s.Revert(id, parent).chain.blocks == []
  {
    RevertReapplies(s, id, s.RollBack(id), parent);
    RollBackBlocks(s, id);
    assert s.chain.Pop().blocks == [];
  }
}
