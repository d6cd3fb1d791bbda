/**
 * What `at` (src/environment.ts) answers for a past block reads as the overlay's copy of that block, and the
 * answer it keeps stays right for as long as it is kept.
 */
module Rewinds {
  import opened Options
  import opened Overlays
  import opened Chains
  import opened Environments
  import opened TimeTravel

  ghost predicate AllPaired(copies: Copies) {
    forall n | n in copies :: Paired(copies[n])
  }

  /** Every copy, of the run or of a snapshot, has an account's balance exactly when it has its nonce. */
  ghost predicate PairedWorld(w: World) {
    AllPaired(w.copies) && forall id | id in w.kept :: AllPaired(w.kept[id])
  }

  lemma PairedAfterMine(w: World, op: Op, parent: Parent)
    requires Paired(w.env.accounts) && PairedWorld(w) && op.Mine? && w.env.chain.txs.Valid()
    ensures PairedWorld(Step(w, op, parent))
  {
    var height := w.env.Mine(op.hash, op.parentHash, op.timestamp, op.txs).chain.Height();
  }

  lemma PairedAfterOther(w: World, op: Op, parent: Parent)
    requires Paired(w.env.accounts) && PairedWorld(w) && !op.Mine? && w.env.chain.txs.Valid()
    ensures PairedWorld(Step(w, op, parent))
  {
  }

  lemma {:induction false} AlwaysPaired(forkBlock: nat, trace: seq<World>, ops: seq<Op>, parent: Parent, k: nat)
    requires IsRun(trace, ops, parent) && trace[0] == Initial(forkBlock) && k < |trace|
    ensures PairedWorld(trace[k])
  {
    if k > 0 {
      AlwaysPaired(forkBlock, trace, ops, parent, k - 1);
      InitialGood(forkBlock);
      RunKeeps(trace, ops, parent, k - 1);
      PairedThen(trace[k - 1], ops[k - 1], parent);
    }
  }

  lemma PairedThen(w: World, op: Op, parent: Parent)
    requires Inv(w) && PairedWorld(w)
    ensures PairedWorld(Step(w, op, parent))
  {
    if op.Mine? {
      PairedAfterMine(w, op, parent);
    } else {
      PairedAfterOther(w, op, parent);
    }
  }

  /**
   * A past block is answered as it was. After any run, for every block history still reaches, the
   * environment rebuilt there reads every place as the copy of the overlay taken at that block had it,
   * and through to the parent where the copy had nothing.
   */
  lemma RewoundEnvironmentReads(forkBlock: nat, trace: seq<World>, ops: seq<Op>, parent: Parent, k: nat, n: int,
                                past: Accounts, rebuilt: EnvState, p: Place)
    requires IsRun(trace, ops, parent) && trace[0] == Initial(forkBlock) && k < |trace|
    requires trace[k].env.chain.historyFrom <= n <= trace[k].env.chain.Height() && Normal(p)
    requires Clean(past) && forall q | Normal(q) :: Get(past, q) == trace[k].env.At(n, q)
    requires rebuilt.accounts == Restored(past, parent, rebuilt.forkBlock)
    ensures n in trace[k].copies
    ensures rebuilt.Read(parent, p) ==
            var own := Get(trace[k].copies[n], p);
            if own.Some? then own.value else parent(rebuilt.forkBlock, p)
  {
    AlwaysPaired(forkBlock, trace, ops, parent, k);
    forall q | Normal(q) ensures n in trace[k].copies && Get(trace[k].copies[n], q) == Get(past, q) {
      TimeTravelExact(forkBlock, trace, ops, parent, k, n, q);
    }
    TimeTravelExact(forkBlock, trace, ops, parent, k, n, p);
  }

  // ---- the past environment that is kept --------------------------------------------------------------

  /** The copies of a snapshot are the run's own, up to the snapshot's height. */
  ghost predicate Agrees(kept: Copies, top: int, copies: Copies) {
    forall n | n in kept && n <= top :: n in copies && copies[n] == kept[n]
  }

  /** The height of the chain a snapshot holds. */
  function Top(saved: Saved): int { Then(saved).chain.Height() }

  /** While the fork has not moved, the copies of every snapshot agree with the run's, and with later snapshots'. */
  ghost predicate SnapshotsAgree(snapshots: map<nat, Saved>, kept: map<nat, Copies>, forkHeight: int, copies: Copies) {
    && kept.Keys == snapshots.Keys
    && (forall id | id in kept :: snapshots[id].chain.forkHeight <= forkHeight)
    && (forall id | id in kept && snapshots[id].chain.forkHeight == forkHeight :: Agrees(kept[id], Top(snapshots[id]), copies))
    && (forall i, j | i in kept && j in kept && i < j && snapshots[i].chain.forkHeight == snapshots[j].chain.forkHeight ::
          Agrees(kept[i], Top(snapshots[i]), kept[j]))
  }

  ghost predicate Agreeing(w: World) {
    SnapshotsAgree(w.env.snapshots, w.kept, w.env.chain.forkHeight, w.copies)
  }

  lemma LowerHeight(c: ChainState, c': ChainState)
    requires BlocksSound(c'.blocks) && c.blocks <= c'.blocks && c.forkHeight == c'.forkHeight
    ensures c.Height() <= c'.Height()
  {
    if c.blocks != [] {
      var i, k := |c.blocks| - 1, |c'.blocks| - 1;
      assert c.blocks[i] == c'.blocks[i];
    }
  }

  /** No snapshot of this fork is higher than the chain. */
  lemma TopsBelow(w: World, id: nat)
    requires Inv(w) && id in w.env.snapshots && w.env.snapshots[id].chain.forkHeight == w.env.chain.forkHeight
    ensures Top(w.env.snapshots[id]) <= w.env.chain.Height()
  {
    LowerHeight(Then(w.env.snapshots[id]).chain, w.env.chain);
  }

  /** A block above every snapshot's height brings a copy no snapshot speaks of. */
  lemma NewCopyAgrees(kept: Copies, top: int, copies: Copies, height: int, copy: Accounts)
    requires Agrees(kept, top, copies) && top < height
    ensures Agrees(kept, top, copies[height := copy])
  {
  }

  lemma MineLeaves(w: World, op: Op, parent: Parent)
    requires op.Mine? && w.env.chain.txs.Valid()
    requires w.env.chain.Fits(w.env.NextBlock(op.hash, op.parentHash, op.timestamp, op.txs), op.txs)
    ensures var w' := Step(w, op, parent);
            && w'.env.snapshots == w.env.snapshots && w'.kept == w.kept
            && w'.env.chain.forkHeight == w.env.chain.forkHeight
            && w'.copies == w.copies[w.env.chain.Height() + 1 := w.env.accounts]
  {
    AddHeight(w.env.chain, w.env.NextBlock(op.hash, op.parentHash, op.timestamp, op.txs), op.txs);
  }

  lemma HigherAgrees(snapshots: map<nat, Saved>, kept: map<nat, Copies>, forkHeight: int, copies: Copies,
                     height: int, copy: Accounts)
    requires SnapshotsAgree(snapshots, kept, forkHeight, copies)
    requires forall id | id in snapshots && snapshots[id].chain.forkHeight == forkHeight :: Top(snapshots[id]) < height
    ensures SnapshotsAgree(snapshots, kept, forkHeight, copies[height := copy])
  {
    forall id | id in kept && snapshots[id].chain.forkHeight == forkHeight
      ensures Agrees(kept[id], Top(snapshots[id]), copies[height := copy])
    {
      NewCopyAgrees(kept[id], Top(snapshots[id]), copies, height, copy);
    }
  }

  lemma AgreesAfterMine(w: World, op: Op, parent: Parent)
    requires Inv(w) && Agreeing(w) && op.Mine? && Enabled(w, op)
    ensures Agreeing(Step(w, op, parent))
  {
    var height := w.env.chain.Height() + 1;
    forall id | id in w.env.snapshots && w.env.snapshots[id].chain.forkHeight == w.env.chain.forkHeight
      ensures Top(w.env.snapshots[id]) < height
    {
      TopsBelow(w, id);
    }
    HigherAgrees(w.env.snapshots, w.kept, w.env.chain.forkHeight, w.copies, height, w.env.accounts);
    MineLeaves(w, op, parent);
  }

  /** Taking a snapshot of the present fork keeps a copy of the copies, which agree with themselves. */
  lemma PushAgrees(snapshots: map<nat, Saved>, kept: map<nat, Copies>, forkHeight: int, copies: Copies, id: nat, saved: Saved)
    requires SnapshotsAgree(snapshots, kept, forkHeight, copies)
    requires saved.chain.forkHeight == forkHeight && forall i | i in snapshots :: i < id
    ensures SnapshotsAgree(snapshots[id := saved], kept[id := copies], forkHeight, copies)
  {
  }

  lemma SnapshotLeaves(w: World, parent: Parent)
    requires w.env.chain.txs.Valid()
    ensures var w', id := Step(w, Snapshot, parent), w.env.snapshotSeq;
            && w'.env.chain == w.env.chain && w'.copies == w.copies && w'.kept == w.kept[id := w.copies]
            && id in w'.env.snapshots && w'.env.snapshots[id].chain.forkHeight == w.env.chain.forkHeight
            && w'.env.snapshots == w.env.snapshots[id := w'.env.snapshots[id]]
  {
  }

  lemma AgreesAfterSnapshot(w: World, parent: Parent)
    requires Inv(w) && Agreeing(w)
    ensures Agreeing(Step(w, Snapshot, parent))
  {
    var id := w.env.snapshotSeq;
    SnapshotLeaves(w, parent);
    PushAgrees(w.env.snapshots, w.kept, w.env.chain.forkHeight, w.copies, id, Step(w, Snapshot, parent).env.snapshots[id]);
  }

  /** What a valid revert leaves, as far as the copies are concerned. */
  lemma RevertLeaves(w: World, id: nat, parent: Parent)
    requires Inv(w) && id in w.env.snapshots && Lands(w.env, id)
    ensures var s := w.env.Revert(id, parent);
            && s.chain.forkHeight == w.env.chain.forkHeight == w.env.snapshots[id].chain.forkHeight
            && s.chain.Height() == Top(w.env.snapshots[id]) && s.snapshots == Older(w.env.snapshots, id)
            && s.forkBlock == w.env.forkBlock
  {
    RevertIs(w.env, id, w.kept[id], parent);
  }

  lemma AgreesAfterRevert(w: World, id: nat, parent: Parent)
    requires Inv(w) && Agreeing(w) && Enabled(w, Revert(id))
    ensures Agreeing(Step(w, Revert(id), parent))
  {
    if id in w.env.snapshots {
      RevertLeaves(w, id, parent);
      RestrictAgrees(w.env.snapshots, w.kept, w.env.chain.forkHeight, w.copies, id);
    }
  }

  lemma RestrictAgrees(snapshots: map<nat, Saved>, kept: map<nat, Copies>, forkHeight: int, copies: Copies, id: nat)
    requires SnapshotsAgree(snapshots, kept, forkHeight, copies)
    requires id in kept && snapshots[id].chain.forkHeight == forkHeight
    ensures SnapshotsAgree(Older(snapshots, id), Older(kept, id), forkHeight, kept[id])
  {
  }

  /** Writes and clocks leave the fork, the copies and the snapshots alone. */
  lemma QuietLeaves(w: World, op: Op, parent: Parent)
    requires w.env.chain.txs.Valid() && (op.WriteField? || op.WriteAccount? || op.MoveClock?)
    ensures var w' := Step(w, op, parent);
            && w'.env.snapshots == w.env.snapshots && w'.kept == w.kept && w'.copies == w.copies
            && w'.env.chain.forkHeight == w.env.chain.forkHeight
  {
  }

  lemma SyncLeaves(w: World, head: int, parent: Parent)
    requires w.env.chain.txs.Valid()
    ensures var w' := Step(w, SyncToHead(head), parent);
            && w'.env.snapshots == w.env.snapshots && w'.kept == w.kept
            && (w'.env.chain.forkHeight > w.env.chain.forkHeight ||
                (w'.env.chain.forkHeight == w.env.chain.forkHeight && w'.copies == w.copies))
  {
  }

  /** No snapshot is of a fork that has only just been reached. */
  lemma AdvanceAgrees(snapshots: map<nat, Saved>, kept: map<nat, Copies>, forkHeight: int, copies: Copies,
                      forkHeight': int, copies': Copies)
    requires SnapshotsAgree(snapshots, kept, forkHeight, copies) && forkHeight' > forkHeight
    ensures SnapshotsAgree(snapshots, kept, forkHeight', copies')
  {
  }

  lemma AgreesAfterSync(w: World, head: int, parent: Parent)
    requires w.env.chain.txs.Valid() && Agreeing(w)
    ensures Agreeing(Step(w, SyncToHead(head), parent))
  {
    var w' := Step(w, SyncToHead(head), parent);
    SyncLeaves(w, head, parent);
    if w'.env.chain.forkHeight > w.env.chain.forkHeight {
      AdvanceAgrees(w.env.snapshots, w.kept, w.env.chain.forkHeight, w.copies, w'.env.chain.forkHeight, w'.copies);
    }
  }

  lemma AgreesThen(w: World, op: Op, parent: Parent)
    requires Inv(w) && Agreeing(w) && Enabled(w, op)
    ensures Agreeing(Step(w, op, parent))
  {
    if op.Mine? {
      AgreesAfterMine(w, op, parent);
    } else if op.Snapshot? {
      AgreesAfterSnapshot(w, parent);
    } else if op.Revert? {
      AgreesAfterRevert(w, op.id, parent);
    } else if op.SyncToHead? {
      AgreesAfterSync(w, op.head, parent);
    } else if !op.Restart? {
      QuietLeaves(w, op, parent);
    }
  }

  ghost predicate AgreesOn(trace: seq<World>, x: nat) {
    x + 1 < |trace| && (Agreeing(trace[x]) ==> Agreeing(trace[x + 1]))
  }

  lemma StepAgrees(trace: seq<World>, ops: seq<Op>, parent: Parent, x: nat)
    requires IsRun(trace, ops, parent) && x < |ops| && Inv(trace[x])
    ensures AgreesOn(trace, x)
  {
    if Agreeing(trace[x]) {
      AgreesThen(trace[x], ops[x], parent);
    }
  }

  lemma {:induction false} AgreesChain(trace: seq<World>, k: nat)
    requires k < |trace| && Agreeing(trace[0]) && forall x | 0 <= x < k :: AgreesOn(trace, x)
    ensures Agreeing(trace[k])
  {
    if k > 0 {
      AgreesChain(trace, k - 1);
      assert AgreesOn(trace, k - 1);
    }
  }

  lemma AlwaysAgreeing(forkBlock: nat, trace: seq<World>, ops: seq<Op>, parent: Parent, k: nat)
    requires IsRun(trace, ops, parent) && trace[0] == Initial(forkBlock) && k < |trace|
    ensures Inv(trace[k]) && Agreeing(trace[k])
  {
    InitialGood(forkBlock);
    RunKeeps(trace, ops, parent, k);
    forall x | 0 <= x < k ensures AgreesOn(trace, x) {
      RunKeeps(trace, ops, parent, x);
      StepAgrees(trace, ops, parent, x);
    }
    AgreesChain(trace, k);
  }

  /**
   * Whether a step moves the version or the fork block, one of which the kept past environment is known
   * by, or throws that environment away. A revert to a snapshot with nothing written moves neither.
   */
  ghost predicate Forgets(w: World, op: Op) {
    match op
    case WriteField(_, _) => true
    case WriteAccount(_, _, _) => true
    case Mine(_, _, _, _) => true
    case MoveClock(_) => false
    case Snapshot => false
    case Revert(id) => id in w.env.snapshots && w.env.snapshots[id].accounts != map[]
    case SyncToHead(head) => head > w.env.forkBlock && head > w.env.chain.Height()
    case Restart => true
  }

  /** Any other step keeps the fork, raises no height, and keeps the copies up to the height it leaves. */
  ghost predicate SamePast(w: World, w': World) {
    && w'.env.forkBlock == w.env.forkBlock && w'.env.chain.Height() <= w.env.chain.Height()
    && Agrees(w'.copies, w'.env.chain.Height(), w.copies)
  }

  lemma KeepsPast(w: World, op: Op, parent: Parent)
    requires Inv(w) && Agreeing(w) && Enabled(w, op) && !Forgets(w, op)
    ensures SamePast(w, Step(w, op, parent))
  {
    if op.Revert? && op.id in w.env.snapshots {
      RevertLeaves(w, op.id, parent);
      TopsBelow(w, op.id);
    }
  }

  /** The step from the `x`th world kept the past. */
  ghost predicate KeptAt(trace: seq<World>, x: nat) {
    x + 1 < |trace| && SamePast(trace[x], trace[x + 1])
  }

  lemma StepKeepsPast(forkBlock: nat, trace: seq<World>, ops: seq<Op>, parent: Parent, x: nat)
    requires IsRun(trace, ops, parent) && trace[0] == Initial(forkBlock) && x < |ops| && !Forgets(trace[x], ops[x])
    ensures KeptAt(trace, x)
  {
    AlwaysAgreeing(forkBlock, trace, ops, parent, x);
    KeepsPast(trace[x], ops[x], parent);
  }

  lemma {:induction false} PastChain(trace: seq<World>, i: nat, k: nat)
    requires i <= k < |trace| && forall x | i <= x < k :: KeptAt(trace, x)
    ensures SamePast(trace[i], trace[k])
    decreases k
  {
    if i < k {
      PastChain(trace, i, k - 1);
      assert KeptAt(trace, k - 1);
      PastJoins(trace[i], trace[k - 1], trace[k]);
    }
  }

  lemma PastStays(forkBlock: nat, trace: seq<World>, ops: seq<Op>, parent: Parent, i: nat, k: nat)
    requires IsRun(trace, ops, parent) && trace[0] == Initial(forkBlock) && i <= k < |trace|
    requires forall x | i <= x < k :: !Forgets(trace[x], ops[x])
    ensures SamePast(trace[i], trace[k])
  {
    forall x | i <= x < k ensures KeptAt(trace, x) { StepKeepsPast(forkBlock, trace, ops, parent, x); }
    PastChain(trace, i, k);
  }

  lemma PastJoins(a: World, b: World, c: World)
    requires SamePast(a, b) && SamePast(b, c)
    ensures SamePast(a, c)
  {
  }

  /**
   * The past environment kept since an earlier question is the one that would be rebuilt now: over any run,
   * as long as neither version nor fork block has moved, undoing to a block gives what it gave then,
   * reverts to empty snapshots in between included.
   */
  lemma KeptPastIsRight(forkBlock: nat, trace: seq<World>, ops: seq<Op>, parent: Parent, i: nat, k: nat, n: int, p: Place)
    requires IsRun(trace, ops, parent) && trace[0] == Initial(forkBlock) && i <= k < |trace|
    requires forall x | i <= x < k :: !Forgets(trace[x], ops[x])
    requires trace[i].env.chain.historyFrom <= n <= trace[i].env.chain.Height()
    requires trace[k].env.chain.historyFrom <= n <= trace[k].env.chain.Height() && Normal(p)
    ensures trace[k].env.forkBlock == trace[i].env.forkBlock && trace[k].env.At(n, p) == trace[i].env.At(n, p)
  {
    PastStays(forkBlock, trace, ops, parent, i, k);
    TimeTravelExact(forkBlock, trace, ops, parent, i, n, p);
    TimeTravelExact(forkBlock, trace, ops, parent, k, n, p);
  }
}
