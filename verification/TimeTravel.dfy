/**
 * Journals against full copies.
 *
 * The simple way to answer for a past block is to keep a copy of the overlay for every block. A
 * `World` runs an environment beside exactly that, and the journals are shown to give the same
 * answers after any run.
 */
module TimeTravel {
  import opened Options
  import opened Ordered
  import opened Overlays
  import opened Chains
  import opened Environments

  /** By block number, a copy of the overlay taken as the block was added, or as history was reset. */
  type Copies = map<int, Accounts>

  datatype World = World(env: EnvState, copies: Copies, kept: map<nat, Copies>)

  datatype Op =
    | WriteField(place: Place, value: string)
    | WriteAccount(address: string, balance: string, nonce: string)
    | Mine(hash: Hash, parentHash: Hash, timestamp: int, txs: seq<Tx>)
    | MoveClock(seconds: int)
    | Snapshot
    | Revert(id: nat)
    | SyncToHead(head: int)
    | Restart

  function Initial(forkBlock: nat): World {
    World(EnvState(map[], 0, forkBlock, Empty(forkBlock), 0, map[], 0), map[forkBlock := map[]], map[])
  }

  ghost predicate Enabled(w: World, op: Op) {
    match op
    case WriteField(p, _) => Normal(p) && (p.field.Code? || p.field.Slot?)
    case WriteAccount(a, _, _) => '/' !in a
    case Mine(hash, parentHash, timestamp, txs) =>
      w.env.chain.Fits(w.env.NextBlock(hash, parentHash, timestamp, txs), txs)
    case Revert(id) => id in w.env.snapshots ==> Lands(w.env, id)
    case _ => true
  }

  function Step(w: World, op: Op, parent: Parent): World
    requires w.env.chain.txs.Valid()
  {
    match op
    case WriteField(p, v) => w.(env := w.env.Record(p, v))
    case WriteAccount(a, balance, nonce) => w.(env := w.env.WriteAccount(a, balance, nonce))
    case Mine(hash, parentHash, timestamp, txs) =>
      var env := w.env.Mine(hash, parentHash, timestamp, txs);
      w.(env := env, copies := w.copies[env.chain.Height() := env.accounts])
    case MoveClock(seconds) => w.(env := w.env.(timeOffset := w.env.timeOffset + seconds))
    case Snapshot => w.(env := w.env.TakeSnapshot(), kept := w.kept[w.env.snapshotSeq := w.copies])
    case Revert(id) =>
      if id !in w.env.snapshots then w
      else World(w.env.Revert(id, parent),
                 if id in w.kept then w.kept[id] else map[],
                 Older(w.kept, id))
    case SyncToHead(head) =>
      var env := w.env.SyncToHead(head, parent);
      w.(env := env, copies := if env.forkBlock == w.env.forkBlock then w.copies else map[head := w.env.accounts])
    case Restart => World(w.env.Restart(parent), w.copies, map[])
  }

  /**
   * Whether reverting to the snapshot stops at the snapshot's own blocks. The rollback stops at a
   * height computed as the fork height plus the number of blocks, so the fork point must not have
   * moved and the last block kept and the first one dropped must lie on either side of it.
   */
  ghost predicate Lands(s: EnvState, id: nat)
    requires id in s.snapshots
  {
    var saved := s.snapshots[id].chain;
    s.chain.forkHeight == saved.forkHeight &&
    StopsAt(s.chain, saved.blocks, saved.forkHeight + |saved.blocks|)
  }

  ghost predicate StopsAt(c: ChainState, kept: seq<Block>, target: int) {
    && |kept| <= |c.blocks|
    && (kept != [] ==> Max(kept[|kept| - 1].number, c.forkHeight) <= target)
    && (|kept| < |c.blocks| ==> Max(c.blocks[|kept|].number, c.forkHeight) > target)
  }

  // ---- the invariant ---------------------------------------------------------------

  ghost predicate GoodChain(c: ChainState) {
    c.Sound() && c.Journalled() && c.AllProper()
  }

  ghost predicate Good(s: EnvState) {
    GoodChain(s.chain) && Clean(s.accounts) && Paired(s.accounts) && s.chain.forkHeight == s.forkBlock
  }

  /** The journals, undone, give the copies: field by field, for every block history reaches. */
  ghost predicate Exact(s: EnvState, copies: Copies) {
    forall n | s.chain.historyFrom <= n <= s.chain.Height() ::
      n in copies && forall p | Normal(p) :: s.At(n, p) == Get(copies[n], p)
  }

  /** A snapshot as the environment it was taken of. */
  function Then(saved: Saved): EnvState {
    EnvState(saved.accounts, saved.blockNumber, saved.chain.forkHeight, Restore(saved.chain), saved.time, map[], 0)
  }

  ghost predicate Extends(c: ChainState, c': ChainState) {
    && c.blocks <= c'.blocks
    && forall h | h in c.txs.at :: h in c'.txs.at && c'.txs.at[h] == c.txs.at[h]
  }

  /** A snapshot is of a good environment with its own exact copies, and the chain has only grown since. */
  ghost predicate WellKept(saved: Saved, copies: Copies) {
    saved.chain.history.Some? && Good(Then(saved)) && Exact(Then(saved), copies)
  }

  ghost predicate Grown(snapshots: map<nat, Saved>, next: nat, c: ChainState) {
    && (forall id | id in snapshots :: id < next && Extends(Then(snapshots[id]).chain, c))
    && (forall i, j | i in snapshots && j in snapshots && i < j ::
          Extends(Then(snapshots[i]).chain, Then(snapshots[j]).chain))
  }

  ghost predicate AllKept(snapshots: map<nat, Saved>, kept: map<nat, Copies>) {
    && kept.Keys == snapshots.Keys
    && forall id | id in kept :: WellKept(snapshots[id], kept[id])
  }

  ghost predicate SnapshotsGood(w: World) {
    && AllKept(w.env.snapshots, w.kept)
    && Grown(w.env.snapshots, w.env.snapshotSeq, w.env.chain)
  }

  ghost predicate Inv(w: World) {
    Good(w.env) && Exact(w.env, w.copies) && SnapshotsGood(w)
  }

  // ---- one entry, one step ------------------------------------------------------------

  /** Where undoing starts from at a place: what was noted there since the last block, or what is there. */
  function Noted(s: EnvState, p: Place): Option<string> {
    if Entry(p) in s.chain.pending then s.chain.pending[Entry(p)] else Get(s.accounts, p)
  }

  lemma AtUnfold(s: EnvState, n: int, p: Place)
    ensures s.At(n, p) == Back(Noted(s, p), s.chain.Later(s.chain.Height(), n), Entry(p))
  {
    var later := s.chain.Later(s.chain.Height(), n);
    assert ([s.chain.pending] + later)[1..] == later;
  }

  lemma RecordNoted(s: EnvState, p: Place, v: string, q: Place)
    requires Normal(p) && Normal(q) && Get(s.accounts, p) != Some(v)
    ensures Noted(s.Record(p, v), q) == Noted(s, q)
  {
    EntryRoundTrip(p);
    EntryRoundTrip(q);
    PutGet(s.accounts, p, v, q);
  }

  lemma RecordLater(s: EnvState, p: Place, v: string, n: int)
    ensures var c, c' := s.chain, s.Record(p, v).chain;
            c'.Height() == c.Height() && c'.Later(c'.Height(), n) == c.Later(c.Height(), n)
  {
    LaterFrame(s.chain, s.Record(p, v).chain, s.chain.Height(), n);
  }

  /** A write, noted first, changes nothing that undoing gives. */
  lemma RecordAt(s: EnvState, p: Place, v: string, n: int, q: Place)
    requires Normal(p) && Normal(q)
    ensures s.Record(p, v).At(n, q) == s.At(n, q)
  {
    if Get(s.accounts, p) == Some(v) {
      RecordAgain(s, p, v);
    } else {
      AtUnfold(s, n, q);
      AtUnfold(s.Record(p, v), n, q);
      RecordNoted(s, p, v, q);
      RecordLater(s, p, v, n);
    }
  }

  lemma ReapplyAt(s: EnvState, parent: Parent, n: int, q: Place)
    requires Normal(q) && Clean(s.accounts)
    ensures s.Reapply(parent).At(n, q) == s.At(n, q)
  {
    var s' := s.Reapply(parent);
    AtUnfold(s, n, q);
    AtUnfold(s', n, q);
    FilledInIs(s.accounts, q);
    LaterFrame(s.chain, s'.chain, s.chain.Height(), n);
  }

  /** Mining keeps every past answer that pruning leaves, and the new block's is the overlay itself. */
  lemma MineAt(s: EnvState, hash: Hash, parentHash: Hash, timestamp: int, txs: seq<Tx>, n: int, q: Place)
    requires s.chain.Journalled() && s.chain.forkHeight >= 0
    ensures var s' := s.Mine(hash, parentHash, timestamp, txs);
            && (s'.chain.historyFrom <= n <= s.chain.Height() ==> s'.At(n, q) == s.At(n, q))
            && (n == s.chain.Height() + 1 ==> s'.At(n, q) == Get(s.accounts, q))
  {
    var s' := s.Mine(hash, parentHash, timestamp, txs);
    var c, c' := s.chain, s'.chain;
    var h := c.Height();
    AddJournalled(c, s.NextBlock(hash, parentHash, timestamp, txs), txs);
    AddHeight(c, s.NextBlock(hash, parentHash, timestamp, txs), txs);
    AtUnfold(s, n, q);
    AtUnfold(s', n, q);
    if c'.historyFrom <= n <= h {
      assert h + 1 in c'.journals.at;
      assert c'.Later(h + 1, n) == [c.pending] + c'.Later(h, n);
      forall k | n < k <= h ensures Lookup(c.journals.at, k) == Lookup(c'.journals.at, k) {
        assert k in c'.journals.at;
      }
      LaterFrame(c, c', h, n);
      assert ([c.pending] + c'.Later(h, n))[1..] == c'.Later(h, n);
    }
  }

  // ---- every step keeps the invariant ----------------------------------------------------

  lemma GoodFrame(s: EnvState, s': EnvState)
    requires Good(s)
    requires s'.chain == s.chain.(pending := s'.chain.pending) && s'.forkBlock == s.forkBlock
    requires Clean(s'.accounts) && Paired(s'.accounts) && Proper(s'.chain.pending)
    ensures Good(s')
  {
    assert s'.chain.Journalled();
    assert s'.chain.Sound();
  }

  lemma ExactFrame(s: EnvState, s': EnvState, copies: Copies)
    requires Exact(s, copies)
    requires s'.chain.historyFrom == s.chain.historyFrom && s'.chain.Height() == s.chain.Height()
    requires forall n, p | Normal(p) :: s'.At(n, p) == s.At(n, p)
    ensures Exact(s', copies)
  {
    forall n | s'.chain.historyFrom <= n <= s'.chain.Height()
      ensures n in copies && forall p | Normal(p) :: s'.At(n, p) == Get(copies[n], p)
    {
      forall p | Normal(p) ensures s'.At(n, p) == Get(copies[n], p) { assert s'.At(n, p) == s.At(n, p); }
    }
  }

  lemma GrownFrame(snapshots: map<nat, Saved>, next: nat, c: ChainState, c': ChainState)
    requires Grown(snapshots, next, c) && Extends(c, c')
    ensures Grown(snapshots, next, c')
  {
    forall id | id in snapshots ensures Extends(Then(snapshots[id]).chain, c') {
      ExtendsTransitive(Then(snapshots[id]).chain, c, c');
    }
  }

  lemma GrownPush(snapshots: map<nat, Saved>, next: nat, c: ChainState, saved: Saved)
    requires Grown(snapshots, next, c) && Then(saved).chain == c
    ensures Grown(snapshots[next := saved], next + 1, c)
  {
  }

  lemma KeptPush(snapshots: map<nat, Saved>, kept: map<nat, Copies>, id: nat, saved: Saved, copies: Copies)
    requires AllKept(snapshots, kept) && WellKept(saved, copies)
    ensures AllKept(snapshots[id := saved], kept[id := copies])
  {
  }

  lemma ExtendsTransitive(a: ChainState, b: ChainState, c: ChainState)
    requires Extends(a, b) && Extends(b, c)
    ensures Extends(a, c)
  {
  }

  /** The step touched only the overlay and the pending notes, and nothing that undoing gives. */
  ghost predicate Quiet(s: EnvState, s': EnvState) {
    && s'.chain == s.chain.(pending := s'.chain.pending)
    && s'.forkBlock == s.forkBlock && s'.snapshots == s.snapshots && s'.snapshotSeq == s.snapshotSeq
    && Clean(s'.accounts) && Paired(s'.accounts) && Proper(s'.chain.pending)
    && forall n, p | Normal(p) :: s'.At(n, p) == s.At(n, p)
  }

  lemma QuietKeeps(w: World, env': EnvState)
    requires Inv(w) && Quiet(w.env, env')
    ensures Inv(w.(env := env'))
  {
    GoodFrame(w.env, env');
    ExactFrame(w.env, env', w.copies);
    GrownFrame(w.env.snapshots, w.env.snapshotSeq, w.env.chain, env'.chain);
  }

  lemma NoteProper(j: Journal, p: Place, before: Option<string>)
    requires Proper(j) && Normal(p)
    ensures Proper(j[Entry(p) := before])
  {
    EntryRoundTrip(p);
  }

  lemma PutClean(o: Accounts, p: Place, v: string)
    requires Clean(o) && Normal(p)
    ensures Clean(Put(o, p, v))
  {
  }

  lemma RecordKeepsClean(s: EnvState, p: Place, v: string)
    requires Clean(s.accounts) && Proper(s.chain.pending) && Normal(p)
    ensures Clean(s.Record(p, v).accounts) && Proper(s.Record(p, v).chain.pending)
  {
    PutClean(s.accounts, p, v);
    NoteProper(s.chain.pending, p, Get(s.accounts, p));
  }

  lemma FieldPaired(o: Accounts, p: Place, v: string)
    requires Paired(o) && (p.field.Code? || p.field.Slot?)
    ensures Paired(Put(o, p, v))
  {
  }

  lemma AccountPaired(o: Accounts, a: string, balance: string, nonce: string)
    requires Paired(o)
    ensures Paired(Put(Put(o, Place(a, Balance), balance), Place(a, Nonce), nonce))
  {
  }

  lemma RecordQuiet(s: EnvState, p: Place, v: string)
    requires Clean(s.accounts) && Paired(s.accounts) && Proper(s.chain.pending)
    requires Normal(p) && (p.field.Code? || p.field.Slot?)
    ensures Quiet(s, s.Record(p, v))
  {
    RecordKeepsClean(s, p, v);
    FieldPaired(s.accounts, p, v);
    forall n, q | Normal(q) ensures s.Record(p, v).At(n, q) == s.At(n, q) { RecordAt(s, p, v, n, q); }
  }

  lemma AccountAt(s: EnvState, a: string, balance: string, nonce: string, n: int, q: Place)
    requires '/' !in a && Normal(q)
    ensures s.WriteAccount(a, balance, nonce).At(n, q) == s.At(n, q)
  {
    RecordAt(s, Place(a, Balance), balance, n, q);
    RecordAt(s.Record(Place(a, Balance), balance), Place(a, Nonce), nonce, n, q);
  }

  lemma AccountKeepsClean(s: EnvState, a: string, balance: string, nonce: string)
    requires Clean(s.accounts) && Proper(s.chain.pending) && '/' !in a
    ensures Clean(s.WriteAccount(a, balance, nonce).accounts)
    ensures Proper(s.WriteAccount(a, balance, nonce).chain.pending)
  {
    RecordKeepsClean(s, Place(a, Balance), balance);
    RecordKeepsClean(s.Record(Place(a, Balance), balance), Place(a, Nonce), nonce);
  }

  lemma AccountFrame(s: EnvState, a: string, balance: string, nonce: string)
    ensures var s' := s.WriteAccount(a, balance, nonce);
            && s'.chain == s.chain.(pending := s'.chain.pending) && s'.forkBlock == s.forkBlock
            && s'.snapshots == s.snapshots && s'.snapshotSeq == s.snapshotSeq
            && s'.accounts == Put(Put(s.accounts, Place(a, Balance), balance), Place(a, Nonce), nonce)
  {
  }

  lemma AccountAtAll(s: EnvState, a: string, balance: string, nonce: string)
    requires '/' !in a
    ensures forall n, q | Normal(q) :: s.WriteAccount(a, balance, nonce).At(n, q) == s.At(n, q)
  {
    forall n, q | Normal(q) ensures s.WriteAccount(a, balance, nonce).At(n, q) == s.At(n, q) {
      AccountAt(s, a, balance, nonce, n, q);
    }
  }

  lemma AccountQuiet(s: EnvState, a: string, balance: string, nonce: string)
    requires Clean(s.accounts) && Paired(s.accounts) && Proper(s.chain.pending) && '/' !in a
    ensures Quiet(s, s.WriteAccount(a, balance, nonce))
  {
    AccountFrame(s, a, balance, nonce);
    AccountKeepsClean(s, a, balance, nonce);
    AccountPaired(s.accounts, a, balance, nonce);
    AccountAtAll(s, a, balance, nonce);
  }

  lemma ReapplyClean(s: EnvState, parent: Parent)
    requires Clean(s.accounts) && Proper(s.chain.pending)
    ensures var s' := s.Reapply(parent);
            Clean(s'.accounts) && Paired(s'.accounts) && Proper(s'.chain.pending)
  {
    var s' := s.Reapply(parent);
    forall e | e in s'.chain.pending ensures Normal(PlaceOf(e)) && Entry(PlaceOf(e)) == e {
      if e !in s.chain.pending {
        var a: string, f: Field :| a in s.accounts && (f == Balance || f == Nonce) && e == Entry(Place(a, f));
        EntryRoundTrip(Place(a, f));
      }
    }
  }

  lemma ReapplyQuiet(s: EnvState, parent: Parent)
    requires Clean(s.accounts) && Proper(s.chain.pending)
    ensures Quiet(s, s.Reapply(parent))
  {
    ReapplyClean(s, parent);
    forall n, q | Normal(q) ensures s.Reapply(parent).At(n, q) == s.At(n, q) { ReapplyAt(s, parent, n, q); }
  }

  // ---- mining --------------------------------------------------------------------------------

  lemma MineExtends(c: ChainState, block: Block, added: seq<Tx>)
    requires c.Fits(block, added)
    ensures Extends(c, c.Add(block, added))
  {
    AddHeight(c, block, added);
    forall h | h in c.txs.at ensures h in SetAll(c.txs, added).at && SetAll(c.txs, added).at[h] == c.txs.at[h] {
      SetAllKeeps(c.txs, added, h);
    }
  }

  lemma MineGood(s: EnvState, hash: Hash, parentHash: Hash, timestamp: int, txs: seq<Tx>)
    requires Good(s) && s.chain.Fits(s.NextBlock(hash, parentHash, timestamp, txs), txs)
    ensures Good(s.Mine(hash, parentHash, timestamp, txs))
  {
    var block := s.NextBlock(hash, parentHash, timestamp, txs);
    AddSound(s.chain, block, txs);
    AddJournalled(s.chain, block, txs);
    AddProper(s.chain, block, txs);
    AddHeight(s.chain, block, txs);
  }

  lemma MineExact(s: EnvState, hash: Hash, parentHash: Hash, timestamp: int, txs: seq<Tx>, copies: Copies)
    requires s.chain.Journalled() && s.chain.forkHeight >= 0 && Exact(s, copies)
    ensures var s' := s.Mine(hash, parentHash, timestamp, txs);
            Exact(s', copies[s'.chain.Height() := s.accounts])
  {
    var s' := s.Mine(hash, parentHash, timestamp, txs);
    var block := s.NextBlock(hash, parentHash, timestamp, txs);
    AddHeight(s.chain, block, txs);
    var copies' := copies[s'.chain.Height() := s.accounts];
    forall n | s'.chain.historyFrom <= n <= s'.chain.Height()
      ensures n in copies' && forall p | Normal(p) :: s'.At(n, p) == Get(copies'[n], p)
    {
      AddJournalled(s.chain, block, txs);
      forall p | Normal(p) ensures s'.At(n, p) == Get(copies'[n], p) {
        MineAt(s, hash, parentHash, timestamp, txs, n, p);
      }
    }
  }

  lemma MineKeeps(w: World, op: Op, parent: Parent)
    requires Inv(w) && op.Mine? && Enabled(w, op)
    ensures Inv(Step(w, op, parent))
  {
    var block := w.env.NextBlock(op.hash, op.parentHash, op.timestamp, op.txs);
    MineGood(w.env, op.hash, op.parentHash, op.timestamp, op.txs);
    MineExact(w.env, op.hash, op.parentHash, op.timestamp, op.txs, w.copies);
    MineExtends(w.env.chain, block, op.txs);
    GrownFrame(w.env.snapshots, w.env.snapshotSeq, w.env.chain, w.env.chain.Add(block, op.txs));
  }

  // ---- snapshots, head syncs and restarts ---------------------------------------------------------

  lemma SnapshotKept(s: EnvState, copies: Copies)
    requires Good(s) && Exact(s, copies)
    ensures var saved := s.TakeSnapshot().snapshots[s.snapshotSeq];
            Then(saved).chain == s.chain && WellKept(saved, copies)
  {
    RestoreExport(s.chain);
    var taken := Then(s.TakeSnapshot().snapshots[s.snapshotSeq]);
    GoodFrame(s, taken);
    ExactFrame(s, taken, copies);
  }

  lemma SnapshotKeeps(w: World, parent: Parent)
    requires Inv(w)
    ensures Inv(Step(w, Snapshot, parent))
  {
    var env' := w.env.TakeSnapshot();
    SnapshotKept(w.env, w.copies);
    GrownPush(w.env.snapshots, w.env.snapshotSeq, w.env.chain, env'.snapshots[w.env.snapshotSeq]);
    KeptPush(w.env.snapshots, w.kept, w.env.snapshotSeq, env'.snapshots[w.env.snapshotSeq], w.copies);
    GoodFrame(w.env, env');
    ExactFrame(w.env, env', w.copies);
  }

  lemma AdvancedGood(s: EnvState, head: int)
    requires Good(s) && head > s.chain.Height()
    ensures Good(s.(chain := s.chain.AdvanceForkTo(head), forkBlock := head))
  {
    AdvanceKeeps(s.chain, head);
  }

  lemma AdvancedExact(s: EnvState, head: int)
    requires head > s.chain.Height()
    ensures Exact(s.(chain := s.chain.AdvanceForkTo(head), forkBlock := head), map[head := s.accounts])
  {
    var moved := s.(chain := s.chain.AdvanceForkTo(head), forkBlock := head);
    forall p | Normal(p) ensures moved.At(head, p) == Get(s.accounts, p) { AtUnfold(moved, head, p); }
  }

  lemma SyncKeeps(w: World, head: int, parent: Parent)
    requires Inv(w)
    ensures Inv(Step(w, SyncToHead(head), parent))
  {
    if head > w.env.forkBlock && head > w.env.chain.Height() {
      var moved := w.env.(chain := w.env.chain.AdvanceForkTo(head), forkBlock := head);
      AdvancedGood(w.env, head);
      AdvancedExact(w.env, head);
      GrownFrame(w.env.snapshots, w.env.snapshotSeq, w.env.chain, moved.chain);
      ReapplyQuiet(moved, parent);
      QuietKeeps(World(moved, map[head := w.env.accounts], w.kept), moved.Reapply(parent));
    }
  }

  lemma RestartKeeps(w: World, parent: Parent)
    requires Inv(w)
    ensures Inv(Step(w, Restart, parent))
  {
    RestoreExport(w.env.chain);
    RestoredKeepsFields(w.env.accounts, parent, w.env.forkBlock);
    var env' := w.env.Restart(parent);
    SameFieldsPaired(w.env.accounts, env'.accounts);
    GoodFrame(w.env, env');
    ExactFrame(w.env, env', w.copies);
  }

  // ---- reverting -----------------------------------------------------------------------------

  lemma PopIs(c: ChainState)
    requires BlocksSound(c.blocks) && c.blocks != []
    ensures c.Pop().forkHeight == c.forkHeight && c.Pop().blocks == c.blocks[..|c.blocks| - 1]
    ensures BlocksSound(c.Pop().blocks)
  {
  }

  lemma PopStopsAt(c: ChainState, popped: ChainState, kept: seq<Block>, target: int)
    requires c.blocks != [] && c.Height() > target && kept <= popped.blocks
    requires popped.blocks == c.blocks[..|c.blocks| - 1] && popped.forkHeight == c.forkHeight
    ensures StopsAt(popped, kept, target) <==> StopsAt(c, kept, target)
  {
  }

  lemma StopsHere(c: ChainState, kept: seq<Block>, target: int)
    requires BlocksSound(c.blocks) && kept <= c.blocks && (c.blocks == [] || c.Height() <= target)
    ensures c.blocks == kept <==> StopsAt(c, kept, target)
  {
    if |kept| < |c.blocks| {
      assert c.blocks[|kept|].number <= c.blocks[|c.blocks| - 1].number;
    }
  }

  /** The rollback `revert` asks for leaves exactly the snapshot's blocks when, and only when, it stops there. */
  lemma {:induction false} RollbackStops(c: ChainState, kept: seq<Block>, target: int)
    requires BlocksSound(c.blocks) && kept <= c.blocks
    ensures c.RollbackTo(target).blocks == kept <==> StopsAt(c, kept, target)
    decreases |c.blocks|
  {
    if c.blocks == [] || c.Height() <= target {
      StopsHere(c, kept, target);
    } else if kept == c.blocks {
      RollbackShortens(c.Pop(), target);
    } else {
      PopIs(c);
      RollbackStops(c.Pop(), kept, target);
      PopStopsAt(c, c.Pop(), kept, target);
    }
  }

  lemma {:induction false} RollbackShortens(c: ChainState, target: int)
    ensures |c.RollbackTo(target).blocks| <= |c.blocks|
    ensures c.RollbackTo(target).forkHeight == c.forkHeight
    decreases |c.blocks|
  {
    if c.blocks != [] && c.Height() > target { RollbackShortens(c.Pop(), target); }
  }

  lemma {:induction false} RollbackKeepsTxs(c: ChainState, target: int, h: Hash)
    ensures h in c.RollbackTo(target).txs.at ==> h in c.txs.at && c.RollbackTo(target).txs.at[h] == c.txs.at[h]
    decreases |c.blocks|
  {
    if c.blocks != [] && c.Height() > target {
      DeleteAllOnly(c.txs, c.blocks[|c.blocks| - 1].transactions, h);
      RollbackKeepsTxs(c.Pop(), target, h);
    }
  }

  /** Rolled back and given the snapshot's history, the chain is the snapshot's chain. */
  lemma RevertedChain(c: ChainState, data: Exported, target: int)
    requires data.history.Some? && c.Sound() && Restore(data).Sound()
    requires Extends(Restore(data), c) && c.forkHeight == data.forkHeight
    requires StopsAt(c, data.blocks, target)
    ensures c.RollbackTo(target).ResetHistory(data.history) == Restore(data)
  {
    var back, was := c.RollbackTo(target), Restore(data);
    RollbackStops(c, data.blocks, target);
    RollbackSound(c, target);
    RollbackShortens(c, target);
    SameTxs(c, back, was, target);
  }

  lemma SameTxs(c: ChainState, back: ChainState, was: ChainState, target: int)
    requires back == c.RollbackTo(target) && back.blocks == was.blocks && Extends(was, c)
    requires back.txs.Valid() && was.txs.Valid()
    requires back.txs.keys == AllTxs(back.blocks) && was.txs.keys == AllTxs(was.blocks)
    ensures back.txs == was.txs
  {
    forall h | h in back.txs.at && h in was.txs.at ensures back.txs.at[h] == was.txs.at[h] {
      RollbackKeepsTxs(c, target, h);
    }
    SameEntries(back.txs, was.txs);
  }

  /** What the rollback amounts to when it lands: the snapshot's chain and overlay, the older snapshots. */
  function RolledBack(s: EnvState, id: nat): EnvState
    requires id in s.snapshots
  {
    s.RollBack(id).(chain := Restore(s.snapshots[id].chain))
  }

  lemma RevertsToChain(saved: Saved, copies: Copies, c: ChainState, target: int)
    requires WellKept(saved, copies) && c.Sound() && Extends(Then(saved).chain, c)
    requires c.forkHeight == saved.chain.forkHeight && StopsAt(c, saved.chain.blocks, target)
    ensures c.RollbackTo(target).ResetHistory(saved.chain.history) == Restore(saved.chain)
  {
    RevertedChain(c, saved.chain, target);
  }

  /** The saved facts, in the form the rollback needs them. */
  lemma LandingFacts(s: EnvState, id: nat, saved: Saved, target: int)
    requires id in s.snapshots && saved == s.snapshots[id] && Lands(s, id)
    requires target == saved.chain.forkHeight + |saved.chain.blocks|
    ensures s.chain.forkHeight == saved.chain.forkHeight && StopsAt(s.chain, saved.chain.blocks, target)
  {
  }

  lemma RollBackChain(s: EnvState, id: nat, saved: Saved, target: int)
    requires id in s.snapshots && saved == s.snapshots[id] && target == saved.chain.forkHeight + |saved.chain.blocks|
    ensures s.RollBack(id).chain == s.chain.RollbackTo(target).ResetHistory(saved.chain.history)
  {
  }

  lemma SameRolledBack(s: EnvState, id: nat, saved: Saved, back: EnvState, chain: ChainState)
    requires id in s.snapshots && saved == s.snapshots[id] && back == s.RollBack(id)
    requires chain == Restore(saved.chain) && back.chain == chain
    ensures back == RolledBack(s, id)
  {
    assert back == back.(chain := chain);
  }

  lemma RollBackIs(s: EnvState, id: nat, copies: Copies, saved: Saved, target: int)
    requires id in s.snapshots && saved == s.snapshots[id] && Lands(s, id) && s.chain.Sound()
    requires target == saved.chain.forkHeight + |saved.chain.blocks|
    requires WellKept(saved, copies) && Extends(Then(saved).chain, s.chain)
    ensures s.RollBack(id) == RolledBack(s, id)
  {
    LandingFacts(s, id, saved, target);
    RevertsToChain(saved, copies, s.chain, target);
    RollBackChain(s, id, saved, target);
    SameRolledBack(s, id, saved, s.RollBack(id), Restore(saved.chain));
  }

  lemma RevertReapplies(s: EnvState, id: nat, back: EnvState, parent: Parent)
    requires id in s.snapshots && back == s.RollBack(id)
    ensures s.Revert(id, parent) == back.Reapply(parent)
  {
  }

  lemma RevertIs(s: EnvState, id: nat, copies: Copies, parent: Parent)
    requires id in s.snapshots && Lands(s, id) && s.chain.Sound()
    requires WellKept(s.snapshots[id], copies) && Extends(Then(s.snapshots[id]).chain, s.chain)
    ensures s.Revert(id, parent) == RolledBack(s, id).Reapply(parent)
  {
    var saved := s.snapshots[id];
    RollBackIs(s, id, copies, saved, saved.chain.forkHeight + |saved.chain.blocks|);
    RevertReapplies(s, id, s.RollBack(id), parent);
  }

  lemma RevertKeeps(w: World, id: nat, parent: Parent)
    requires Inv(w) && Enabled(w, Revert(id))
    ensures Inv(Step(w, Revert(id), parent))
  {
    if id in w.env.snapshots {
      var saved := w.env.snapshots[id];
      var back := RolledBack(w.env, id);
      assert WellKept(saved, w.kept[id]);
      RevertIs(w.env, id, w.kept[id], parent);
      GoodFrame(Then(saved), back);
      ExactFrame(Then(saved), back, w.kept[id]);
      ReapplyQuiet(back, parent);
      QuietKeeps(World(back, w.kept[id], Older(w.kept, id)), back.Reapply(parent));
    }
  }

  // ---- whole runs ------------------------------------------------------------------------------

  lemma StepKeeps(w: World, op: Op, parent: Parent)
    requires Inv(w) && Enabled(w, op)
    ensures Inv(Step(w, op, parent))
  {
    match op
    case WriteField(p, v) =>
      RecordQuiet(w.env, p, v);
      QuietKeeps(w, w.env.Record(p, v));
    case WriteAccount(a, balance, nonce) =>
      AccountQuiet(w.env, a, balance, nonce);
      QuietKeeps(w, w.env.WriteAccount(a, balance, nonce));
    case Mine(_, _, _, _) => MineKeeps(w, op, parent);
    case MoveClock(seconds) =>
      var env' := w.env.(timeOffset := w.env.timeOffset + seconds);
      forall n, p | Normal(p) ensures env'.At(n, p) == w.env.At(n, p) {}
      QuietKeeps(w, env');
    case Snapshot => SnapshotKeeps(w, parent);
    case Revert(id) => RevertKeeps(w, id, parent);
    case SyncToHead(head) => SyncKeeps(w, head, parent);
    case Restart => RestartKeeps(w, parent);
  }

  /** `trace` is a run: each world is the one before it, one enabled step on. */
  ghost predicate IsRun(trace: seq<World>, ops: seq<Op>, parent: Parent) {
    && |trace| == |ops| + 1
    && forall i | 0 <= i < |ops| ::
         trace[i].env.chain.txs.Valid() && Enabled(trace[i], ops[i]) && trace[i + 1] == Step(trace[i], ops[i], parent)
  }

  lemma {:induction false} RunKeeps(trace: seq<World>, ops: seq<Op>, parent: Parent, k: nat)
    requires IsRun(trace, ops, parent) && Inv(trace[0]) && k < |trace|
    ensures Inv(trace[k])
  {
    if k > 0 {
      RunKeeps(trace, ops, parent, k - 1);
      StepKeeps(trace[k - 1], ops[k - 1], parent);
    }
  }

  lemma InitialGood(forkBlock: nat)
    ensures Inv(Initial(forkBlock))
  {
    var w := Initial(forkBlock);
    forall p | Normal(p) ensures w.env.At(forkBlock, p) == None { AtUnfold(w.env, forkBlock, p); }
  }

  /**
   * Time travel is exact. After any run from a fresh fork, and for every block history still
   * reaches, undoing the journals over the overlay gives, field by field, the copy of the overlay
   * that was taken when that block was added or history was last reset.
   */
  lemma TimeTravelExact(forkBlock: nat, trace: seq<World>, ops: seq<Op>, parent: Parent, k: nat, n: int, p: Place)
    requires IsRun(trace, ops, parent) && trace[0] == Initial(forkBlock) && k < |trace|
    requires trace[k].env.chain.historyFrom <= n <= trace[k].env.chain.Height() && Normal(p)
    ensures n in trace[k].copies && trace[k].env.At(n, p) == Get(trace[k].copies[n], p)
  {
    InitialGood(forkBlock);
    RunKeeps(trace, ops, parent, k);
  }
}
