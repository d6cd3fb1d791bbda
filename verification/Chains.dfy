/** A chain of local blocks (src/chain.ts): its indices answer what a search would, its journals reach back to `historyFrom`. */
module Chains {
  import opened Options
  import opened Ordered
  import opened Overlays
  import Logs

  /** How many blocks of journals are kept. */
  const HISTORY_BLOCKS := 1024

  datatype Tx = Tx(hash: Hash, blockNumber: int, logs: seq<Logs.Log>)
  datatype Block = Block(number: int, hash: Hash, parentHash: Hash, timestamp: int, transactions: seq<Hash>)

  /** `blocks` is a JSON object, so its keys come back in ascending order. */
  datatype History = History(from: int, pending: Journal, blocks: OMap<int, Journal>)
  datatype Exported = Exported(forkHeight: int, blocks: seq<Block>, txs: seq<Tx>, history: Option<History>)

  /** A hash as the number its hex digits write, which is what lower-casing compares. */
  type Hash = nat

  function Max(a: int, b: int): int { if a > b then a else b }

  // ---- linear searches, which the three indices stand in for -----------------

  function FindNumber(blocks: seq<Block>, number: int): Option<Block> {
    if blocks == [] then None
    else if blocks[|blocks| - 1].number == number then Some(blocks[|blocks| - 1])
    else FindNumber(blocks[..|blocks| - 1], number)
  }

  function FindHash(blocks: seq<Block>, hash: Hash): Option<Block> {
    if blocks == [] then None
    else if blocks[|blocks| - 1].hash == hash then Some(blocks[|blocks| - 1])
    else FindHash(blocks[..|blocks| - 1], hash)
  }

  /** The hashes of every transaction, in block order. */
  function AllTxs(blocks: seq<Block>): seq<Hash> {
    if blocks == [] then [] else AllTxs(blocks[..|blocks| - 1]) + blocks[|blocks| - 1].transactions
  }

  // ---- the chain as a value ------------------------------------------------------

  datatype ChainState = ChainState(forkHeight: int, blocks: seq<Block>, txs: OMap<Hash, Tx>,
                                   journals: OMap<int, Journal>, pending: Journal, historyFrom: int)
  {
    function Height(): int {
      Max(if blocks == [] then 0 else blocks[|blocks| - 1].number, forkHeight)
    }

    function Note(entry: string, before: Option<string>): ChainState {
      if entry in pending then this else this.(pending := pending[entry := before])
    }

    /** The stored journals of the blocks from `top` down to just above `number`. */
    function Later(top: int, number: int): (js: seq<Journal>)
      decreases top - number
    {
      if top <= number then []
      else (if top in journals.at then [journals.at[top]] else []) + Later(top - 1, number)
    }

    function JournalsAfter(number: int): seq<Journal> {
      [pending] + Later(Height(), number)
    }

    function AdvanceForkTo(height: int): ChainState {
      if height <= Height() then this
      else this.(forkHeight := height, journals := OMap([], map[]), pending := map[], historyFrom := height)
    }

    function Add(block: Block, added: seq<Tx>): ChainState {
      var c := this.(blocks := blocks + [block], txs := SetAll(txs, added),
                     journals := journals.Set(block.number, pending), pending := map[]);
      c.Prune()
    }

    function Prune(): ChainState
      decreases |journals.keys|
    {
      if |journals.keys| <= HISTORY_BLOCKS then this
      else
        var oldest := journals.keys[0];
        this.(journals := OMap(journals.keys[1..], journals.at - {oldest}),
              historyFrom := Max(historyFrom, oldest)).Prune()
    }

    function Pop(): ChainState
      requires blocks != []
    {
      var block := blocks[|blocks| - 1];
      this.(blocks := blocks[..|blocks| - 1], txs := DeleteAll(txs, block.transactions),
            journals := journals.Delete(block.number))
    }

    function RollbackTo(height: int): ChainState
      decreases |blocks|
    {
      if blocks != [] && Height() > height then Pop().RollbackTo(height) else this
    }

    function ResetHistory(history: Option<History>): ChainState {
      match history
      case None => this.(pending := map[], journals := OMap([], map[]), historyFrom := Height())
      case Some(h) => this.(pending := h.pending, journals := h.blocks, historyFrom := h.from)
    }

    function Export(): Exported
      requires txs.Valid()
    {
      Exported(forkHeight, blocks, txs.Values(), Some(History(historyFrom, pending, ThroughObject(journals))))
    }

    // ---- what every operation keeps --------------------------------------------

    /** Block numbers and hashes tell blocks apart, and the transactions are exactly the blocks'. */
    ghost predicate Sound() {
      SoundOf(forkHeight, blocks, txs)
    }

    /** A block that may be added: numbered above the chain, with hashes nothing here has. */
    ghost predicate Fits(block: Block, added: seq<Tx>) {
      && block.number > Height()
      && FindHash(blocks, block.hash).None?
      && block.transactions == Hashes(added)
      && Fresh(txs, added)
      && (forall i | 0 <= i < |added| :: added[i].blockNumber == block.number)
    }

    /** There is a journal for every block above `historyFrom`, oldest first, and never too many. */
    ghost predicate Journalled() {
      JournalledOf(journals, historyFrom, Height())
    }

    ghost predicate AllProper() {
      Proper(pending) && ProperJournals(journals.at)
    }
  }

  /** Numbers rise along the list and no two blocks share a hash. */
  ghost predicate BlocksSound(blocks: seq<Block>) {
    && (forall i | 0 <= i < |blocks| :: blocks[i].number > 0)
    && (forall i, j | 0 <= i < j < |blocks| :: blocks[i].number < blocks[j].number)
    && (forall i, j | 0 <= i < j < |blocks| :: blocks[i].hash != blocks[j].hash)
  }

  /** Keyed by exactly the numbers from `lo` up to `hi`, in that order. */
  ghost predicate Covers(m: OMap<int, Journal>, lo: int, hi: int) {
    m.keys == Range(lo, hi) && forall n :: n in m.at <==> lo <= n < hi
  }

  ghost predicate JournalledOf(journals: OMap<int, Journal>, historyFrom: int, height: int) {
    && 0 <= historyFrom <= height
    && Covers(journals, historyFrom + 1, height + 1)
    && |journals.keys| <= HISTORY_BLOCKS
  }

  ghost predicate ProperJournals(journals: map<int, Journal>) {
    forall n | n in journals :: Proper(journals[n])
  }

  ghost predicate SoundOf(forkHeight: int, blocks: seq<Block>, txs: OMap<Hash, Tx>) {
    forkHeight >= 0 && BlocksSound(blocks) && TxsSound(blocks, txs)
  }

  /** The stored transactions are the blocks', in block order, each naming its block. */
  ghost predicate TxsSound(blocks: seq<Block>, txs: OMap<Hash, Tx>) {
    && txs.Valid()
    && txs.keys == AllTxs(blocks)
    && (forall h | h in txs.at :: txs.at[h].hash == h)
    && (forall i, h | 0 <= i < |blocks| && h in blocks[i].transactions :: NamesBlock(blocks[i], txs, h))
  }

  ghost predicate NamesBlock(block: Block, txs: OMap<Hash, Tx>, h: Hash) {
    h in txs.at && txs.at[h].blockNumber == block.number
  }

  function Hashes(ts: seq<Tx>): (r: seq<Hash>)
    ensures |r| == |ts| && forall i | 0 <= i < |ts| :: r[i] == ts[i].hash
  {
    seq(|ts|, i requires 0 <= i < |ts| => ts[i].hash)
  }

  function SetAll(txs: OMap<Hash, Tx>, added: seq<Tx>): OMap<Hash, Tx>
    decreases |added|
  {
    if added == [] then txs else SetAll(txs.Set(added[0].hash, added[0]), added[1..])
  }

  function DeleteAll(txs: OMap<Hash, Tx>, hashes: seq<Hash>): OMap<Hash, Tx>
    decreases |hashes|
  {
    if hashes == [] then txs else DeleteAll(txs.Delete(hashes[0]), hashes[1..])
  }

  function Empty(forkHeight: int): ChainState {
    ChainState(forkHeight, [], OMap([], map[]), OMap([], map[]), map[], forkHeight)
  }

  function Restore(data: Exported): ChainState {
    Empty(data.forkHeight)
    .(blocks := data.blocks, txs := SetAll(OMap([], map[]), data.txs))
    .ResetHistory(data.history)
  }

  // ---- the indices --------------------------------------------------------------

  lemma {:induction false} FindNumberIs(blocks: seq<Block>, number: int)
    ensures match FindNumber(blocks, number)
            case Some(b) => b in blocks && b.number == number
            case None => forall b | b in blocks :: b.number != number
  {
    if blocks != [] { FindNumberIs(blocks[..|blocks| - 1], number); }
  }

  lemma {:induction false} FindHashIs(blocks: seq<Block>, hash: Hash)
    ensures match FindHash(blocks, hash)
            case Some(b) => b in blocks && b.hash == hash
            case None => forall b | b in blocks :: b.hash != hash
  {
    if blocks != [] { FindHashIs(blocks[..|blocks| - 1], hash); }
  }

  /** None of the transactions is stored yet, and no two are the same. */
  ghost predicate Fresh(txs: OMap<Hash, Tx>, added: seq<Tx>) {
    && (forall i | 0 <= i < |added| :: added[i].hash !in txs.at)
    && (forall i, j | 0 <= i < j < |added| :: added[i].hash != added[j].hash)
  }

  lemma {:induction false} SetAllFresh(txs: OMap<Hash, Tx>, added: seq<Tx>)
    requires txs.Valid() && Fresh(txs, added)
    ensures SetAll(txs, added).Valid()
    ensures SetAll(txs, added).keys == txs.keys + Hashes(added)
    decreases |added|
  {
    if added == [] {
      assert txs.keys + Hashes(added) == txs.keys;
    } else {
      var one := txs.Set(added[0].hash, added[0]);
      SetNew(txs, added[0].hash, added[0]);
      SetAllFresh(one, added[1..]);
      HashesSplit(txs.keys, added);
    }
  }

  lemma HashesSplit(keys: seq<Hash>, added: seq<Tx>)
    requires added != []
    ensures keys + [added[0].hash] + Hashes(added[1..]) == keys + Hashes(added)
  {
  }

  lemma {:induction false} SetAllKeeps(txs: OMap<Hash, Tx>, added: seq<Tx>, h: Hash)
    requires h in txs.at && forall i | 0 <= i < |added| :: added[i].hash != h
    ensures h in SetAll(txs, added).at && SetAll(txs, added).at[h] == txs.at[h]
    decreases |added|
  {
    if added != [] { SetAllKeeps(txs.Set(added[0].hash, added[0]), added[1..], h); }
  }

  lemma {:induction false} SetAllStores(txs: OMap<Hash, Tx>, added: seq<Tx>, i: nat)
    requires Fresh(txs, added) && i < |added|
    ensures added[i].hash in SetAll(txs, added).at && SetAll(txs, added).at[added[i].hash] == added[i]
    decreases |added|
  {
    var one := txs.Set(added[0].hash, added[0]);
    if i == 0 {
      SetAllKeeps(one, added[1..], added[0].hash);
    } else {
      SetAllStores(one, added[1..], i - 1);
    }
  }

  lemma {:induction false} DeleteAllLast(txs: OMap<Hash, Tx>, prefix: seq<Hash>, last: seq<Hash>)
    requires txs.Valid() && txs.keys == prefix + last
    ensures DeleteAll(txs, last).Valid()
    ensures DeleteAll(txs, last).keys == prefix
    ensures forall h | h in prefix :: h in txs.at && h in DeleteAll(txs, last).at
                                   && DeleteAll(txs, last).at[h] == txs.at[h]
    decreases |last|
  {
    forall h | h in prefix ensures h in txs.at { assert h in txs.keys; }
    if last == [] {
      assert prefix == txs.keys;
    } else {
      var fewer := txs.Delete(last[0]);
      assert txs.keys[|prefix|] == last[0];
      DeleteAt(txs, |prefix|);
      assert fewer.keys == prefix + last[1..];
      DeleteAllLast(fewer, prefix, last[1..]);
    }
  }

  lemma {:induction false} InAllTxs(blocks: seq<Block>, h: Hash)
    ensures h in AllTxs(blocks) <==> exists i | 0 <= i < |blocks| :: h in blocks[i].transactions
  {
    if blocks != [] {
      InAllTxs(blocks[..|blocks| - 1], h);
    }
  }

  /** A stored transaction is either one that was stored before or one of those added. */
  lemma {:induction false} SetAllOnly(txs: OMap<Hash, Tx>, added: seq<Tx>, h: Hash)
    requires Fresh(txs, added)
    ensures h in SetAll(txs, added).at ==>
              || (h in txs.at && SetAll(txs, added).at[h] == txs.at[h])
              || (h in Hashes(added) && SetAll(txs, added).at[h] == added[IndexOf(Hashes(added), h)])
    decreases |added|
  {
    if h in Hashes(added) {
      SetAllStores(txs, added, IndexOf(Hashes(added), h));
    } else if h in txs.at {
      assert forall i | 0 <= i < |added| :: Hashes(added)[i] != h;
      SetAllKeeps(txs, added, h);
    } else if added != [] {
      var one := txs.Set(added[0].hash, added[0]);
      assert Hashes(added)[0] != h;
      assert h !in Hashes(added[1..]) by { assert Hashes(added[1..]) == Hashes(added)[1..]; }
      SetAllOnly(one, added[1..], h);
    }
  }

  lemma SetAllSound(blocks: seq<Block>, txs: OMap<Hash, Tx>, block: Block, added: seq<Tx>)
    requires TxsSound(blocks, txs) && Fresh(txs, added)
    requires block.transactions == Hashes(added)
    requires forall i | 0 <= i < |added| :: added[i].blockNumber == block.number
    ensures TxsSound(blocks + [block], SetAll(txs, added))
  {
    SetAllFresh(txs, added);
    var txs', blocks' := SetAll(txs, added), blocks + [block];
    assert blocks'[..|blocks|] == blocks;
    forall h | h in txs'.at ensures txs'.at[h].hash == h { SetAllOnly(txs, added, h); }
    forall i, h | 0 <= i < |blocks'| && h in blocks'[i].transactions ensures NamesBlock(blocks'[i], txs', h) {
      if i == |blocks| {
        SetAllStores(txs, added, IndexOf(Hashes(added), h));
      } else {
        assert NamesBlock(blocks[i], txs, h);
        SetAllKeeps(txs, added, h);
      }
    }
  }

  lemma PushBlocksSound(blocks: seq<Block>, block: Block)
    requires BlocksSound(blocks) && FindHash(blocks, block.hash).None?
    requires block.number > 0 && (blocks != [] ==> block.number > blocks[|blocks| - 1].number)
    ensures BlocksSound(blocks + [block])
  {
    FindHashIs(blocks, block.hash);
    var more := blocks + [block];
    forall i, j | 0 <= i < j < |more| ensures more[i].number < more[j].number && more[i].hash != more[j].hash {
      assert more[i] == blocks[i] && blocks[i] in blocks;
      if j < |blocks| { assert more[j] == blocks[j]; }
    }
  }

  lemma AddSound(c: ChainState, block: Block, added: seq<Tx>)
    requires c.Sound() && c.Fits(block, added)
    ensures c.Add(block, added).Sound()
    ensures c.Add(block, added).blocks == c.blocks + [block]
    ensures c.Add(block, added).Height() == block.number
  {
    SetAllSound(c.blocks, c.txs, block, added);
    PushBlocksSound(c.blocks, block);
    PruneKeepsBlocks(c.(blocks := c.blocks + [block], txs := SetAll(c.txs, added),
                        journals := c.journals.Set(block.number, c.pending), pending := map[]));
  }

  lemma {:induction false} PruneKeepsBlocks(c: ChainState)
    ensures c.Prune() == c.(journals := c.Prune().journals, historyFrom := c.Prune().historyFrom)
    decreases |c.journals.keys|
  {
    if |c.journals.keys| > HISTORY_BLOCKS {
      var oldest := c.journals.keys[0];
      PruneKeepsBlocks(c.(journals := OMap(c.journals.keys[1..], c.journals.at - {oldest}),
                          historyFrom := Max(c.historyFrom, oldest)));
    }
  }

  lemma PopTxsSound(blocks: seq<Block>, txs: OMap<Hash, Tx>)
    requires blocks != [] && TxsSound(blocks, txs)
    ensures TxsSound(blocks[..|blocks| - 1], DeleteAll(txs, blocks[|blocks| - 1].transactions))
  {
    var n := |blocks| - 1;
    var rest, last := blocks[..n], blocks[n].transactions;
    DeleteAllLast(txs, AllTxs(rest), last);
    var txs' := DeleteAll(txs, last);
    forall i, h | 0 <= i < n && h in rest[i].transactions ensures NamesBlock(rest[i], txs', h) {
      assert NamesBlock(blocks[i], txs, h);
      InAllTxs(rest, h);
    }
    forall h | h in txs'.at ensures txs'.at[h].hash == h { DeleteAllOnly(txs, last, h); }
  }

  lemma {:induction false} DeleteAllOnly(txs: OMap<Hash, Tx>, hashes: seq<Hash>, h: Hash)
    ensures h in DeleteAll(txs, hashes).at ==> h in txs.at && DeleteAll(txs, hashes).at[h] == txs.at[h]
    decreases |hashes|
  {
    if hashes != [] { DeleteAllOnly(txs.Delete(hashes[0]), hashes[1..], h); }
  }

  lemma PopSound(c: ChainState)
    requires c.Sound() && c.blocks != []
    ensures c.Pop().Sound()
  {
    PopTxsSound(c.blocks, c.txs);
  }

  lemma {:induction false} RollbackSound(c: ChainState, height: int)
    requires c.Sound()
    ensures c.RollbackTo(height).Sound()
    ensures c.RollbackTo(height).blocks <= c.blocks
    ensures c.RollbackTo(height).Height() <= c.Height()
    decreases |c.blocks|
  {
    if c.blocks != [] && c.Height() > height {
      PopSound(c);
      RollbackSound(c.Pop(), height);
    }
  }

  lemma AdvanceHeight(c: ChainState, height: int)
    ensures c.AdvanceForkTo(height).Height() == Max(c.Height(), height)
  {
  }

  /** Height never falls but by a rollback: adding raises it, and the fork point only moves up. */
  lemma HeightOnlyRises(c: ChainState, block: Block, added: seq<Tx>, height: int)
    requires c.Sound() && c.Fits(block, added)
    ensures c.Add(block, added).Height() > c.Height()
    ensures c.AdvanceForkTo(height).Height() == Max(c.Height(), height)
  {
    AddHeight(c, block, added);
    AdvanceHeight(c, height);
  }

  // ---- export and restore -----------------------------------------------------------

  lemma StoreAgain(txs: OMap<Hash, Tx>, e: OMap<Hash, Tx>, vs: seq<Tx>)
    requires txs.Valid() && e == OMap([], map[]) && Fresh(e, vs) && Hashes(vs) == txs.keys
    requires forall i | 0 <= i < |vs| :: txs.keys[i] in txs.at && vs[i] == txs.at[txs.keys[i]]
    ensures SetAll(e, vs) == txs
  {
    SetAllFresh(e, vs);
    assert e.keys + Hashes(vs) == txs.keys;
    var r := SetAll(e, vs);
    forall h | h in r.at && h in txs.at ensures r.at[h] == txs.at[h] {
      SetAllOnly(e, vs, h);
      var i := IndexOf(txs.keys, h);
      assert vs[i] == txs.at[txs.keys[i]];
    }
    SameEntries(r, txs);
  }

  lemma RestoreTxs(txs: OMap<Hash, Tx>)
    requires txs.Valid() && forall h | h in txs.at :: txs.at[h].hash == h
    ensures SetAll(OMap([], map[]), txs.Values()) == txs
  {
    var e: OMap<Hash, Tx> := OMap([], map[]);
    StoreAgain(txs, e, txs.Values());
  }

  /**
   * A chain restored from its own export is the same chain, insertion orders included, so every
   * later lookup, journal and pruning is the same too.
   */
  lemma RestoreExport(c: ChainState)
    requires c.Sound() && c.Journalled()
    ensures Restore(c.Export()) == c
  {
    RestoreTxs(c.txs);
    AscendingKeepsIncreasing(c.journals.keys);
  }

  /** A chain stored without its history starts one where it stands: nothing before that can be undone to. */
  lemma RestoredWithoutHistory(data: Exported)
    requires data.history.None?
    ensures var c := Restore(data);
            && c.forkHeight == data.forkHeight && c.blocks == data.blocks
            && c.historyFrom == c.Height() && c.JournalsAfter(c.Height()) == [map[]]
  {
  }

  // ---- the journals ---------------------------------------------------------------

  lemma {:induction false} LaterFrame(c: ChainState, c': ChainState, top: int, number: int)
    requires forall n | number < n <= top :: Lookup(c.journals.at, n) == Lookup(c'.journals.at, n)
    ensures c.Later(top, number) == c'.Later(top, number)
    decreases top - number
  {
    if top > number {
      assert Lookup(c.journals.at, top) == Lookup(c'.journals.at, top);
      LaterFrame(c, c', top - 1, number);
    }
  }

  lemma {:induction false} LaterProper(c: ChainState, top: int, number: int)
    requires forall n | n in c.journals.at :: Proper(c.journals.at[n])
    ensures forall j | j in c.Later(top, number) :: Proper(j)
    decreases top - number
  {
    if top > number { LaterProper(c, top - 1, number); }
  }

  /** With at most one journal too many, pruning drops the oldest and moves `historyFrom` onto its block. */
  lemma PruneOne(c: ChainState, top: int)
    requires Covers(c.journals, c.historyFrom + 1, top + 1) && c.historyFrom <= top
    requires |c.journals.keys| <= HISTORY_BLOCKS + 1
    ensures var c' := c.Prune();
            && c'.historyFrom == c.historyFrom + (if |c.journals.keys| > HISTORY_BLOCKS then 1 else 0)
            && c'.historyFrom <= top
            && Covers(c'.journals, c'.historyFrom + 1, top + 1)
            && |c'.journals.keys| <= HISTORY_BLOCKS
            && (forall n | n in c'.journals.at :: Lookup(c.journals.at, n) == Some(c'.journals.at[n]))
  {
    if |c.journals.keys| > HISTORY_BLOCKS {
      var oldest := c.journals.keys[0];
      var fewer := OMap(c.journals.keys[1..], c.journals.at - {oldest});
      assert fewer.keys == Range(oldest + 1, top + 1);
      var c' := c.(journals := fewer, historyFrom := Max(c.historyFrom, oldest));
      assert c.Prune() == c'.Prune() == c';
    }
  }

  lemma PrunedJournalled(raw: ChainState, top: int)
    requires Covers(raw.journals, raw.historyFrom + 1, top + 1) && 0 <= raw.historyFrom <= top && raw.Height() == top
    requires |raw.journals.keys| <= HISTORY_BLOCKS + 1 && raw.pending == map[]
    ensures var c' := raw.Prune();
            && c'.Journalled() && c'.pending == map[]
            && c'.historyFrom == raw.historyFrom + (if |raw.journals.keys| > HISTORY_BLOCKS then 1 else 0)
            && (forall n | n in c'.journals.at :: Lookup(raw.journals.at, n) == Some(c'.journals.at[n]))
  {
    PruneKeepsBlocks(raw);
    PruneOne(raw, top);
  }

  /** Mining hands the pending journal to the new block; pruning takes at most the oldest one. */
  lemma AddJournalled(c: ChainState, block: Block, added: seq<Tx>)
    requires c.Journalled() && block.number == c.Height() + 1 && c.forkHeight >= 0
    ensures var c' := c.Add(block, added);
            && c'.Journalled()
            && c'.pending == map[]
            && c'.historyFrom == c.historyFrom + (if |c.journals.keys| == HISTORY_BLOCKS then 1 else 0)
            && (forall n | n in c'.journals.at :: Lookup(c.journals.at[block.number := c.pending], n) == Some(c'.journals.at[n]))
  {
    var raw := c.(blocks := c.blocks + [block], txs := SetAll(c.txs, added),
                  journals := c.journals.Set(block.number, c.pending), pending := map[]);
    CoversMore(c.journals, c.historyFrom + 1, block.number, c.pending);
    PrunedJournalled(raw, block.number);
  }

  lemma AddHeight(c: ChainState, block: Block, added: seq<Tx>)
    requires block.number > c.Height()
    ensures c.Add(block, added).Height() == block.number
    ensures c.Add(block, added).blocks == c.blocks + [block]
    ensures c.Add(block, added).txs == SetAll(c.txs, added)
    ensures c.Add(block, added).forkHeight == c.forkHeight
  {
    PruneKeepsBlocks(c.(blocks := c.blocks + [block], txs := SetAll(c.txs, added),
                        journals := c.journals.Set(block.number, c.pending), pending := map[]));
  }

  lemma CoversMore(m: OMap<int, Journal>, lo: int, hi: int, j: Journal)
    requires Covers(m, lo, hi) && lo <= hi
    ensures Covers(m.Set(hi, j), lo, hi + 1)
  {
  }

  lemma {:induction false} PruneProper(c: ChainState)
    requires c.AllProper()
    ensures c.Prune().AllProper()
    decreases |c.journals.keys|
  {
    if |c.journals.keys| > HISTORY_BLOCKS {
      var oldest := c.journals.keys[0];
      PruneProper(c.(journals := OMap(c.journals.keys[1..], c.journals.at - {oldest}),
                     historyFrom := Max(c.historyFrom, oldest)));
    }
  }

  lemma AddProper(c: ChainState, block: Block, added: seq<Tx>)
    requires c.AllProper()
    ensures c.Add(block, added).AllProper()
  {
    PruneProper(c.(blocks := c.blocks + [block], txs := SetAll(c.txs, added),
                   journals := c.journals.Set(block.number, c.pending), pending := map[]));
  }

  lemma AdvanceKeeps(c: ChainState, height: int)
    requires c.Sound() && c.Journalled()
    ensures c.AdvanceForkTo(height).Sound() && c.AdvanceForkTo(height).Journalled()
  {
  }

  // ---- the class -------------------------------------------------------------------

  /** The two block maps answer what a search of the block list would. */
  ghost predicate IndicesAgree(blocks: seq<Block>, byHash: map<Hash, Block>, byNumber: map<int, Block>) {
    && (forall h :: Lookup(byHash, h) == FindHash(blocks, h))
    && (forall n :: Lookup(byNumber, n) == FindNumber(blocks, n))
  }

  lemma IndexPush(blocks: seq<Block>, byHash: map<Hash, Block>, byNumber: map<int, Block>, b: Block)
    requires IndicesAgree(blocks, byHash, byNumber)
    ensures IndicesAgree(blocks + [b], byHash[b.hash := b], byNumber[b.number := b])
  {
    assert (blocks + [b])[..|blocks|] == blocks;
    forall h ensures Lookup(byHash[b.hash := b], h) == FindHash(blocks + [b], h) {
      assert Lookup(byHash, h) == FindHash(blocks, h);
    }
    forall n ensures Lookup(byNumber[b.number := b], n) == FindNumber(blocks + [b], n) {
      assert Lookup(byNumber, n) == FindNumber(blocks, n);
    }
  }

  /** Deleting by hash and by number is right only because no other block has either. */
  lemma IndexPop(blocks: seq<Block>, byHash: map<Hash, Block>, byNumber: map<int, Block>)
    requires blocks != [] && IndicesAgree(blocks, byHash, byNumber)
    requires BlocksSound(blocks)
    ensures var (rest, b) := (blocks[..|blocks| - 1], blocks[|blocks| - 1]);
            IndicesAgree(rest, byHash - {b.hash}, byNumber - {b.number})
  {
    var rest, b := blocks[..|blocks| - 1], blocks[|blocks| - 1];
    FindHashIs(rest, b.hash);
    FindNumberIs(rest, b.number);
    forall h ensures Lookup(byHash - {b.hash}, h) == FindHash(rest, h) {
      assert Lookup(byHash, h) == FindHash(blocks, h);
    }
    forall n ensures Lookup(byNumber - {b.number}, n) == FindNumber(rest, n) {
      assert Lookup(byNumber, n) == FindNumber(blocks, n);
    }
  }

  class Chain {
    var forkHeight: int
    var blocks: seq<Block>
    var byHash: map<Hash, Block>
    var byNumber: map<int, Block>
    var txs: OMap<Hash, Tx>
    var journals: OMap<int, Journal>
    var pending: Journal
    var historyFrom: int

    ghost function View(): ChainState
      reads this
    {
      ChainState(forkHeight, blocks, txs, journals, pending, historyFrom)
    }

    ghost predicate Valid()
      reads this
    {
      View().Sound() && IndicesAgree(blocks, byHash, byNumber)
    }

    constructor (forkHeight: int)
      requires forkHeight >= 0
      ensures Valid() && View() == Empty(forkHeight)
    {
      this.forkHeight, this.historyFrom := forkHeight, forkHeight;
      blocks, byHash, byNumber := [], map[], map[];
      txs, journals, pending := OMap([], map[]), OMap([], map[]), map[];
    }

    function Height(): int
      reads this
    {
      Max(if blocks == [] then 0 else blocks[|blocks| - 1].number, forkHeight)
    }

    method Note(entry: string, before: Option<string>)
      requires Valid()
      modifies this`pending
      ensures Valid() && View() == old(View()).Note(entry, before)
    {
      if entry !in pending { pending := pending[entry := before]; }
    }

    /** The pending notes, then the journals of the blocks above `number` from the height down. */
    method JournalsAfter(number: int) returns (out: seq<Journal>)
      ensures out == View().JournalsAfter(number)
    {
      out := [pending];
      var n := Height();
      while n > number
        invariant View().JournalsAfter(number) == out + View().Later(n, number)
      {
        if n in journals.at { out := out + [journals.at[n]]; }
        n := n - 1;
      }
    }

    method ResetHistory(history: Option<History>)
      modifies this`pending, this`journals, this`historyFrom
      ensures View() == old(View()).ResetHistory(history)
      ensures old(Valid()) ==> Valid()
    {
      match history {
        case None => pending, journals, historyFrom := map[], OMap([], map[]), Height();
        case Some(h) => pending, journals, historyFrom := h.pending, h.blocks, h.from;
      }
    }

    method AdvanceForkTo(height: int) returns (moved: bool)
      requires Valid()
      modifies this`forkHeight, this`journals, this`pending, this`historyFrom
      ensures Valid() && View() == old(View()).AdvanceForkTo(height)
      ensures moved == (height > old(Height()))
    {
      if height <= Height() { return false; }
      forkHeight := height;
      journals := OMap([], map[]);
      pending := map[];
      historyFrom := height;
      return true;
    }

    /** What a search of the block list for the number finds. */
    method GetBlockByNumber(number: int) returns (r: Option<Block>)
      requires Valid()
      ensures r == FindNumber(blocks, number)
    {
      r := Lookup(byNumber, number);
    }

    /** What a search of the block list for the hash finds. */
    method GetBlockByHash(hash: Hash) returns (r: Option<Block>)
      requires Valid()
      ensures r == FindHash(blocks, hash)
    {
      r := Lookup(byHash, hash);
    }

    /** The transaction of that hash, exactly when some block here lists it, naming that block. */
    method GetTx(hash: Hash) returns (r: Option<Tx>)
      requires Valid()
      ensures r.Some? <==> exists i | 0 <= i < |blocks| :: hash in blocks[i].transactions
      ensures forall i | 0 <= i < |blocks| && hash in blocks[i].transactions ::
                r.Some? && r.value.hash == hash && r.value.blockNumber == blocks[i].number
    {
      r := Lookup(txs.at, hash);
      InAllTxs(blocks, hash);
      assert hash in txs.at <==> hash in txs.keys;
      forall i | 0 <= i < |blocks| && hash in blocks[i].transactions ensures NamesBlock(blocks[i], txs, hash) {}
    }

    method SetTxs(data: seq<Tx>)
      modifies this`txs
      ensures txs == SetAll(old(txs), data)
    {
      for i := 0 to |data|
        invariant SetAll(txs, data[i..]) == SetAll(old(txs), data)
      {
        txs := txs.Set(data[i].hash, data[i]);
      }
    }

    method DeleteTxs(hashes: seq<Hash>)
      modifies this`txs
      ensures txs == DeleteAll(old(txs), hashes)
    {
      for i := 0 to |hashes|
        invariant DeleteAll(txs, hashes[i..]) == DeleteAll(old(txs), hashes)
      {
        txs := txs.Delete(hashes[i]);
      }
    }

    method Push(block: Block, transactions: seq<Tx>)
      requires IndicesAgree(blocks, byHash, byNumber)
      modifies this
      ensures IndicesAgree(blocks, byHash, byNumber) && View() == old(View()).Add(block, transactions)
    {
      IndexPush(blocks, byHash, byNumber, block);
      blocks := blocks + [block];
      byHash := byHash[block.hash := block];
      byNumber := byNumber[block.number := block];
      SetTxs(transactions);
      journals := journals.Set(block.number, pending);
      pending := map[];
      PruneJournals();
    }

    method Add(block: Block, transactions: seq<Tx>)
      requires Valid() && View().Fits(block, transactions)
      modifies this
      ensures Valid() && View() == old(View()).Add(block, transactions)
    {
      AddSound(View(), block, transactions);
      Push(block, transactions);
    }

    /** Journals are dropped in the order they were added until 1024 are left. */
    method PruneJournals()
      modifies this`journals, this`historyFrom
      ensures View() == old(View()).Prune()
    {
      while |journals.keys| > HISTORY_BLOCKS
        invariant View().Prune() == old(View()).Prune()
        invariant unchanged(this`forkHeight, this`blocks, this`txs, this`pending)
        decreases |journals.keys|
      {
        var oldest := journals.keys[0];
        journals := OMap(journals.keys[1..], journals.at - {oldest});
        historyFrom := Max(historyFrom, oldest);
      }
    }

    /** One turn of the rollback loop. */
    method Pop()
      requires Valid() && blocks != []
      modifies this
      ensures Valid() && View() == old(View()).Pop()
    {
      ghost var was := View();
      PopSound(was);
      IndexPop(blocks, byHash, byNumber);
      var block := blocks[|blocks| - 1];
      blocks := blocks[..|blocks| - 1];
      byHash := byHash - {block.hash};
      byNumber := byNumber - {block.number};
      DeleteTxs(block.transactions);
      journals := journals.Delete(block.number);
    }

    method RollbackTo(height: int)
      requires Valid()
      modifies this
      ensures Valid() && View() == old(View()).RollbackTo(height)
    {
      while blocks != [] && Height() > height
        invariant Valid() && View().RollbackTo(height) == old(View()).RollbackTo(height)
        decreases |blocks|
      {
        Pop();
      }
    }

    method Export() returns (data: Exported)
      requires Valid()
      ensures data == View().Export()
    {
      data := Exported(forkHeight, blocks, txs.Values(), Some(History(historyFrom, pending, ThroughObject(journals))));
    }

    method LoadBlocks(data: seq<Block>)
      requires blocks == [] && IndicesAgree(blocks, byHash, byNumber)
      modifies this`blocks, this`byHash, this`byNumber
      ensures blocks == data && IndicesAgree(blocks, byHash, byNumber)
    {
      for i := 0 to |data|
        invariant blocks == data[..i] && IndicesAgree(blocks, byHash, byNumber)
      {
        var block := data[i];
        IndexPush(blocks, byHash, byNumber, block);
        blocks := blocks + [block];
        byHash := byHash[block.hash := block];
        byNumber := byNumber[block.number := block];
      }
    }

    method Load(data: Exported)
      requires View() == Empty(data.forkHeight) && IndicesAgree(blocks, byHash, byNumber)
      modifies this
      ensures IndicesAgree(blocks, byHash, byNumber) && View() == Restore(data)
    {
      LoadBlocks(data.blocks);
      SetTxs(data.txs);
      ResetHistory(data.history);
    }

    /** Rebuilds a chain from what `Export` gave, whatever happened to it in between. */
    static method FromExport(data: Exported) returns (c: Chain)
      requires data.forkHeight >= 0 && Restore(data).Sound()
      ensures fresh(c) && c.Valid() && c.View() == Restore(data)
    {
      c := new Chain(data.forkHeight);
      c.Load(data);
    }
  }
}
