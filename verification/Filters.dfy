/**
 * Filters that look back and subscriptions that are pushed to (src/environment.ts `newFilter` to
 * `getLogs`, src/ws-server.ts `onBlock`).
 */
module Filters {
  import opened Options
  import opened Ordered
  import opened Logs
  import opened Chains

  // ---- what each question means --------------------------------------------------------

  function Matching(logs: seq<Log>, filter: LogFilter): seq<Log> {
    if logs == [] then []
    else Matching(logs[..|logs| - 1], filter) + if LogMatches(logs[|logs| - 1], filter) then [logs[|logs| - 1]] else []
  }

  /** `getLogs`: the matching logs of the stored transactions numbered `from` to `to`, in stored order. */
  function LogsBetween(txs: seq<Tx>, filter: LogFilter, from: int, until: int): seq<Log> {
    if txs == [] then []
    else
      var tx := txs[|txs| - 1];
      LogsBetween(txs[..|txs| - 1], filter, from, until)
      + if from <= tx.blockNumber <= until then Matching(tx.logs, filter) else []
  }

  /** What a log subscription is pushed for one block. */
  function Pushed(txs: seq<Tx>, filter: LogFilter): seq<Log> {
    if txs == [] then [] else Pushed(txs[..|txs| - 1], filter) + Matching(txs[|txs| - 1].logs, filter)
  }

  /** Looking up every number from `from` to `to`, as a block filter does. */
  function HashesBetween(blocks: seq<Block>, from: int, until: int): seq<Hash>
    decreases until - from
  {
    if from > until then []
    else HashesBetween(blocks, from, until - 1)
         + match FindNumber(blocks, until) case Some(b) => [b.hash] case None => []
  }

  // ---- what is found -------------------------------------------------------------------

  /** `at` lists, in order, the positions of the logs that match. */
  ghost predicate Picks(at: seq<nat>, logs: seq<Log>, filter: LogFilter) {
    && (forall m, n | 0 <= m < n < |at| :: at[m] < at[n])
    && (forall n | 0 <= n < |at| :: at[n] < |logs| && LogMatches(logs[at[n]], filter))
    && (forall j | 0 <= j < |logs| && LogMatches(logs[j], filter) :: j in at)
  }

  lemma PicksMore(at: seq<nat>, logs: seq<Log>, filter: LogFilter, log: Log)
    requires Picks(at, logs, filter)
    ensures Picks(if LogMatches(log, filter) then at + [|logs|] else at, logs + [log], filter)
  {
    if LogMatches(log, filter) {
      var more := at + [|logs|];
      assert forall j | j in at :: j in more;
      assert more[|at|] == |logs|;
    }
  }

  /** The logs at some positions. */
  ghost predicate Holds(found: seq<Log>, at: seq<nat>, logs: seq<Log>) {
    |found| == |at| && forall n | 0 <= n < |at| :: at[n] < |logs| && found[n] == logs[at[n]]
  }

  lemma HoldsMore(found: seq<Log>, at: seq<nat>, logs: seq<Log>, log: Log)
    requires Holds(found, at, logs)
    ensures Holds(found, at, logs + [log]) && Holds(found + [log], at + [|logs|], logs + [log])
  {
  }

  lemma MatchingPeels(logs: seq<Log>, log: Log, filter: LogFilter)
    ensures Matching(logs + [log], filter) == Matching(logs, filter) + if LogMatches(log, filter) then [log] else []
  {
    assert (logs + [log])[..|logs|] == logs;
  }

  lemma MatchingMore(at: seq<nat>, front: seq<Log>, log: Log, filter: LogFilter) returns (more: seq<nat>)
    requires Picks(at, front, filter) && Holds(Matching(front, filter), at, front)
    ensures Picks(more, front + [log], filter) && Holds(Matching(front + [log], filter), more, front + [log])
  {
    PicksMore(at, front, filter, log);
    HoldsMore(Matching(front, filter), at, front, log);
    MatchingPeels(front, log, filter);
    more := if LogMatches(log, filter) then at + [|front|] else at;
  }

  /** What is found among some logs: those that match, each once, in their order. */
  lemma {:induction false} MatchingIs(logs: seq<Log>, filter: LogFilter) returns (at: seq<nat>)
    ensures Picks(at, logs, filter) && Holds(Matching(logs, filter), at, logs)
  {
    if logs == [] {
      at := [];
    } else {
      var front := MatchingIs(logs[..|logs| - 1], filter);
      at := MatchingMore(front, logs[..|logs| - 1], logs[|logs| - 1], filter);
      assert logs[..|logs| - 1] + [logs[|logs| - 1]] == logs;
    }
  }

  function FoundIn(tx: Tx, filter: LogFilter, from: int, until: int): seq<Log> {
    if from <= tx.blockNumber <= until then Matching(tx.logs, filter) else []
  }

  lemma BetweenOne(txs: seq<Tx>, tx: Tx, filter: LogFilter, from: int, until: int)
    ensures LogsBetween(txs + [tx], filter, from, until) == LogsBetween(txs, filter, from, until) + FoundIn(tx, filter, from, until)
  {
    assert (txs + [tx])[..|txs|] == txs;
  }

  lemma LastApart(a: seq<Tx>, b: seq<Tx>, front: seq<Tx>, tx: Tx)
    requires b != [] && front == b[..|b| - 1] && tx == b[|b| - 1]
    ensures a + b == a + front + [tx] && b == front + [tx]
  {
  }

  lemma Regrouped(a: seq<Log>, b: seq<Log>, c: seq<Log>)
    ensures a + b + c == a + (b + c)
  {
  }

  lemma {:induction false} BetweenAppends(a: seq<Tx>, b: seq<Tx>, filter: LogFilter, from: int, until: int)
    ensures LogsBetween(a + b, filter, from, until) == LogsBetween(a, filter, from, until) + LogsBetween(b, filter, from, until)
  {
    if b == [] {
      assert a + b == a;
    } else {
      var front, tx := b[..|b| - 1], b[|b| - 1];
      BetweenAppends(a, front, filter, from, until);
      LastApart(a, b, front, tx);
      BetweenOne(a + front, tx, filter, from, until);
      BetweenOne(front, tx, filter, from, until);
      Regrouped(LogsBetween(a, filter, from, until), LogsBetween(front, filter, from, until), FoundIn(tx, filter, from, until));
    }
  }

  /** A search goes through the transactions in order, and in each in range finds what matches. */
  lemma BetweenJoins(a: seq<Tx>, b: seq<Tx>, tx: Tx, filter: LogFilter, from: int, until: int)
    ensures LogsBetween(a + b, filter, from, until) == LogsBetween(a, filter, from, until) + LogsBetween(b, filter, from, until)
    ensures LogsBetween([tx], filter, from, until) == if from <= tx.blockNumber <= until then Matching(tx.logs, filter) else []
  {
    BetweenAppends(a, b, filter, from, until);
    BetweenOne([], tx, filter, from, until);
    assert [] + [tx] == [tx];
  }

  /** A subscription is pushed what matches of every transaction of the block, in order. */
  lemma {:induction false} PushedJoins(a: seq<Tx>, b: seq<Tx>, tx: Tx, filter: LogFilter)
    ensures Pushed(a + b, filter) == Pushed(a, filter) + Pushed(b, filter)
    ensures Pushed([tx], filter) == Matching(tx.logs, filter)
  {
    assert [tx][..0] == [];
    if b == [] {
      assert a + b == a;
    } else {
      assert (a + b)[..|a + b| - 1] == a + b[..|b| - 1];
      PushedJoins(a, b[..|b| - 1], tx, filter);
    }
  }

  // ---- the run -----------------------------------------------------------------------------

  /** A chain, a block filter, a log filter, and a subscription opened with the log filter. */
  datatype Watch = Watch(chain: ChainState, filter: LogFilter, blockCursor: int, logCursor: int,
                         polledHashes: seq<Hash>, polledLogs: seq<Log>,
                         minedHashes: seq<Hash>, pushedLogs: seq<Log>)

  datatype Event = Mined(block: Block, txs: seq<Tx>) | Advanced(height: int) | PollBlocks | PollLogs

  function Open(c: ChainState, filter: LogFilter): Watch {
    Watch(c, filter, c.Height(), c.Height(), [], [], [], [])
  }

  ghost predicate Possible(w: Watch, e: Event) {
    e.Mined? ==> w.chain.Fits(e.block, e.txs)
  }

  function After(w: Watch, e: Event): Watch
    requires w.chain.txs.Valid()
  {
    match e
    case Mined(block, txs) =>
      w.(chain := w.chain.Add(block, txs), minedHashes := w.minedHashes + [block.hash],
         pushedLogs := w.pushedLogs + Pushed(txs, w.filter))
    case Advanced(height) => w.(chain := w.chain.AdvanceForkTo(height))
    case PollBlocks =>
      w.(blockCursor := w.chain.Height(),
         polledHashes := w.polledHashes + HashesBetween(w.chain.blocks, w.blockCursor + 1, w.chain.Height()))
    case PollLogs =>
      w.(logCursor := w.chain.Height(),
         polledLogs := w.polledLogs + LogsBetween(w.chain.txs.Values(), w.filter, w.logCursor + 1, w.chain.Height()))
  }

  ghost predicate IsRun(trace: seq<Watch>, events: seq<Event>) {
    && |trace| == |events| + 1
    && forall i | 0 <= i < |events| ::
         trace[i].chain.txs.Valid() && Possible(trace[i], events[i]) && trace[i + 1] == After(trace[i], events[i])
  }

  /** What was polled and what the next poll would give, together, are everything since the start. */
  ghost predicate Accounted(w: Watch) {
    && w.chain.Sound()
    && HashesAccounted(w.polledHashes, w.minedHashes, w.chain.blocks, w.blockCursor, w.chain.Height())
    && LogsAccounted(w.polledLogs, w.pushedLogs, w.chain.txs.Values(), w.filter, w.logCursor, w.chain.Height())
  }

  ghost predicate HashesAccounted(polled: seq<Hash>, mined: seq<Hash>, blocks: seq<Block>, cursor: int, height: int) {
    && cursor <= height
    && mined == polled + HashesBetween(blocks, cursor + 1, height)
    && forall b | b in blocks :: b.number <= height
  }

  ghost predicate LogsAccounted(polled: seq<Log>, pushed: seq<Log>, txs: seq<Tx>, filter: LogFilter,
                                cursor: int, height: int)
  {
    && cursor <= height
    && pushed == polled + LogsBetween(txs, filter, cursor + 1, height)
    && forall i | 0 <= i < |txs| :: txs[i].blockNumber <= height
  }

  // ---- one event ---------------------------------------------------------------------------

  /** Above the last block there is nothing to find, and a later top changes nothing. */
  lemma {:induction false} HashesAbove(blocks: seq<Block>, from: int, top: int, until: int)
    requires forall b | b in blocks :: b.number <= top
    requires from <= top + 1 && top <= until
    ensures HashesBetween(blocks, from, until) == HashesBetween(blocks, from, top)
    decreases until - top
  {
    if top < until {
      FindNumberIs(blocks, until);
      HashesAbove(blocks, from, top, until - 1);
    }
  }

  lemma {:induction false} HashesPush(blocks: seq<Block>, b: Block, from: int, until: int)
    requires until < b.number
    ensures HashesBetween(blocks + [b], from, until) == HashesBetween(blocks, from, until)
    decreases until - from
  {
    if from <= until {
      assert (blocks + [b])[..|blocks|] == blocks;
      HashesPush(blocks, b, from, until - 1);
    }
  }

  lemma {:induction false} LogsSplit(a: seq<Tx>, b: seq<Tx>, filter: LogFilter, from: int, until: int)
    ensures LogsBetween(a + b, filter, from, until) == LogsBetween(a, filter, from, until) + LogsBetween(b, filter, from, until)
  {
    if b == [] {
      assert a + b == a;
    } else {
      var n := |b| - 1;
      assert (a + b)[..|a + b| - 1] == a + b[..n];
      LogsSplit(a, b[..n], filter, from, until);
    }
  }

  lemma {:induction false} LogsOfBlock(txs: seq<Tx>, filter: LogFilter, from: int, until: int)
    requires forall i | 0 <= i < |txs| :: from <= txs[i].blockNumber <= until
    ensures LogsBetween(txs, filter, from, until) == Pushed(txs, filter)
  {
    if txs != [] { LogsOfBlock(txs[..|txs| - 1], filter, from, until); }
  }

  /** Raising the top past every stored number finds nothing more. */
  lemma {:induction false} LogsRaise(txs: seq<Tx>, filter: LogFilter, from: int, top: int, until: int)
    requires top <= until && forall i | 0 <= i < |txs| :: txs[i].blockNumber <= top
    ensures LogsBetween(txs, filter, from, until) == LogsBetween(txs, filter, from, top)
  {
    if txs != [] { LogsRaise(txs[..|txs| - 1], filter, from, top, until); }
  }

  lemma {:induction false} LogsNone(txs: seq<Tx>, filter: LogFilter, from: int, until: int)
    requires from > until
    ensures LogsBetween(txs, filter, from, until) == []
  {
    if txs != [] { LogsNone(txs[..|txs| - 1], filter, from, until); }
  }

  lemma SetAllValues(txs: OMap<Hash, Tx>, added: seq<Tx>, i: nat)
    requires txs.Valid() && Fresh(txs, added) && SetAll(txs, added).Valid() && i < |txs.keys| + |added|
    requires SetAll(txs, added).keys == txs.keys + Hashes(added)
    ensures SetAll(txs, added).Values()[i] == (txs.Values() + added)[i]
  {
    if i < |txs.keys| {
      assert txs.keys[i] in txs.at;
      SetAllKeeps(txs, added, txs.keys[i]);
    } else {
      assert Hashes(added)[i - |txs.keys|] == added[i - |txs.keys|].hash;
      SetAllStores(txs, added, i - |txs.keys|);
    }
  }

  /** Adding a block stores its transactions after all the others. */
  lemma AddValues(c: ChainState, block: Block, txs: seq<Tx>)
    requires c.txs.Valid() && Fresh(c.txs, txs) && block.number > c.Height()
    ensures c.Add(block, txs).txs.Valid() && c.Add(block, txs).txs.Values() == c.txs.Values() + txs
  {
    AddHeight(c, block, txs);
    SetAllFresh(c.txs, txs);
    var more := SetAll(c.txs, txs).Values();
    assert |more| == |c.txs.Values() + txs|;
    forall i | 0 <= i < |more| ensures more[i] == (c.txs.Values() + txs)[i] { SetAllValues(c.txs, txs, i); }
  }

  lemma MinedHashes(polled: seq<Hash>, mined: seq<Hash>, blocks: seq<Block>, cursor: int, height: int, block: Block)
    requires HashesAccounted(polled, mined, blocks, cursor, height) && height < block.number
    ensures HashesAccounted(polled, mined + [block.hash], blocks + [block], cursor, block.number)
  {
    HashesAbove(blocks, cursor + 1, height, block.number - 1);
    HashesPush(blocks, block, cursor + 1, block.number - 1);
  }

  lemma LogsWithBlock(values: seq<Tx>, txs: seq<Tx>, filter: LogFilter, from: int, height: int, number: int)
    requires from <= number && height <= number
    requires forall i | 0 <= i < |values| :: values[i].blockNumber <= height
    requires forall i | 0 <= i < |txs| :: txs[i].blockNumber == number
    ensures LogsBetween(values + txs, filter, from, number) ==
            LogsBetween(values, filter, from, height) + Pushed(txs, filter)
  {
    LogsSplit(values, txs, filter, from, number);
    LogsRaise(values, filter, from, height, number);
    LogsOfBlock(txs, filter, from, number);
  }

  lemma Reassociate<T>(whole: seq<T>, a: seq<T>, b: seq<T>, c: seq<T>, bc: seq<T>)
    requires whole == a + b && bc == b + c
    ensures whole + c == a + bc
  {
  }

  lemma MinedLogs(polled: seq<Log>, pushed: seq<Log>, values: seq<Tx>, filter: LogFilter, cursor: int, height: int,
                  txs: seq<Tx>, number: int)
    requires LogsAccounted(polled, pushed, values, filter, cursor, height) && height < number
    requires forall i | 0 <= i < |txs| :: txs[i].blockNumber == number
    ensures LogsAccounted(polled, pushed + Pushed(txs, filter), values + txs, filter, cursor, number)
  {
    LogsWithBlock(values, txs, filter, cursor + 1, height, number);
    Reassociate(pushed, polled, LogsBetween(values, filter, cursor + 1, height), Pushed(txs, filter),
                LogsBetween(values + txs, filter, cursor + 1, number));
  }

  lemma MinedKeeps(w: Watch, block: Block, txs: seq<Tx>)
    requires Accounted(w) && w.chain.Fits(block, txs)
    ensures Accounted(After(w, Mined(block, txs)))
  {
    var c := w.chain;
    AddSound(c, block, txs);
    AddValues(c, block, txs);
    MinedHashes(w.polledHashes, w.minedHashes, c.blocks, w.blockCursor, c.Height(), block);
    MinedLogs(w.polledLogs, w.pushedLogs, c.txs.Values(), w.filter, w.logCursor, c.Height(), txs, block.number);
  }

  lemma RaisedLogs(polled: seq<Log>, pushed: seq<Log>, values: seq<Tx>, filter: LogFilter, cursor: int, height: int,
                   higher: int)
    requires LogsAccounted(polled, pushed, values, filter, cursor, height) && height <= higher
    ensures LogsAccounted(polled, pushed, values, filter, cursor, higher)
  {
    LogsRaise(values, filter, cursor + 1, height, higher);
  }

  lemma RaisedHashes(polled: seq<Hash>, mined: seq<Hash>, blocks: seq<Block>, cursor: int, height: int, higher: int)
    requires HashesAccounted(polled, mined, blocks, cursor, height) && height <= higher
    ensures HashesAccounted(polled, mined, blocks, cursor, higher)
  {
    HashesAbove(blocks, cursor + 1, height, higher);
  }

  lemma AdvancedKeeps(w: Watch, height: int)
    requires Accounted(w)
    ensures Accounted(After(w, Advanced(height)))
  {
    var c := w.chain;
    if height > c.Height() {
      RaisedHashes(w.polledHashes, w.minedHashes, c.blocks, w.blockCursor, c.Height(), height);
      RaisedLogs(w.polledLogs, w.pushedLogs, c.txs.Values(), w.filter, w.logCursor, c.Height(), height);
    }
  }

  lemma PolledLogs(polled: seq<Log>, pushed: seq<Log>, values: seq<Tx>, filter: LogFilter, cursor: int, height: int)
    requires LogsAccounted(polled, pushed, values, filter, cursor, height)
    ensures LogsAccounted(polled + LogsBetween(values, filter, cursor + 1, height), pushed, values, filter, height, height)
  {
    LogsNone(values, filter, height + 1, height);
  }

  lemma PollBlocksKeeps(w: Watch)
    requires Accounted(w)
    ensures Accounted(After(w, PollBlocks))
  {
  }

  lemma PollLogsKeeps(w: Watch)
    requires Accounted(w)
    ensures Accounted(After(w, PollLogs))
  {
    PolledLogs(w.polledLogs, w.pushedLogs, w.chain.txs.Values(), w.filter, w.logCursor, w.chain.Height());
  }

  lemma {:induction false} RunAccounted(trace: seq<Watch>, events: seq<Event>, k: nat)
    requires IsRun(trace, events) && k < |trace| && Accounted(trace[0])
    ensures Accounted(trace[k])
  {
    if k > 0 {
      RunAccounted(trace, events, k - 1);
      var w := trace[k - 1];
      match events[k - 1]
      case Mined(block, txs) => MinedKeeps(w, block, txs);
      case Advanced(height) => AdvancedKeeps(w, height);
      case PollBlocks => PollBlocksKeeps(w);
      case PollLogs => PollLogsKeeps(w);
    }
  }

  lemma TxsBelow(c: ChainState, i: nat)
    requires c.Sound() && i < |c.txs.Values()|
    ensures c.txs.Values()[i].blockNumber <= c.Height()
  {
    var h := c.txs.keys[i];
    InAllTxs(c.blocks, h);
    var b :| 0 <= b < |c.blocks| && h in c.blocks[b].transactions;
    assert NamesBlock(c.blocks[b], c.txs, h);
  }

  lemma OpenAccounted(c: ChainState, filter: LogFilter)
    requires c.Sound()
    ensures Accounted(Open(c, filter))
  {
    LogsNone(c.txs.Values(), filter, c.Height() + 1, c.Height());
    forall i | 0 <= i < |c.txs.Values()| ensures c.txs.Values()[i].blockNumber <= c.Height() { TxsBelow(c, i); }
  }

  lemma NothingMissed(w: Watch)
    requires Accounted(w)
    ensures After(w, PollBlocks).polledHashes == w.minedHashes && w.polledHashes <= w.minedHashes
    ensures After(w, PollLogs).polledLogs == w.pushedLogs && w.polledLogs <= w.pushedLogs
  {
  }

  /**
   * Filters report exactly once. After any run without a rollback that ends in both polls, the
   * polls of the block filter together are the blocks mined since it was made, in order, no two the
   * same, and those of the log filter are what the subscription was pushed.
   */
  lemma PolledExactlyOnce(c: ChainState, filter: LogFilter, trace: seq<Watch>, events: seq<Event>, k: nat)
    requires c.Sound() && IsRun(trace, events) && trace[0] == Open(c, filter) && k < |trace|
    ensures trace[k].chain.txs.Valid()
    ensures After(trace[k], PollBlocks).polledHashes == trace[k].minedHashes
    ensures After(trace[k], PollLogs).polledLogs == trace[k].pushedLogs
    ensures trace[k].polledHashes <= trace[k].minedHashes && trace[k].polledLogs <= trace[k].pushedLogs
    ensures forall i, j | 0 <= i < j < |trace[k].minedHashes| :: trace[k].minedHashes[i] != trace[k].minedHashes[j]
  {
    NoRepeats(c, filter, trace, events, k);
    OpenAccounted(c, filter);
    RunAccounted(trace, events, k);
    NothingMissed(trace[k]);
  }

  /** Every hash mined is on the chain, and no two are the same. */
  ghost predicate MinedOnce(mined: seq<Hash>, blocks: seq<Block>) {
    && (forall i | 0 <= i < |mined| :: FindHash(blocks, mined[i]).Some?)
    && (forall i, j | 0 <= i < j < |mined| :: mined[i] != mined[j])
  }

  lemma FindHashPush(blocks: seq<Block>, block: Block, h: Hash)
    ensures FindHash(blocks + [block], h) == if h == block.hash then Some(block) else FindHash(blocks, h)
  {
    assert (blocks + [block])[..|blocks|] == blocks;
  }

  lemma MinedOnceMore(mined: seq<Hash>, blocks: seq<Block>, block: Block)
    requires MinedOnce(mined, blocks) && FindHash(blocks, block.hash).None?
    ensures MinedOnce(mined + [block.hash], blocks + [block])
  {
    var more := mined + [block.hash];
    forall i | 0 <= i < |more| ensures FindHash(blocks + [block], more[i]).Some? { FindHashPush(blocks, block, more[i]); }
    forall i | 0 <= i < |mined| ensures mined[i] != block.hash { assert FindHash(blocks, mined[i]).Some?; }
  }

  /** So what a block filter reports, it reports without repeats. */
  lemma {:induction false} NoRepeats(c: ChainState, filter: LogFilter, trace: seq<Watch>, events: seq<Event>, k: nat)
    requires c.Sound() && IsRun(trace, events) && trace[0] == Open(c, filter) && k < |trace|
    ensures MinedOnce(trace[k].minedHashes, trace[k].chain.blocks)
  {
    if k > 0 {
      NoRepeats(c, filter, trace, events, k - 1);
      MinedOnceStep(trace[k - 1], events[k - 1]);
    }
  }

  lemma MinedOnceStep(w: Watch, e: Event)
    requires w.chain.txs.Valid() && Possible(w, e) && MinedOnce(w.minedHashes, w.chain.blocks)
    ensures MinedOnce(After(w, e).minedHashes, After(w, e).chain.blocks)
  {
    if e.Mined? {
      AddHeight(w.chain, e.block, e.txs);
      MinedOnceMore(w.minedHashes, w.chain.blocks, e.block);
    }
  }

  // ---- the class ---------------------------------------------------------------------------------

  datatype Kind = BlockFilter | LogFilterKind
  datatype Filter = Filter(kind: Kind, criteria: LogFilter, cursor: int)
  datatype Changes = HashChanges(hashes: seq<Hash>) | LogChanges(logs: seq<Log>)

  /** The filters of an environment, and the methods that make and poll them. */
  class FilterBook {
    const chain: Chain
    var filters: map<nat, Filter>
    var nextFilterId: nat

    constructor (chain: Chain)
      ensures this.chain == chain && filters == map[] && nextFilterId == 1
    {
      this.chain := chain;
      filters := map[];
      nextFilterId := 1;
    }

    method NewFilter(criteria: LogFilter, kind: Kind) returns (id: nat)
      modifies this
      ensures id == old(nextFilterId) && nextFilterId == id + 1
      ensures filters == old(filters)[id := Filter(kind, criteria, chain.Height())]
    {
      id := nextFilterId;
      nextFilterId := nextFilterId + 1;
      filters := filters[id := Filter(kind, criteria, chain.Height())];
    }

    /**
     * Answers for the blocks above the filter's cursor, up to the height, and moves the cursor there, so that
     * no block is answered for twice; `None`, and no change, for an unknown id.
     */
    method GetFilterChanges(id: nat) returns (r: Option<Changes>)
      requires chain.Valid()
      modifies this`filters
      ensures r.Some? <==> id in old(filters)
      ensures id !in old(filters) ==> filters == old(filters)
      ensures id in old(filters) ==>
                var f := old(filters)[id];
                && filters == old(filters)[id := f.(cursor := chain.Height())]
                && r.value == match f.kind
                              case BlockFilter => HashChanges(HashesBetween(chain.blocks, f.cursor + 1, chain.Height()))
                              case LogFilterKind =>
                                LogChanges(LogsBetween(chain.txs.Values(), f.criteria, f.cursor + 1, chain.Height()))
    {
      if id !in filters { return None; }
      var filter := filters[id];
      var from, until := filter.cursor + 1, chain.Height();
      filters := filters[id := filter.(cursor := until)];
      if until < from {
        LogsNone(chain.txs.Values(), filter.criteria, from, until);
        return Some(match filter.kind case BlockFilter => HashChanges([]) case LogFilterKind => LogChanges([]));
      }
      if filter.kind.BlockFilter? {
        var hashes := GetHashes(from, until);
        return Some(HashChanges(hashes));
      }
      var logs := GetLogs(filter.criteria, from, until);
      return Some(LogChanges(logs));
    }

    method GetHashes(from: int, until: int) returns (hashes: seq<Hash>)
      requires chain.Valid() && from <= until
      ensures hashes == HashesBetween(chain.blocks, from, until)
    {
      hashes := [];
      var n := from;
      while n <= until
        invariant n <= until + 1 && hashes == HashesBetween(chain.blocks, from, n - 1)
      {
        var block := chain.GetBlockByNumber(n);
        if block.Some? { hashes := hashes + [block.value.hash]; }
        n := n + 1;
      }
    }

    method GetLogs(filter: LogFilter, from: int, until: int) returns (out: seq<Log>)
      requires chain.Valid()
      ensures out == LogsBetween(chain.txs.Values(), filter, from, until)
    {
      var txs := chain.txs.Values();
      out := [];
      for i := 0 to |txs|
        invariant out == LogsBetween(txs[..i], filter, from, until)
      {
        LogsPush(txs, i, filter, from, until);
        if from <= txs[i].blockNumber <= until {
          var some := MatchingLogs(txs[i].logs, filter);
          out := out + some;
        }
      }
      assert txs[..|txs|] == txs;
    }
  }

  lemma LogsPush(txs: seq<Tx>, i: nat, filter: LogFilter, from: int, until: int)
    requires i < |txs|
    ensures LogsBetween(txs[..i + 1], filter, from, until) ==
            if from <= txs[i].blockNumber <= until then LogsBetween(txs[..i], filter, from, until) + Matching(txs[i].logs, filter)
            else LogsBetween(txs[..i], filter, from, until)
  {
    assert txs[..i + 1][..i] == txs[..i];
  }

  method MatchingLogs(logs: seq<Log>, filter: LogFilter) returns (out: seq<Log>)
    ensures out == Matching(logs, filter)
  {
    out := [];
    for i := 0 to |logs|
      invariant out == Matching(logs[..i], filter)
    {
      assert logs[..i + 1][..i] == logs[..i];
      if LogMatches(logs[i], filter) { out := out + [logs[i]]; }
    }
    assert logs[..|logs|] == logs;
  }

  /** A socket's `onBlock`, for one log subscription: the events it has been pushed. */
  class LogSubscription {
    const filter: LogFilter
    var pushed: seq<Log>

    constructor (filter: LogFilter)
      ensures this.filter == filter && pushed == []
    {
      this.filter := filter;
      pushed := [];
    }

    method OnBlock(txs: seq<Tx>)
      modifies this`pushed
      ensures pushed == old(pushed) + Pushed(txs, filter)
    {
      for i := 0 to |txs|
        invariant pushed == old(pushed) + Pushed(txs[..i], filter)
      {
        assert txs[..i + 1][..i] == txs[..i];
        var some := MatchingLogs(txs[i].logs, filter);
        pushed := pushed + some;
      }
      assert txs[..|txs|] == txs;
    }
  }
}
