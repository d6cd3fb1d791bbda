/** An environment (src/environment.ts) as a value, and the class whose methods are proved against it. */
module Environments {
  import opened Options
  import opened Ordered
  import opened Overlays
  import opened Chains

  /** What the parent chain answers for a place, read at a block. */
  type Parent = (int, Place) -> string

  datatype Saved = Saved(accounts: Accounts, blockNumber: int, chain: Exported, time: int)

  datatype EnvState = EnvState(accounts: Accounts, blockNumber: int, forkBlock: int, chain: ChainState,
                               timeOffset: int, snapshots: map<nat, Saved>, snapshotSeq: nat)
  {
    /** What a read answers: the value written here, else the parent's at the fork block. */
    function Read(parent: Parent, p: Place): string {
      var own := Get(accounts, p);
      if own.Some? then own.value else parent(forkBlock, p)
    }

    /** `remember`: the value the overlay has now is noted, unless it is the one about to be written. */
    function Remember(p: Place, next: string): EnvState {
      var before := Get(accounts, p);
      if before == Some(next) then this else this.(chain := chain.Note(Entry(p), before))
    }

    /** A recorded write: the value it replaces is noted, then it is stored. */
    function Record(p: Place, v: string): EnvState {
      var s := Remember(p, v);
      s.(accounts := Put(accounts, p, v))
    }

    function WriteAccount(a: string, balance: string, nonce: string): EnvState {
      Record(Place(a, Balance), balance).Record(Place(a, Nonce), nonce)
    }

    function NextBlock(hash: Hash, parentHash: Hash, timestamp: int, txs: seq<Tx>): Block {
      Block(chain.Height() + 1, hash, parentHash, timestamp, Hashes(txs))
    }

    function Mine(hash: Hash, parentHash: Hash, timestamp: int, txs: seq<Tx>): EnvState {
      var c := chain.Add(NextBlock(hash, parentHash, timestamp, txs), txs);
      this.(chain := c, blockNumber := |c.blocks|)
    }

    function TakeSnapshot(): EnvState
      requires chain.txs.Valid()
    {
      this.(snapshots := snapshots[snapshotSeq := Saved(accounts, blockNumber, chain.Export(), timeOffset)],
            snapshotSeq := snapshotSeq + 1)
    }

    /** Writes every account of the overlay whole onto a fresh state, recording as it goes. */
    function Reapply(parent: Parent): EnvState {
      this.(accounts := Reapplied(accounts, parent, forkBlock),
            chain := chain.(pending := AlsoNoted(chain.pending, FilledIn(accounts))))
    }

    /** Puts back what the snapshot held, rolling the chain back to the height it is taken to have had. */
    function RollBack(id: nat): EnvState
      requires id in snapshots
    {
      var saved := snapshots[id];
      this.(snapshots := Older(snapshots, id),
            accounts := saved.accounts, blockNumber := saved.blockNumber, timeOffset := saved.time,
            chain := chain.RollbackTo(saved.chain.forkHeight + |saved.chain.blocks|)
                          .ResetHistory(saved.chain.history))
    }

    function Revert(id: nat, parent: Parent): EnvState {
      if id in snapshots then RollBack(id).Reapply(parent) else this
    }

    function SyncToHead(head: int, parent: Parent): EnvState {
      if head <= forkBlock || head <= chain.Height() then this
      else this.(chain := chain.AdvanceForkTo(head), forkBlock := head).Reapply(parent)
    }

    /** Another process waking the environment from its stored row. */
    function Restart(parent: Parent): EnvState
      requires chain.txs.Valid()
    {
      EnvState(Restored(accounts, parent, forkBlock), blockNumber, forkBlock, Restore(chain.Export()), 0, map[], 0)
    }

    /** What is left at a place once everything after block `n` is undone. */
    function At(n: int, p: Place): Option<string> {
      Back(Get(accounts, p), chain.JournalsAfter(n), Entry(p))
    }
  }

  /** The snapshots a revert to `id` leaves. */
  function Older<T>(snapshots: map<nat, T>, id: nat): map<nat, T> {
    map k | k in snapshots && k < id :: snapshots[k]
  }

  function Else(v: Option<string>, other: string): Option<string> {
    if v.Some? then v else Some(other)
  }

  function Reapplied(o: Accounts, parent: Parent, tag: int): Accounts {
    map a | a in o :: o[a].(balance := Else(o[a].balance, parent(tag, Place(a, Balance))),
                            nonce := Else(o[a].nonce, parent(tag, Place(a, Nonce))))
  }

  /** The entries `reapplyOverlay` fills in for accounts that had only code or storage. */
  function FilledIn(o: Accounts): set<string> {
    (set a | a in o && o[a].balance.None? :: Entry(Place(a, Balance)))
    + (set a | a in o && o[a].nonce.None? :: Entry(Place(a, Nonce)))
  }

  function AlsoNoted(pending: Journal, entries: set<string>): Journal {
    map e | e in pending.Keys + entries :: if e in pending then pending[e] else None
  }

  /** An account as `Environment.restore` sets it: balance and nonce each write the account whole. */
  function RestoredAccount(a: Account, balance: string, nonce: string): Account {
    if a.balance.Some? || a.nonce.Some?
    then a.(balance := Else(a.balance, balance), nonce := Else(a.nonce, nonce))
    else a
  }

  function Restored(o: Accounts, parent: Parent, tag: int): Accounts {
    map a | a in o && o[a] != NO_FIELDS ::
      RestoredAccount(o[a], parent(tag, Place(a, Balance)), parent(tag, Place(a, Nonce)))
  }

  /** A restore keeps every field exactly when each account has both its balance and its nonce or neither. */
  lemma RestoredKeepsFields(o: Accounts, parent: Parent, tag: int)
    requires Clean(o)
    ensures SameFields(o, Restored(o, parent, tag)) <==> Paired(o)
    ensures Clean(Restored(o, parent, tag))
  {
    var r := Restored(o, parent, tag);
    if SameFields(o, r) {
      forall a | a in o ensures o[a].balance.Some? <==> o[a].nonce.Some? {
        assert Get(o, Place(a, Balance)) == Get(r, Place(a, Balance));
        assert Get(o, Place(a, Nonce)) == Get(r, Place(a, Nonce));
      }
    }
  }

  /** An entry is filled in exactly when its account is in the overlay without that field. */
  lemma FilledInIs(o: Accounts, p: Place)
    requires Normal(p) && Clean(o)
    ensures Entry(p) in FilledIn(o) <==>
            Get(o, p).None? && p.address in o && (p.field.Balance? || p.field.Nonce?)
  {
    EntryRoundTrip(p);
    forall a | a in o ensures Split(Entry(Place(a, Balance))) == (a, Some("balance"))
                              && Split(Entry(Place(a, Nonce))) == (a, Some("nonce"))
    {
      EntryRoundTrip(Place(a, Balance));
      EntryRoundTrip(Place(a, Nonce));
    }
  }

  // ---- the class -----------------------------------------------------------------------------

  /** Recording the value a place holds anyway leaves overlay and journal alone. */
  lemma RecordAgain(s: EnvState, p: Place, v: string)
    requires Get(s.accounts, p) == Some(v)
    ensures s.Record(p, v) == s
  {
    PutAgain(s.accounts, p, v);
  }

  lemma PutAgain(o: Accounts, p: Place, v: string)
    requires Get(o, p) == Some(v)
    ensures Put(o, p, v) == o
  {
    var a := o[p.address];
    if p.field.Slot? {
      assert a.storage[p.field.slot := v] == a.storage;
      assert a.(storage := a.storage[p.field.slot := v]) == a;
    }
    assert Put(o, p, v)[p.address] == a;
    assert o[p.address := a] == o;
  }

  /** Nothing of the chain changed but what is pending. */
  ghost predicate OnlyNoted(c: ChainState, c': ChainState) {
    c' == c.(pending := c'.pending)
  }

  /** The overlay once the accounts outside `left` have been replayed. */
  function PartlyReapplied(s: EnvState, left: set<string>, parent: Parent): EnvState {
    s.(accounts := s.accounts + Reapplied(s.accounts - left, parent, s.forkBlock),
       chain := s.chain.(pending := AlsoNoted(s.chain.pending, FilledIn(s.accounts - left))))
  }

  /** `t` is `s` on a chain `c`, and counts its blocks. */
  ghost predicate OnChain(s: EnvState, c: ChainState, t: EnvState) {
    t == s.(chain := c, blockNumber := |c.blocks|)
  }

  lemma MineIs(s: EnvState, block: Block, txs: seq<Tx>, c: ChainState, t: EnvState)
    requires block == s.NextBlock(block.hash, block.parentHash, block.timestamp, txs)
    requires c == s.chain.Add(block, txs) && OnChain(s, c, t)
    ensures t == s.Mine(block.hash, block.parentHash, block.timestamp, txs)
  {}

  /** `t` is `s` with the snapshot's own fields put back, the chain apart. */
  ghost predicate PutBack(s: EnvState, id: nat, saved: Saved, t: EnvState) {
    t == s.(snapshots := Older(s.snapshots, id), accounts := saved.accounts, blockNumber := saved.blockNumber,
            timeOffset := saved.time)
  }

  lemma RollBackIs(s: EnvState, id: nat, saved: Saved, c: ChainState, t: EnvState)
    requires id in s.snapshots && saved == s.snapshots[id]
    requires c == s.chain.RollbackTo(saved.chain.forkHeight + |saved.chain.blocks|).ResetHistory(saved.chain.history)
    requires PutBack(s.(chain := c), id, saved, t)
    ensures t == s.RollBack(id)
  {}

  class Environment {
    const parent: Parent
    var accounts: Accounts
    var blockNumber: int
    var forkBlock: int
    var chain: Chain
    var timeOffset: int
    var snapshots: map<nat, Saved>
    var snapshotSeq: nat
    /** The version: it only grows, and every recorded write, block and head sync makes it larger. */
    var revision: nat
    /** Whether the state manager's writes reach the overlay; `call` and `simulateBundle` turn it off. */
    var recording: bool
    /** While this is set no write reaches the overlay, the setters' own included. */
    var suppress: bool

    ghost function View(): EnvState
      reads this, chain
    {
      EnvState(accounts, blockNumber, forkBlock, chain.View(), timeOffset, snapshots, snapshotSeq)
    }

    ghost predicate Valid()
      reads this, chain
    {
      chain.Valid()
    }

    constructor (parent: Parent, forkBlock: nat)
      ensures Valid() && fresh(chain) && this.parent == parent
      ensures View() == EnvState(map[], 0, forkBlock, Empty(forkBlock), 0, map[], 0)
      ensures recording && !suppress
    {
      this.parent := parent;
      accounts, blockNumber, this.forkBlock := map[], 0, forkBlock;
      chain := new Chain(forkBlock);
      timeOffset, snapshots, snapshotSeq := 0, map[], 0;
      revision, recording, suppress := 0, true, false;
    }

    method ReadPlace(p: Place) returns (v: string)
      ensures v == View().Read(parent, p)
    {
      var own := Get(accounts, p);
      v := if own.Some? then own.value else parent(forkBlock, p);
    }

    // ---- recorded writes

    method Remember(p: Place, next: string)
      requires Valid()
      modifies chain
      ensures Valid() && View() == if suppress then old(View()) else old(View()).Remember(p, next)
    {
      if suppress { return; }
      var before := Get(accounts, p);
      if before == Some(next) { return; }
      chain.Note(Entry(p), before);
    }

    /** `track` and the store that follows it. */
    method Track(p: Place, v: string)
      requires Valid()
      modifies this`accounts, this`revision
      ensures Valid() && View() == if suppress then old(View()) else old(View()).(accounts := Put(old(accounts), p, v))
      ensures revision == old(revision) + if suppress then 0 else 1
    {
      if suppress { return; }
      revision := revision + 1;
      accounts := Put(accounts, p, v);
    }

    method Record(p: Place, v: string)
      requires Valid()
      modifies this`accounts, this`revision, chain
      ensures Valid() && View() == if suppress then old(View()) else old(View()).Record(p, v)
      ensures revision == old(revision) + if suppress then 0 else 1
    {
      Remember(p, v);
      Track(p, v);
    }

    /** The wrapped `putAccount`: an account is written whole. */
    method PutAccount(a: string, balance: string, nonce: string)
      requires Valid()
      modifies this`accounts, this`revision, chain
      ensures Valid()
      ensures View() == if recording && !suppress then old(View()).WriteAccount(a, balance, nonce) else old(View())
      ensures (revision > old(revision)) == (recording && !suppress) && revision >= old(revision)
    {
      if recording && !suppress {
        Remember(Place(a, Balance), balance);
        Remember(Place(a, Nonce), nonce);
        Track(Place(a, Balance), balance);
        Track(Place(a, Nonce), nonce);
      }
    }

    /** The wrapped `putCode` and `putStorage`: recorded unless `filling` or suppressed. */
    method PutField(p: Place, v: string, filling: bool)
      requires Valid() && (p.field.Code? || p.field.Slot?)
      modifies this`accounts, this`revision, chain
      ensures Valid()
      ensures View() == if recording && !suppress && !filling then old(View()).Record(p, v) else old(View())
      ensures (revision > old(revision)) == (recording && !suppress && !filling) && revision >= old(revision)
    {
      if recording && !suppress && !filling { Record(p, v); }
    }

    /** `nonce` is what the live state has for the account. */
    method SetBalance(a: string, wei: string, nonce: string)
      requires Valid()
      modifies this`accounts, this`revision, chain
      ensures Valid()
      ensures View() == if suppress then old(View())
                        else if recording then old(View()).WriteAccount(a, wei, nonce)
                        else old(View()).Record(Place(a, Balance), wei)
    {
      PutAccount(a, wei, nonce);
      if recording && !suppress { RecordAgain(View(), Place(a, Balance), wei); }
      Record(Place(a, Balance), wei);
    }

    /** `balance` is what the live state has for the account. */
    method SetNonce(a: string, nonce: string, balance: string)
      requires Valid()
      modifies this`accounts, this`revision, chain
      ensures Valid()
      ensures View() == if suppress then old(View())
                        else if recording then old(View()).WriteAccount(a, balance, nonce)
                        else old(View()).Record(Place(a, Nonce), nonce)
    {
      PutAccount(a, balance, nonce);
      if recording && !suppress { RecordAgain(View(), Place(a, Nonce), nonce); }
      Record(Place(a, Nonce), nonce);
    }

    /** `setCode` and `setStorageAt`: through the wrapped write, then noted and stored again. */
    method SetField(p: Place, v: string)
      requires Valid() && (p.field.Code? || p.field.Slot?)
      modifies this`accounts, this`revision, chain
      ensures Valid() && View() == if suppress then old(View()) else old(View()).Record(p, v)
      ensures (revision > old(revision)) == !suppress && revision >= old(revision)
    {
      PutField(p, v, false);
      PutGet(old(accounts), p, v, p);
      if recording && !suppress { RecordAgain(View(), p, v); }
      Record(p, v);
    }

    // ---- blocks

    method MineBlock(hash: Hash, parentHash: Hash, timestamp: int, txs: seq<Tx>)
      requires Valid() && View().chain.Fits(View().NextBlock(hash, parentHash, timestamp, txs), txs)
      modifies this`blockNumber, this`revision, chain
      ensures Valid() && View() == old(View()).Mine(hash, parentHash, timestamp, txs)
      ensures revision == old(revision) + 1
    {
      var block := Block(chain.Height() + 1, hash, parentHash, timestamp, Hashes(txs));
      ghost var s := View();
      revision := revision + 1;
      AddBlock(block, txs);
      MineIs(s, block, txs, chain.View(), View());
    }

    method AddBlock(block: Block, txs: seq<Tx>)
      requires Valid() && View().chain.Fits(block, txs)
      modifies this`blockNumber, chain
      ensures Valid() && chain.View() == old(chain.View()).Add(block, txs)
      ensures OnChain(old(View()), chain.View(), View())
    {
      chain.Add(block, txs);
      blockNumber := |chain.blocks|;
    }

    /** What is left of the overlay once every journal after block `number` is undone, newest first. */
    method At(number: int) returns (past: Accounts)
      requires Valid() && View().chain.AllProper() && Clean(accounts)
      ensures Clean(past) && forall p | Normal(p) :: Get(past, p) == View().At(number, p)
    {
      var js := chain.JournalsAfter(number);
      LaterProper(chain.View(), chain.Height(), number);
      past := UndoAll(accounts, js);
    }

    // ---- snapshots

    method Snapshot() returns (id: nat)
      requires Valid()
      modifies this`snapshots, this`snapshotSeq
      ensures Valid() && View() == old(View()).TakeSnapshot() && id == old(snapshotSeq)
    {
      id := snapshotSeq;
      snapshotSeq := snapshotSeq + 1;
      var data := chain.Export();
      snapshots := snapshots[id := Saved(accounts, blockNumber, data, timeOffset)];
    }

    method Revert(id: nat) returns (ok: bool)
      requires Valid() && recording && !suppress
      modifies this, chain
      ensures Valid() && View() == old(View()).Revert(id, parent)
      ensures ok == (id in old(snapshots))
      ensures if ok && old(snapshots)[id].accounts != map[] then revision > old(revision) else revision == old(revision)
    {
      if id !in snapshots { return false; }
      RollBack(id);
      ReapplyOverlay();
      return true;
    }

    /** Everything a revert puts back before the overlay is replayed. */
    method RollBack(id: nat)
      requires Valid() && id in snapshots
      modifies this`snapshots, this`accounts, this`blockNumber, this`timeOffset, chain
      ensures Valid() && View() == old(View()).RollBack(id)
    {
      ghost var s := View();
      var saved := snapshots[id];
      RevertChain(saved.chain);
      ghost var c := chain.View();
      assert View() == s.(chain := c);
      RestoreSaved(id, saved);
      RollBackIs(s, id, saved, c, View());
    }

    method RestoreSaved(id: nat, saved: Saved)
      requires Valid()
      modifies this`snapshots, this`accounts, this`blockNumber, this`timeOffset
      ensures Valid() && PutBack(old(View()), id, saved, View())
    {
      snapshots := Older(snapshots, id);
      accounts, blockNumber, timeOffset := saved.accounts, saved.blockNumber, saved.time;
    }

    method RevertChain(saved: Exported)
      requires Valid()
      modifies chain
      ensures Valid() && chain.View() == old(chain.View()).RollbackTo(saved.forkHeight + |saved.blocks|)
                                                         .ResetHistory(saved.history)
    {
      chain.RollbackTo(saved.forkHeight + |saved.blocks|);
      chain.ResetHistory(saved.history);
    }

    method SyncToHead(head: int) returns (advanced: bool)
      requires Valid() && recording && !suppress
      modifies this, chain
      ensures Valid() && View() == old(View()).SyncToHead(head, parent)
      ensures advanced == (head > old(forkBlock) && head > old(chain.Height()))
      ensures advanced ==> revision > old(revision)
    {
      if head <= forkBlock { return false; }
      var moved := chain.AdvanceForkTo(head);
      if !moved { return false; }
      forkBlock := head;
      revision := revision + 1;
      ReapplyOverlay();
      return true;
    }

    // ---- restoring

    /** One account of `Environment.restore`: each field present is set, through the setters. */
    method RestoreAccount(a: string, account: Account)
      requires Valid() && recording && !suppress && a !in accounts
      modifies this`accounts, this`revision, chain
      ensures Valid() && forkBlock == old(forkBlock) && OnlyNoted(old(chain.View()), chain.View())
      ensures accounts == if account == NO_FIELDS then old(accounts)
                          else old(accounts)[a := RestoredAccount(account, parent(forkBlock, Place(a, Balance)),
                                                                  parent(forkBlock, Place(a, Nonce)))]
    {
      RestoreNumbers(a, account);
      RestoreFields(a, account);
    }

    /** A field set on an environment being restored. */
    method RestoreField(p: Place, v: string)
      requires Valid() && !suppress && (p.field.Code? || p.field.Slot?)
      modifies this`accounts, this`revision, chain
      ensures Valid() && accounts == Put(old(accounts), p, v) && OnlyNoted(old(chain.View()), chain.View())
    {
      RecordNotes(View(), p, v);
      SetField(p, v);
    }

    method RestoreFields(a: string, account: Account)
      requires Valid() && recording && !suppress && Open(accounts, a).storage == map[] && Open(accounts, a).code.None?
      modifies this`accounts, this`revision, chain
      ensures Valid() && accounts == WithFields(old(accounts), a, account.code, account.storage)
      ensures OnlyNoted(old(chain.View()), chain.View())
    {
      ghost var o := accounts;
      if account.code.Some? { RestoreField(Place(a, Code), account.code.value); }
      var slots := account.storage.Keys;
      assert account.storage - slots == map[];
      while slots != {}
        invariant slots <= account.storage.Keys && Valid() && OnlyNoted(old(chain.View()), chain.View())
        invariant accounts == WithFields(o, a, account.code, account.storage - slots)
      {
        var slot :| slot in slots;
        WithSlot(o, a, account.code, account.storage - slots, slot, account.storage[slot]);
        assert (account.storage - slots)[slot := account.storage[slot]] == account.storage - (slots - {slot});
        RestoreField(Place(a, Slot(slot)), account.storage[slot]);
        slots := slots - {slot};
      }
      assert account.storage - {} == account.storage;
    }

    /**
     * A balance or nonce set on an environment being restored, whose live state is its overlay over the
     * parent: the other is read, and both are written.
     */
    method RestoreNumber(a: string, field: Field, v: string)
      requires Valid() && recording && !suppress && (field.Balance? || field.Nonce?)
      modifies this`accounts, this`revision, chain
      ensures Valid() && OnlyNoted(old(chain.View()), chain.View())
      ensures var own := Open(old(accounts), a);
              accounts == old(accounts)[a := own.(
                balance := if field.Balance? then Some(v) else Else(own.balance, parent(forkBlock, Place(a, Balance))),
                nonce := if field.Nonce? then Some(v) else Else(own.nonce, parent(forkBlock, Place(a, Nonce))))]
    {
      if field.Balance? {
        var nonce := ReadPlace(Place(a, Nonce));
        WriteAccountNotes(View(), a, v, nonce);
        SetBalance(a, v, nonce);
      } else {
        var balance := ReadPlace(Place(a, Balance));
        WriteAccountNotes(View(), a, balance, v);
        SetNonce(a, v, balance);
      }
    }

    method RestoreNumbers(a: string, account: Account)
      requires Valid() && recording && !suppress && a !in accounts
      modifies this`accounts, this`revision, chain
      ensures Valid() && OnlyNoted(old(chain.View()), chain.View())
      ensures accounts ==
              if account.balance.None? && account.nonce.None? then old(accounts)
              else old(accounts)[a := NO_FIELDS.(balance := Else(account.balance, parent(forkBlock, Place(a, Balance))),
                                                 nonce := Else(account.nonce, parent(forkBlock, Place(a, Nonce))))]
    {
      if account.balance.Some? {
        RestoreNumber(a, Balance, account.balance.value);
      }
      if account.nonce.Some? {
        RestoreNumber(a, Nonce, account.nonce.value);
      }
    }

    method RestoreOverlay(overlay: Accounts)
      requires Valid() && recording && !suppress && accounts == map[]
      modifies this`accounts, this`revision, chain
      ensures Valid() && accounts == Restored(overlay, parent, forkBlock)
      ensures OnlyNoted(old(chain.View()), chain.View())
    {
      var left := overlay.Keys;
      assert overlay - left == map[];
      while left != {}
        invariant left <= overlay.Keys && Valid() && OnlyNoted(old(chain.View()), chain.View())
        invariant accounts == Restored(overlay - left, parent, forkBlock)
      {
        var a :| a in left;
        RestoredMore(overlay - left, a, overlay[a], parent, forkBlock);
        assert overlay - (left - {a}) == (overlay - left)[a := overlay[a]];
        RestoreAccount(a, overlay[a]);
        left := left - {a};
      }
      assert overlay - {} == overlay;
    }

    /**
     * `Environment.restore`: the overlay replayed onto a new environment, then the blocks put in place. A
     * row without blocks leaves an empty chain, and what the replay noted is forgotten.
     */
    static method Restore(overlay: Accounts, blockNumber: int, forkBlock: nat, data: Option<Exported>, parent: Parent)
      returns (env: Environment)
      requires data.Some? ==> data.value.forkHeight >= 0 && Chains.Restore(data.value).Sound()
      ensures env.Valid() && env.View() ==
              EnvState(Restored(overlay, parent, forkBlock), blockNumber, forkBlock,
                       if data.Some? then Chains.Restore(data.value) else Empty(forkBlock), 0, map[], 0)
    {
      env := new Environment(parent, forkBlock);
      env.RestoreOverlay(overlay);
      env.blockNumber := blockNumber;
      if data.Some? {
        env.chain := Chain.FromExport(data.value);
      } else {
        env.chain.ResetHistory(None);
      }
    }

    /** One account of the replay: written whole, then its code and slots, which are already there. */
    method ReapplyAccount(a: string, account: Account)
      requires Valid() && recording && !suppress && a in accounts && accounts[a] == account
      modifies this`accounts, this`revision, chain
      ensures Valid() && revision > old(revision)
      ensures View() == old(View()).WriteAccount(a, old(View()).Read(parent, Place(a, Balance)),
                                                    old(View()).Read(parent, Place(a, Nonce)))
    {
      var balance := ReadPlace(Place(a, Balance));
      var nonce := ReadPlace(Place(a, Nonce));
      PutAccount(a, balance, nonce);
      ReapplyRest(a, account);
    }

    method ReapplyRest(a: string, account: Account)
      requires Valid() && a in accounts
      requires accounts[a].code == account.code && accounts[a].storage == account.storage
      modifies this`accounts, this`revision, chain
      ensures Valid() && View() == old(View()) && revision >= old(revision)
    {
      if account.code.Some? {
        RecordAgain(View(), Place(a, Code), account.code.value);
        PutField(Place(a, Code), account.code.value, false);
      }
      var slots := account.storage.Keys;
      while slots != {}
        invariant slots <= account.storage.Keys && Valid() && View() == old(View())
        invariant revision >= old(revision)
      {
        var slot :| slot in slots;
        RecordAgain(View(), Place(a, Slot(slot)), account.storage[slot]);
        PutField(Place(a, Slot(slot)), account.storage[slot], false);
        slots := slots - {slot};
      }
    }

    /** Pushes the overlay onto a clean state manager, account by account, recording as it goes. */
    method ReapplyOverlay()
      requires Valid() && recording && !suppress
      modifies this`accounts, this`revision, chain
      ensures Valid() && View() == old(View()).Reapply(parent)
      ensures if old(accounts) == map[] then revision == old(revision) else revision > old(revision)
    {
      ghost var s := View();
      var entries := accounts;
      var left := entries.Keys;
      PartlyNone(s, parent);
      while left != {}
        invariant left <= entries.Keys && Valid() && View() == PartlyReapplied(s, left, parent)
        invariant if left == entries.Keys then revision == old(revision) else revision > old(revision)
      {
        var a :| a in left;
        ReapplyNext(s, left, a, entries[a]);
        left := left - {a};
      }
      PartlyAll(s, parent);
      assert entries == map[] <==> entries.Keys == {};
    }

    /** One account of the overlay `s` had, those of `left` still to come. */
    method ReapplyNext(ghost s: EnvState, ghost left: set<string>, a: string, account: Account)
      requires Valid() && recording && !suppress
      requires a in left && left <= s.accounts.Keys && s.accounts[a] == account && View() == PartlyReapplied(s, left, parent)
      modifies this`accounts, this`revision, chain
      ensures Valid() && View() == PartlyReapplied(s, left - {a}, parent) && revision > old(revision)
    {
      PartlyReads(s, left, parent, a);
      PartlyStep(s, left, parent, a);
      ReapplyAccount(a, account);
    }
  }

  lemma WriteAccountOpens(s: EnvState, a: string, balance: string, nonce: string)
    ensures s.WriteAccount(a, balance, nonce).accounts ==
            s.accounts[a := Open(s.accounts, a).(balance := Some(balance), nonce := Some(nonce))]
  {
    var s1 := s.Record(Place(a, Balance), balance);
    assert s1.accounts == s.accounts[a := Open(s.accounts, a).(balance := Some(balance))];
  }

  lemma RecordNotes(s: EnvState, p: Place, v: string)
    ensures s.Record(p, v).accounts == Put(s.accounts, p, v) && OnlyNoted(s.chain, s.Record(p, v).chain)
  {
  }

  lemma WriteAccountNotes(s: EnvState, a: string, balance: string, nonce: string)
    ensures var s1 := s.WriteAccount(a, balance, nonce);
            && s1.accounts == s.accounts[a := Open(s.accounts, a).(balance := Some(balance), nonce := Some(nonce))]
            && OnlyNoted(s.chain, s1.chain)
  {
    WriteAccountOpens(s, a, balance, nonce);
    var s0 := s.Record(Place(a, Balance), balance);
    RecordNotes(s, Place(a, Balance), balance);
    RecordNotes(s0, Place(a, Nonce), nonce);
  }

  /** The accounts restored so far: those of `o` outside `left`. */
  lemma RestoredMore(o: Accounts, a: string, account: Account, parent: Parent, tag: int)
    requires a !in o
    ensures Restored(o[a := account], parent, tag) ==
            if account == NO_FIELDS then Restored(o, parent, tag)
            else Restored(o, parent, tag)[a := RestoredAccount(account, parent(tag, Place(a, Balance)), parent(tag, Place(a, Nonce)))]
  {
  }

  /** An account given its code and slots, where it has any. */
  function WithFields(o: Accounts, a: string, code: Option<string>, storage: map<string, string>): Accounts {
    if code.None? && storage == map[] then o else o[a := Open(o, a).(code := code, storage := storage)]
  }

  lemma WithSlot(o: Accounts, a: string, code: Option<string>, storage: map<string, string>, slot: string, v: string)
    requires Open(o, a).storage == map[] && Open(o, a).code.None?
    ensures Put(WithFields(o, a, code, storage), Place(a, Slot(slot)), v)
         == WithFields(o, a, code, storage[slot := v])
  {
    assert storage[slot := v] != map[] by { assert slot in storage[slot := v]; }
  }

  lemma PartlyNone(s: EnvState, parent: Parent)
    ensures PartlyReapplied(s, s.accounts.Keys, parent) == s
  {
    var r := PartlyReapplied(s, s.accounts.Keys, parent);
    assert r.accounts == s.accounts;
    assert r.chain.pending == s.chain.pending;
  }

  lemma PartlyAll(s: EnvState, parent: Parent)
    ensures PartlyReapplied(s, {}, parent) == s.Reapply(parent)
  {
    var none: set<string> := {};
    assert s.accounts - none == s.accounts;
  }

  lemma PartlyReads(s: EnvState, left: set<string>, parent: Parent, a: string)
    requires a in left && left <= s.accounts.Keys
    ensures PartlyReapplied(s, left, parent).accounts[a] == s.accounts[a]
  {
  }

  /** Replaying one more account notes the fields it lacked and nothing else. */
  lemma PartlyStep(s: EnvState, left: set<string>, parent: Parent, a: string)
    requires a in left && left <= s.accounts.Keys
    ensures var r := PartlyReapplied(s, left, parent);
            r.WriteAccount(a, r.Read(parent, Place(a, Balance)), r.Read(parent, Place(a, Nonce)))
            == PartlyReapplied(s, left - {a}, parent)
  {
    var r := PartlyReapplied(s, left, parent);
    var account := s.accounts[a];
    PartlyReads(s, left, parent, a);
    WriteAccountIs(r, a, account, r.Read(parent, Place(a, Balance)), r.Read(parent, Place(a, Nonce)));
    assert s.accounts - (left - {a}) == (s.accounts - left)[a := account];
    ReappliedMore(s.accounts - left, a, account, parent, s.forkBlock);
    PlusUpdate(s.accounts, Reapplied(s.accounts - left, parent, s.forkBlock), a,
               account.(balance := Else(account.balance, parent(s.forkBlock, Place(a, Balance))),
                        nonce := Else(account.nonce, parent(s.forkBlock, Place(a, Nonce)))));
    PartlyPending(s.chain.pending, s.accounts - left, a, account);
  }

  lemma PlusUpdate<K, V>(m: map<K, V>, n: map<K, V>, k: K, v: V)
    ensures m + n[k := v] == (m + n)[k := v]
  {
  }

  /** The effect of a whole-account write on an account whose present fields it repeats. */
  lemma WriteAccountIs(r: EnvState, a: string, account: Account, balance: string, nonce: string)
    requires a in r.accounts && r.accounts[a] == account
    requires account.balance.Some? ==> account.balance == Some(balance)
    requires account.nonce.Some? ==> account.nonce == Some(nonce)
    ensures var j := NoteUnless(account.balance.Some?, r.chain.pending, Entry(Place(a, Balance)));
            r.WriteAccount(a, balance, nonce) ==
            r.(accounts := r.accounts[a := account.(balance := Some(balance), nonce := Some(nonce))],
               chain := r.chain.(pending := NoteUnless(account.nonce.Some?, j, Entry(Place(a, Nonce)))))
  {
    var s1 := r.Record(Place(a, Balance), balance);
    assert s1.accounts == r.accounts[a := account.(balance := Some(balance))];
    var s2 := s1.Record(Place(a, Nonce), nonce);
    assert s2.accounts == r.accounts[a := account.(balance := Some(balance), nonce := Some(nonce))];
  }

  lemma ReappliedMore(o: Accounts, a: string, account: Account, parent: Parent, tag: int)
    ensures Reapplied(o[a := account], parent, tag) ==
            Reapplied(o, parent, tag)[a := account.(balance := Else(account.balance, parent(tag, Place(a, Balance))),
                                                    nonce := Else(account.nonce, parent(tag, Place(a, Nonce))))]
  {
  }

  function NoteUnless(held: bool, j: Journal, e: string): Journal {
    if held || e in j then j else j[e := None]
  }

  lemma NoteOneMore(held: bool, pending: Journal, entries: set<string>, e: string)
    ensures NoteUnless(held, AlsoNoted(pending, entries), e) ==
            AlsoNoted(pending, entries + if held then {} else {e})
  {
  }

  lemma PartlyPending(pending: Journal, done: Accounts, a: string, account: Account)
    requires a !in done
    ensures var j := NoteUnless(account.balance.Some?, AlsoNoted(pending, FilledIn(done)), Entry(Place(a, Balance)));
            NoteUnless(account.nonce.Some?, j, Entry(Place(a, Nonce)))
            == AlsoNoted(pending, FilledIn(done[a := account]))
  {
    var es := FilledIn(done);
    FilledInMore(done, a, account);
    NoteOneMore(account.balance.Some?, pending, es, Entry(Place(a, Balance)));
    NoteOneMore(account.nonce.Some?, pending,
                es + (if account.balance.Some? then {} else {Entry(Place(a, Balance))}), Entry(Place(a, Nonce)));
  }

  lemma FilledInMore(o: Accounts, a: string, account: Account)
    requires a !in o
    ensures FilledIn(o[a := account]) ==
            FilledIn(o)
            + (if account.balance.Some? then {} else {Entry(Place(a, Balance))})
            + (if account.nonce.Some? then {} else {Entry(Place(a, Nonce))})
  {
    var o' := o[a := account];
    assert (set x | x in o' && o'[x].balance.None? :: Entry(Place(x, Balance)))
        == (set x | x in o && o[x].balance.None? :: Entry(Place(x, Balance)))
           + (if account.balance.None? then {Entry(Place(a, Balance))} else {}) by {
      forall x | x in o ensures o'[x] == o[x] {}
    }
    assert (set x | x in o' && o'[x].nonce.None? :: Entry(Place(x, Nonce)))
        == (set x | x in o && o[x].nonce.None? :: Entry(Place(x, Nonce)))
           + (if account.nonce.None? then {Entry(Place(a, Nonce))} else {}) by {
      forall x | x in o ensures o'[x] == o[x] {}
    }
  }
}
