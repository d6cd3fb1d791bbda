/** `ForkStateManager` with the recording hooks on its writes, and the runs that are thrown away. */
module StateManagers {
  import opened Options
  import opened Overlays
  import opened Environments
  import opened ForkStates
  import opened Executions
  import opened Bundles

  class ForkStateManager {
    const up: Upstream
    var accounts: Layers<string, Numbers>
    var storage: Layers<SlotKey, string>
    var code: Layers<string, string>
    /** Tells `PutStorage` that the word is the parent's, not a write. */
    var filling: bool
    var recording: bool
    var env: EnvState
    var version: nat

    ghost function View(): Machine
      reads this
    {
      Machine(accounts, storage, code, recording, env, version)
    }

    ghost predicate Valid()
      reads this
    {
      View().Ready() && !filling
    }

    constructor (up: Upstream, env: EnvState)
      ensures Valid() && this.up == up && View() == Machine([map[]], [map[]], [map[]], true, env, 0)
    {
      this.up, this.env, this.version := up, env, 0;
      accounts, storage, code, filling, recording := [map[]], [map[]], [map[]], false, true;
    }

    method GetAccount(a: string) returns (n: Numbers)
      requires Valid()
      modifies this`accounts
      ensures Valid() && View() == old(View()).Simple(up, ReadAccount(a))
      ensures n == old(View()).NumbersAt(up, a)
    {
      var local := Look(accounts, a);
      if local.Some? {
        return local.value;
      }
      n := up.numbers(a);
      accounts := PutTop(accounts, a, n);
    }

    method GetCode(a: string) returns (text: string)
      requires Valid()
      modifies this`code
      ensures Valid() && View() == old(View()).Simple(up, ReadCode(a))
      ensures text == old(View()).CodeAt(up, a)
    {
      var local := Look(code, a);
      if local.Some? {
        return local.value;
      }
      text := up.code(a);
      code := PutTop(code, a, text);
    }

    /** A fill goes through `putStorage` like a write, and is told apart by `filling` alone. */
    method PutStorage(k: SlotKey, word: string)
      requires View().Ready()
      modifies this`storage, this`env, this`version
      ensures View() == if filling then old(View()).(storage := PutTop(old(storage), k, word))
                        else old(View()).Simple(up, WriteSlot(k, word))
    {
      if recording && !filling {
        env := env.Record(Place(k.0, Field.Slot(k.1)), word);
        version := version + 1;
      }
      storage := PutTop(storage, k, word);
    }

    method GetStorage(k: SlotKey) returns (word: string)
      requires Valid()
      modifies this`storage, this`env, this`version, this`filling
      ensures Valid() && View() == old(View()).Simple(up, ReadSlot(k))
      ensures word == old(View()).SlotAt(up, k)
    {
      var local := Look(storage, k);
      if local.Some? {
        return local.value;
      }
      word := up.slots(k);
      filling := true;
      PutStorage(k, word);
      filling := false;
    }

    method PutAccount(a: string, n: Numbers)
      requires Valid()
      modifies this`accounts, this`env, this`version
      ensures Valid() && View() == old(View()).Simple(up, WriteAccount(a, n))
    {
      if recording {
        env := env.Record(Place(a, Balance), Hex(n.balance));
        env := env.Record(Place(a, Nonce), Hex(n.nonce));
        version := version + 1;
      }
      accounts := PutTop(accounts, a, n);
    }

    method PutCode(a: string, text: string)
      requires Valid()
      modifies this`code, this`env, this`version
      ensures Valid() && View() == old(View()).Simple(up, WriteCode(a, text))
    {
      if recording {
        env := env.Record(Place(a, Field.Code), text);
        version := version + 1;
      }
      code := PutTop(code, a, text);
    }

    method Checkpoint()
      requires Valid()
      modifies this`accounts, this`storage, this`code
      ensures Valid() && View() == old(View()).Checkpoint()
    {
      accounts, storage, code := accounts + [map[]], storage + [map[]], code + [map[]];
    }

    /** The top layer of each of the three caches is folded into the one under it. */
    method Commit()
      requires Valid() && |accounts| >= 2 && |storage| >= 2 && |code| >= 2
      modifies this`accounts, this`storage, this`code
      ensures Valid() && View() == old(View()).Commit()
    {
      accounts, storage, code := Folded(accounts), Folded(storage), Folded(code);
    }

    method Revert()
      requires Valid() && |accounts| >= 2 && |storage| >= 2 && |code| >= 2
      modifies this`accounts, this`storage, this`code
      ensures Valid() && View() == old(View()).Revert()
    {
      accounts, storage, code := Dropped(accounts), Dropped(storage), Dropped(code);
    }

    method RunSimple(cmd: Cmd)
      requires Valid() && !cmd.Frame?
      modifies this
      ensures Valid() && View() == old(View()).Simple(up, cmd)
    {
      match cmd
      case ReadAccount(a) => var _ := GetAccount(a);
      case ReadCode(a) => var _ := GetCode(a);
      case ReadSlot(k) => var _ := GetStorage(k);
      case WriteAccount(a, n) => PutAccount(a, n);
      case WriteCode(a, text) => PutCode(a, text);
      case WriteSlot(k, word) => PutStorage(k, word);
    }

    method Run(cmds: seq<Cmd>)
      requires Valid()
      modifies this
      ensures Valid() && View() == Exec(up, old(View()), cmds)
      decreases cmds
    {
      if cmds == [] {
        return;
      }
      var first := cmds[0];
      if first.Frame? {
        Checkpoint();
        Run(first.body);
        if first.ok {
          Commit();
        } else {
          Revert();
        }
      } else {
        RunSimple(first);
      }
      Run(cmds[1..]);
    }

    /** A run inside a checkpoint, which is left for the caller to close. */
    method RunInside(cmds: seq<Cmd>)
      requires Valid()
      modifies this
      ensures Valid() && View() == Exec(up, old(View()).Checkpoint(), cmds)
      ensures |accounts| >= 2 && |storage| >= 2 && |code| >= 2
    {
      Checkpoint();
      Run(cmds);
    }

    /** `call`: overrides and a run, after which every cache, the overlay, the journal and the version are as before. */
    method Call(overrides: seq<Cmd>, body: seq<Cmd>, ok: bool)
      requires Valid() && recording
      modifies this
      ensures Valid() && View() == old(View())
    {
      Checkpoint();
      recording := false;
      Run(overrides + [Frame(body, ok)]);
      recording := true;
      CallLeavesNoTrace(up, old(View()), overrides, body, ok);
      Revert();
    }

    method SetNonce(a: string, nonce: nat)
      requires Valid()
      modifies this
      ensures Valid() && View() == WithNonce(up, old(View()), a, nonce)
    {
      var account := GetAccount(a);
      PutAccount(a, account.(nonce := nonce));
    }

    /** What follows a run that finished: its writes and the nonce stay, or only the nonce does. */
    method Settle(sender: string, nonce: nat, o: Outcome)
      requires Valid() && o.Finished?
      modifies this
      ensures Valid() && View() == Bundles.Settle(up, old(View()), sender, nonce, o)
    {
      RunInside([Frame(o.body, o.ok)]);
      if o.ok {
        SetNonce(sender, nonce);
        Commit();
      } else {
        Revert();
        SetNonce(sender, nonce);
      }
    }

    method Abandon(done: seq<Cmd>)
      requires Valid()
      modifies this
      ensures Valid() && View() == Bundles.Abandon(up, old(View()), done)
    {
      RunInside(done);
      Revert();
    }

    method SimulateFrom(index: nat, account: Numbers, r: Request, bounds: Bounds, o: Outcome) returns (result: BundleResult)
      requires Valid()
      modifies this
      ensures Valid() && View() == Bundles.SimulateFrom(up, old(View()), account, r, bounds, o)
      ensures result == ResultOf(account.balance, index, r, bounds, o)
    {
      if r.value > account.balance {
        return Refused(index, r, InsufficientFunds(account.balance, r.value));
      }
      if r.GasLimit() < bounds.Minimum() {
        return Refused(index, r, IntrinsicGasTooLow(r.GasLimit(), bounds.Minimum()));
      }
      if o.Threw? {
        Abandon(o.done);
        return Refused(index, r, EvmError(o.message));
      }
      Settle(r.From(), account.nonce + 1, o);
      return Ended(index, r, bounds, o);
    }

    method SimulateOne(index: nat, r: Request, bounds: Bounds, o: Outcome) returns (result: BundleResult)
      requires Valid()
      modifies this
      ensures Valid() && View() == Bundles.SimulateOne(up, old(View()), r, bounds, o)
      ensures result == ResultOf(old(View()).NumbersAt(up, r.From()).balance, index, r, bounds, o)
    {
      var account := GetAccount(r.From());
      result := SimulateFrom(index, account, r, bounds, o);
    }

    /** Takes the caches from before transaction `i` to after it, and gives that transaction's result. */
    method SimulateNext(ghost open: Machine, requests: seq<Request>, bounds: Request -> Bounds, script: seq<Outcome>, i: nat)
      returns (result: BundleResult)
      requires Valid() && open.Ready() && i < |requests| == |script|
      requires View() == MachineAt(up, open, requests, bounds, script, i)
      modifies this
      ensures Valid() && View() == MachineAt(up, open, requests, bounds, script, i + 1)
      ensures result == ResultAt(up, open, requests, bounds, script, i)
    {
      result := SimulateOne(i, requests[i], bounds(requests[i]), script[i]);
    }

    method RunBundle(requests: seq<Request>, bounds: Request -> Bounds, script: seq<Outcome>)
      returns (results: seq<BundleResult>, total: nat, failed: bool)
      requires Valid() && |requests| == |script|
      modifies this
      ensures Valid() && View() == MachineAt(up, old(View()), requests, bounds, script, |requests|)
      ensures results == Results(up, old(View()), requests, bounds, script, |requests|)
      ensures total == TotalGas(results) && failed == Failed(results)
    {
      results, total, failed := [], 0, false;
      ghost var open := View();
      for i := 0 to |requests|
        invariant Valid() && View() == MachineAt(up, open, requests, bounds, script, i)
        invariant results == Results(up, open, requests, bounds, script, i)
        invariant total == TotalGas(results) && failed == Failed(results)
      {
        var result := SimulateNext(open, requests, bounds, script, i);
        ResultsGrow(up, open, requests, bounds, script, i);
        results, total, failed := results + [result], total + result.gasUsed, failed || result.status == 0;
      }
    }

    /** `simulateBundle`: what it answers is the sequential fold, and the state is as it was. */
    method SimulateBundle(requests: seq<Request>, overrides: seq<Cmd>, bounds: Request -> Bounds, script: seq<Outcome>)
      returns (answer: Answer)
      requires Valid() && recording && |requests| == |script|
      modifies this
      ensures Valid() && View() == old(View())
      ensures answer == Bundles.SimulateBundle(up, old(View()), requests, overrides, bounds, script)
    {
      if requests == [] {
        return Empty;
      }
      if |requests| > MAX_BUNDLE {
        return TooLong(|requests|);
      }
      Checkpoint();
      recording := false;
      Run(overrides);
      var results, total, failed := RunBundle(requests, bounds, script);
      recording := true;
      BundleLeavesNoTrace(up, old(View()), requests, overrides, bounds, script);
      Revert();
      return Answer(results, total, failed);
    }
  }

}
