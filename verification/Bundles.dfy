/**
 * `simulateBundle` (src/environment.ts:710-876): transactions run one after another on
 * layers that are dropped at the end. What the EVM did for each is given, transaction by transaction;
 * every outcome is allowed.
 */
module Bundles {
  import opened Options
  import opened Environments
  import opened ForkStates
  import opened Executions

  const ANONYMOUS := "0x0000000000000000000000000000000000000000"
  const DEFAULT_GAS: nat := 30_000_000
  const MAX_BUNDLE: nat := 64
  const MAX_REFUND_QUOTIENT: nat := 5

  datatype Request = Request(sender: Option<string>, value: nat, gas: Option<nat>)
  {
    function From(): string { if sender.Some? then sender.value else ANONYMOUS }

    function GasLimit(): nat { if gas.Some? then gas.value else DEFAULT_GAS }
  }

  /** `gasBounds`: what the transaction costs before it runs, and the least it can be charged. */
  datatype Bounds = Bounds(intrinsic: nat, floor: nat)
  {
    function Minimum(): nat { if intrinsic > floor then intrinsic else floor }
  }

  datatype Outcome =
    | Threw(done: seq<Cmd>, message: string)
    | Finished(body: seq<Cmd>, ok: bool, executionGas: nat, refund: nat, returnValue: string, logs: seq<string>)

  datatype Problem =
    | InsufficientFunds(has: nat, wants: nat)
    | IntrinsicGasTooLow(have: nat, want: nat)
    | EvmError(message: string)
    | Reverted(revertData: string)

  datatype BundleResult = BundleResult(index: nat, from: string, status: nat, gasUsed: nat, returnValue: string,
                                       error: Option<Problem>, logs: seq<string>)

  datatype Answer =
    | Empty
    | TooLong(size: nat)
    | Answer(results: seq<BundleResult>, gasUsed: nat, failed: bool)

  /** `gasUsedBy`: intrinsic and execution, less the capped refund, and never under the floor. */
  function GasUsedBy(bounds: Bounds, o: Outcome): nat
    requires o.Finished?
  {
    var spent := bounds.intrinsic + o.executionGas;
    var cap := spent / MAX_REFUND_QUOTIENT;
    var used := spent - if o.refund < cap then o.refund else cap;
    if used > bounds.floor then used else bounds.floor
  }

  function Refused(index: nat, r: Request, problem: Problem): BundleResult {
    BundleResult(index, r.From(), 0, 0, "0x", Some(problem), [])
  }

  function Ended(index: nat, r: Request, bounds: Bounds, o: Outcome): BundleResult
    requires o.Finished?
  {
    BundleResult(index, r.From(), if o.ok then 1 else 0, GasUsedBy(bounds, o), o.returnValue,
                 if o.ok then None else Some(Reverted(o.returnValue)), o.logs)
  }

  /** Sets the nonce of an account read through the caches. */
  function WithNonce(up: Upstream, s: Machine, a: string, nonce: nat): Machine
    requires s.Ready()
  {
    var read := s.Simple(up, ReadAccount(a));
    read.Simple(up, WriteAccount(a, read.NumbersAt(up, a).(nonce := nonce)))
  }

  /** A run that finished: its writes and the nonce are committed, or undone and the nonce set again. */
  function Settle(up: Upstream, s: Machine, sender: string, nonce: nat, o: Outcome): (t: Machine)
    requires s.Ready() && o.Finished?
    ensures |t.accounts| == |s.accounts| && |t.storage| == |s.storage| && |t.code| == |s.code|
  {
    var ran := Exec(up, s.Checkpoint(), [Frame(o.body, o.ok)]);
    if o.ok then WithNonce(up, ran, sender, nonce).Commit()
    else WithNonce(up, ran.Revert(), sender, nonce)
  }

  /** A run that threw is undone as far as it got. */
  function Abandon(up: Upstream, s: Machine, done: seq<Cmd>): (t: Machine)
    requires s.Ready()
    ensures |t.accounts| == |s.accounts| && |t.storage| == |s.storage| && |t.code| == |s.code|
  {
    Exec(up, s.Checkpoint(), done).Revert()
  }

  /** The first thing found wrong with a transaction, before it runs or because it would not start. */
  function ProblemOf(balance: nat, r: Request, bounds: Bounds, o: Outcome): Option<Problem> {
    if r.value > balance then Some(InsufficientFunds(balance, r.value))
    else if r.GasLimit() < bounds.Minimum() then Some(IntrinsicGasTooLow(r.GasLimit(), bounds.Minimum()))
    else if o.Threw? then Some(EvmError(o.message))
    else None
  }

  /** `simulateOne` from the point where it has read its sender. */
  function SimulateFrom(up: Upstream, s: Machine, account: Numbers, r: Request, bounds: Bounds, o: Outcome): (t: Machine)
    requires s.Ready()
    ensures |t.accounts| == |s.accounts| && |t.storage| == |s.storage| && |t.code| == |s.code|
  {
    if r.value > account.balance || r.GasLimit() < bounds.Minimum() then s
    else if o.Threw? then Abandon(up, s, o.done)
    else Settle(up, s, r.From(), account.nonce + 1, o)
  }

  /** The state `simulateOne` leaves. */
  function SimulateOne(up: Upstream, s: Machine, r: Request, bounds: Bounds, o: Outcome): (t: Machine)
    requires s.Ready()
    ensures |t.accounts| == |s.accounts| && |t.storage| == |s.storage| && |t.code| == |s.code|
  {
    SimulateFrom(up, s.Simple(up, ReadAccount(r.From())), s.NumbersAt(up, r.From()), r, bounds, o)
  }

  /** What `simulateOne` reports. */
  function ResultOf(balance: nat, index: nat, r: Request, bounds: Bounds, o: Outcome): BundleResult {
    var problem := ProblemOf(balance, r, bounds, o);
    if problem.Some? then Refused(index, r, problem.value) else Ended(index, r, bounds, o)
  }

  /** The machine transaction `i` starts on. */
  function MachineAt(up: Upstream, s: Machine, requests: seq<Request>, bounds: Request -> Bounds, script: seq<Outcome>, i: nat)
    : (t: Machine)
    requires s.Ready() && i <= |requests| == |script|
    ensures |t.accounts| == |s.accounts| && |t.storage| == |s.storage| && |t.code| == |s.code|
  {
    if i == 0 then s
    else SimulateOne(up, MachineAt(up, s, requests, bounds, script, i - 1), requests[i - 1],
                     bounds(requests[i - 1]), script[i - 1])
  }

  function ResultAt(up: Upstream, s: Machine, requests: seq<Request>, bounds: Request -> Bounds, script: seq<Outcome>, i: nat)
    : BundleResult
    requires s.Ready() && i < |requests| == |script|
  {
    var start := MachineAt(up, s, requests, bounds, script, i);
    ResultOf(start.NumbersAt(up, requests[i].From()).balance, i, requests[i], bounds(requests[i]), script[i])
  }

  function TotalGas(results: seq<BundleResult>): nat {
    if results == [] then 0 else TotalGas(results[..|results| - 1]) + results[|results| - 1].gasUsed
  }

  /** The machine the bundle's own checkpoint and overrides leave. */
  function Opened(up: Upstream, s: Machine, overrides: seq<Cmd>): (t: Machine)
    requires s.Ready()
    ensures t.Ready() && |t.accounts| == |s.accounts| + 1 && |t.storage| == |s.storage| + 1 && |t.code| == |s.code| + 1
  {
    Exec(up, s.Checkpoint().(recording := false), overrides)
  }

  // ---- the flat bundle ------------------------------------------------------------------------------

  ghost function SetNonce(v: View, a: string, nonce: nat): (w: View)
    requires v.Total()
    ensures w.Total()
  {
    v.(numbers := v.numbers[a := v.numbers[a].(nonce := nonce)])
  }

  ghost predicate Skipped(v: View, r: Request, bounds: Bounds, o: Outcome)
    requires v.Total()
  {
    ProblemOf(v.numbers[r.From()].balance, r, bounds, o).Some?
  }

  /** What a transaction contributes: nothing if refused or thrown, its sender's nonce if reverted, else all. */
  ghost function OneView(v: View, r: Request, bounds: Bounds, o: Outcome): (w: View)
    requires v.Total()
    ensures w.Total()
  {
    if Skipped(v, r, bounds, o) then v
    else
      ApplyTotal(v, o.body);
      SetNonce(if o.ok then Apply(v, o.body) else v, r.From(), v.numbers[r.From()].nonce + 1)
  }

  ghost function OneResult(v: View, index: nat, r: Request, bounds: Bounds, o: Outcome): BundleResult
    requires v.Total()
  {
    ResultOf(v.numbers[r.From()].balance, index, r, bounds, o)
  }

  /** The flat state left by the first `i` transactions. */
  ghost function ViewAt(v: View, requests: seq<Request>, bounds: Request -> Bounds, script: seq<Outcome>, i: nat): (w: View)
    requires v.Total() && i <= |requests| == |script|
    ensures w.Total()
  {
    if i == 0 then v
    else OneView(ViewAt(v, requests, bounds, script, i - 1), requests[i - 1], bounds(requests[i - 1]), script[i - 1])
  }

  lemma ReadKeepsView(up: Upstream, s: Machine, a: string)
    requires s.Ready()
    ensures ViewOf(up, s.Simple(up, ReadAccount(a))) == ViewOf(up, s)
    ensures SameBelow(s, s.Simple(up, ReadAccount(a)))
  {
    SimpleView(up, s, ReadAccount(a));
    SimpleBelow(up, s, ReadAccount(a));
  }

  lemma NonceView(up: Upstream, s: Machine, a: string, nonce: nat)
    requires s.Ready()
    ensures ViewOf(up, WithNonce(up, s, a, nonce)) == SetNonce(ViewOf(up, s), a, nonce)
    ensures SameBelow(s, WithNonce(up, s, a, nonce))
  {
    var read := s.Simple(up, ReadAccount(a));
    ReadKeepsView(up, s, a);
    assert read.NumbersAt(up, a) == ViewOf(up, s).numbers[a] by {
      assert ViewOf(up, read).numbers[a] == read.NumbersAt(up, a);
    }
    var write := WriteAccount(a, read.NumbersAt(up, a).(nonce := nonce));
    SimpleView(up, read, write);
    SimpleBelow(up, read, write);
  }

  /** Undoing a transaction's own checkpoint gives back the view it started on. */
  lemma UndoneView(up: Upstream, s: Machine, cmds: seq<Cmd>)
    requires s.Ready()
    ensures var t := Exec(up, s.Checkpoint(), cmds).Revert(); t.Ready() && ViewOf(up, t) == ViewOf(up, s) && SameBelow(s, t)
  {
    OnlyTheTopMoves(up, s.Checkpoint(), cmds);
    FrameView(up, s, Exec(up, s.Checkpoint(), cmds), false);
    FrameEnd(s, Exec(up, s.Checkpoint(), cmds), false);
  }

  lemma SucceededView(up: Upstream, s: Machine, sender: string, nonce: nat, o: Outcome)
    requires s.Ready() && o.Finished? && o.ok
    ensures Apply(ViewOf(up, s), o.body).Total() && SameBelow(s, Settle(up, s, sender, nonce, o))
    ensures ViewOf(up, Settle(up, s, sender, nonce, o)) == SetNonce(Apply(ViewOf(up, s), o.body), sender, nonce)
  {
    var cmds := [Frame(o.body, true)];
    var ran := Exec(up, s.Checkpoint(), cmds);
    ApplyTotal(ViewOf(up, s), o.body);
    OnlyTheTopMoves(up, s.Checkpoint(), cmds);
    LayersRefineFlat(up, s.Checkpoint(), cmds);
    CheckpointView(up, s);
    assert cmds[1..] == [];
    assert Apply(ViewOf(up, s), cmds) == Apply(ViewOf(up, s), o.body);
    NonceView(up, ran, sender, nonce);
    FrameEnd(s, WithNonce(up, ran, sender, nonce), true);
    CommitView(up, WithNonce(up, ran, sender, nonce));
  }

  lemma FailedView(up: Upstream, s: Machine, sender: string, nonce: nat, o: Outcome)
    requires s.Ready() && o.Finished? && !o.ok
    ensures SameBelow(s, Settle(up, s, sender, nonce, o))
    ensures ViewOf(up, Settle(up, s, sender, nonce, o)) == SetNonce(ViewOf(up, s), sender, nonce)
  {
    var cmds := [Frame(o.body, false)];
    UndoneView(up, s, cmds);
    NonceView(up, Exec(up, s.Checkpoint(), cmds).Revert(), sender, nonce);
  }

  lemma RanView(up: Upstream, s: Machine, r: Request, bounds: Bounds, o: Outcome)
    requires s.Ready() && ProblemOf(ViewOf(up, s).numbers[r.From()].balance, r, bounds, o) == None
    ensures var t := Settle(up, s, r.From(), ViewOf(up, s).numbers[r.From()].nonce + 1, o);
            ViewOf(up, t) == OneView(ViewOf(up, s), r, bounds, o) && SameBelow(s, t)
  {
    if o.ok {
      SucceededView(up, s, r.From(), ViewOf(up, s).numbers[r.From()].nonce + 1, o);
    } else {
      FailedView(up, s, r.From(), ViewOf(up, s).numbers[r.From()].nonce + 1, o);
    }
  }

  lemma AbandonedView(up: Upstream, s: Machine, done: seq<Cmd>)
    requires s.Ready()
    ensures ViewOf(up, Abandon(up, s, done)) == ViewOf(up, s) && SameBelow(s, Abandon(up, s, done))
  {
    UndoneView(up, s, done);
  }

  lemma FromRefines(up: Upstream, s: Machine, r: Request, bounds: Bounds, o: Outcome, v: View)
    requires s.Ready() && v == ViewOf(up, s) && v.Total()
    ensures var t := SimulateFrom(up, s, v.numbers[r.From()], r, bounds, o);
            ViewOf(up, t) == OneView(v, r, bounds, o) && SameBelow(s, t)
  {
    if r.value > v.numbers[r.From()].balance || r.GasLimit() < bounds.Minimum() {
    } else if o.Threw? {
      AbandonedView(up, s, o.done);
    } else {
      RanView(up, s, r, bounds, o);
    }
  }

  /** One simulated transaction on the caches is one transaction on the flat state. */
  lemma OneRefines(up: Upstream, s: Machine, r: Request, bounds: Bounds, o: Outcome)
    requires s.Ready()
    ensures ViewOf(up, SimulateOne(up, s, r, bounds, o)) == OneView(ViewOf(up, s), r, bounds, o)
    ensures SameBelow(s, SimulateOne(up, s, r, bounds, o))
  {
    var read := s.Simple(up, ReadAccount(r.From()));
    ReadKeepsView(up, s, r.From());
    assert ViewOf(up, s).numbers[r.From()] == s.NumbersAt(up, r.From());
    FromRefines(up, read, r, bounds, o, ViewOf(up, s));
  }

  lemma {:induction false} StaysBelow(up: Upstream, s: Machine, requests: seq<Request>, bounds: Request -> Bounds,
                                      script: seq<Outcome>, i: nat)
    requires s.Ready() && i <= |requests| == |script|
    ensures SameBelow(s, MachineAt(up, s, requests, bounds, script, i))
  {
    if i > 0 {
      StaysBelow(up, s, requests, bounds, script, i - 1);
      OneRefines(up, MachineAt(up, s, requests, bounds, script, i - 1), requests[i - 1], bounds(requests[i - 1]), script[i - 1]);
    }
  }

  lemma NextView(up: Upstream, s: Machine, v: View, r: Request, bounds: Bounds, o: Outcome, w: View)
    requires s.Ready() && v.Total() && ViewOf(up, s) == v && w == OneView(v, r, bounds, o)
    ensures ViewOf(up, SimulateOne(up, s, r, bounds, o)) == w
  {
    OneRefines(up, s, r, bounds, o);
  }

  /** Transaction `i` starts on the state all earlier ones left. */
  lemma {:induction false} StartsWhereEarlierLeft(up: Upstream, s: Machine, requests: seq<Request>, bounds: Request -> Bounds,
                                                  script: seq<Outcome>, i: nat)
    requires s.Ready() && i <= |requests| == |script|
    ensures ViewOf(up, MachineAt(up, s, requests, bounds, script, i)) == ViewAt(ViewOf(up, s), requests, bounds, script, i)
  {
    if i > 0 {
      StartsWhereEarlierLeft(up, s, requests, bounds, script, i - 1);
      NextView(up, MachineAt(up, s, requests, bounds, script, i - 1), ViewAt(ViewOf(up, s), requests, bounds, script, i - 1),
               requests[i - 1], bounds(requests[i - 1]), script[i - 1], ViewAt(ViewOf(up, s), requests, bounds, script, i));
    }
  }

  /** Results come in input order, each the one its transaction gets on the state the earlier ones left. */
  lemma ResultRefines(up: Upstream, s: Machine, requests: seq<Request>, bounds: Request -> Bounds, script: seq<Outcome>, i: nat)
    requires s.Ready() && i < |requests| == |script|
    ensures ResultAt(up, s, requests, bounds, script, i) ==
            OneResult(ViewAt(ViewOf(up, s), requests, bounds, script, i), i, requests[i], bounds(requests[i]), script[i])
  {
    StartsWhereEarlierLeft(up, s, requests, bounds, script, i);
    var start := MachineAt(up, s, requests, bounds, script, i);
    assert ViewOf(up, start).numbers[requests[i].From()] == start.NumbersAt(up, requests[i].From());
  }

  // ---- the whole bundle ---------------------------------------------------------------------------

  /** The results of the first `i` transactions, in order. */
  function Results(up: Upstream, s: Machine, requests: seq<Request>, bounds: Request -> Bounds, script: seq<Outcome>, i: nat)
    : (results: seq<BundleResult>)
    requires s.Ready() && i <= |requests| == |script|
    ensures |results| == i
  {
    seq(i, k requires 0 <= k < i => ResultAt(up, s, requests, bounds, script, k))
  }

  lemma ResultsGrow(up: Upstream, s: Machine, requests: seq<Request>, bounds: Request -> Bounds, script: seq<Outcome>, i: nat)
    requires s.Ready() && i < |requests| == |script|
    ensures Results(up, s, requests, bounds, script, i + 1) ==
            Results(up, s, requests, bounds, script, i) + [ResultAt(up, s, requests, bounds, script, i)]
  {
  }

  /** Whether any transaction of the bundle ended in failure. */
  predicate Failed(results: seq<BundleResult>) {
    results != [] && (Failed(results[..|results| - 1]) || results[|results| - 1].status == 0)
  }

  lemma {:induction false} FailedIff(results: seq<BundleResult>)
    ensures Failed(results) <==> exists i | 0 <= i < |results| :: results[i].status == 0
  {
    if results != [] {
      var front := results[..|results| - 1];
      FailedIff(front);
      if i :| 0 <= i < |front| && front[i].status == 0 {
        assert results[i] == front[i];
      }
      if i :| 0 <= i < |results| && results[i].status == 0 {
        assert i < |front| ==> front[i] == results[i];
      }
    }
  }

  /** `simulateBundle`: the answer. */
  function SimulateBundle(up: Upstream, s: Machine, requests: seq<Request>, overrides: seq<Cmd>,
                          bounds: Request -> Bounds, script: seq<Outcome>): Answer
    requires s.Ready() && |requests| == |script|
  {
    if requests == [] then Empty
    else if |requests| > MAX_BUNDLE then TooLong(|requests|)
    else
      var results := Results(up, Opened(up, s, overrides), requests, bounds, script, |requests|);
      Answer(results, TotalGas(results), Failed(results))
  }

  /** `simulateBundle`: the state it leaves. */
  function AfterBundle(up: Upstream, s: Machine, requests: seq<Request>, overrides: seq<Cmd>,
                       bounds: Request -> Bounds, script: seq<Outcome>): Machine
    requires s.Ready() && |requests| == |script|
  {
    if requests == [] || |requests| > MAX_BUNDLE then s
    else MachineAt(up, Opened(up, s, overrides), requests, bounds, script, |requests|).(recording := true).Revert()
  }

  lemma BundleLeavesNoTrace(up: Upstream, s: Machine, requests: seq<Request>, overrides: seq<Cmd>,
                            bounds: Request -> Bounds, script: seq<Outcome>)
    requires s.Ready() && s.recording && |requests| == |script|
    ensures AfterBundle(up, s, requests, overrides, bounds, script) == s
  {
    var open := Opened(up, s, overrides);
    OnlyTheTopMoves(up, s.Checkpoint().(recording := false), overrides);
    StaysBelow(up, open, requests, bounds, script, |requests|);
    FrameEnd(s.(recording := false), MachineAt(up, open, requests, bounds, script, |requests|), false);
  }

  lemma OpenedView(up: Upstream, s: Machine, overrides: seq<Cmd>)
    requires s.Ready()
    ensures Apply(ViewOf(up, s), overrides).Total() && ViewOf(up, Opened(up, s, overrides)) == Apply(ViewOf(up, s), overrides)
  {
    var pushed := s.Checkpoint().(recording := false);
    ApplyTotal(ViewOf(up, s), overrides);
    CheckpointView(up, s);
    SameView(up, pushed, s.Checkpoint());
    LayersRefineFlat(up, pushed, overrides);
  }

  /**
   * A bundle is a sequential fold over the flat state: result `i` is what transaction `i` gets on the
   * state its predecessors left, the total is the sum, and the bundle failed iff some status is 0.
   */
  lemma BundleIsSequentialFold(up: Upstream, s: Machine, requests: seq<Request>, overrides: seq<Cmd>,
                               bounds: Request -> Bounds, script: seq<Outcome>)
    requires s.Ready() && 0 < |requests| == |script| <= MAX_BUNDLE
    ensures Apply(ViewOf(up, s), overrides).Total()
    ensures var v := Apply(ViewOf(up, s), overrides);
            var answer := SimulateBundle(up, s, requests, overrides, bounds, script);
            && answer.Answer? && |answer.results| == |requests|
            && (forall i | 0 <= i < |requests| :: answer.results[i] ==
                  OneResult(ViewAt(v, requests, bounds, script, i), i, requests[i], bounds(requests[i]), script[i]))
            && answer.gasUsed == TotalGas(answer.results)
            && (answer.failed <==> exists i | 0 <= i < |requests| :: answer.results[i].status == 0)
  {
    OpenedView(up, s, overrides);
    var open := Opened(up, s, overrides);
    var results := Results(up, open, requests, bounds, script, |requests|);
    forall i | 0 <= i < |requests|
      ensures results[i] ==
              OneResult(ViewAt(ViewOf(up, open), requests, bounds, script, i), i, requests[i], bounds(requests[i]), script[i])
    {
      ResultRefines(up, open, requests, bounds, script, i);
    }
    FailedIff(results);
  }

  function Omit<T>(s: seq<T>, i: nat): seq<T>
    requires i < |s|
  {
    s[..i] + s[i + 1..]
  }

  /** A transaction that was refused, or that threw, might as well not have been in the bundle. */
  lemma {:induction false} SkippedContributesNothing(v: View, requests: seq<Request>, bounds: Request -> Bounds,
                                                     script: seq<Outcome>, i: nat, j: nat)
    requires v.Total() && i < j <= |requests| == |script|
    requires Skipped(ViewAt(v, requests, bounds, script, i), requests[i], bounds(requests[i]), script[i])
    ensures ViewAt(v, requests, bounds, script, j) == ViewAt(v, Omit(requests, i), bounds, Omit(script, i), j - 1)
    decreases j
  {
    var requests1, script1 := Omit(requests, i), Omit(script, i);
    if j == i + 1 {
      SamePrefix(v, requests, requests1, bounds, script, script1, i);
    } else {
      SkippedContributesNothing(v, requests, bounds, script, i, j - 1);
      assert requests1[j - 2] == requests[j - 1] && script1[j - 2] == script[j - 1];
    }
  }

  lemma {:induction false} SamePrefix(v: View, a: seq<Request>, b: seq<Request>, bounds: Request -> Bounds,
                                      p: seq<Outcome>, q: seq<Outcome>, i: nat)
    requires v.Total() && i <= |a| == |p| && i <= |b| == |q|
    requires forall k | 0 <= k < i :: a[k] == b[k] && p[k] == q[k]
    ensures ViewAt(v, a, bounds, p, i) == ViewAt(v, b, bounds, q, i)
  {
    if i > 0 {
      SamePrefix(v, a, b, bounds, p, q, i - 1);
    }
  }

  /**
   * A transaction that ran and reverted leaves nothing in the caches but its sender's next nonce, whatever
   * its frames wrote, and is reported with status 0.
   */
  lemma RevertedLeavesOnlyTheNonce(up: Upstream, s: Machine, r: Request, bounds: Bounds, o: Outcome)
    requires s.Ready() && !Skipped(ViewOf(up, s), r, bounds, o) && !o.ok
    ensures var t := SimulateOne(up, s, r, bounds, o);
            && (forall a :: t.CodeAt(up, a) == s.CodeAt(up, a)) && (forall k :: t.SlotAt(up, k) == s.SlotAt(up, k))
            && (forall a :: t.NumbersAt(up, a) ==
                  var n := s.NumbersAt(up, a);
                  if a == r.From() then n.(nonce := n.nonce + 1) else n)
    ensures OneResult(ViewOf(up, s), 0, r, bounds, o).status == 0
  {
    var t, v := SimulateOne(up, s, r, bounds, o), ViewOf(up, s);
    OneRefines(up, s, r, bounds, o);
    var w := ViewOf(up, t);
    forall a ensures t.CodeAt(up, a) == s.CodeAt(up, a) { assert w.code[a] == v.code[a]; }
    forall k ensures t.SlotAt(up, k) == s.SlotAt(up, k) { assert w.slots[k] == v.slots[k]; }
    forall a
      ensures t.NumbersAt(up, a) == var n := s.NumbersAt(up, a); if a == r.From() then n.(nonce := n.nonce + 1) else n
    {
      assert t.NumbersAt(up, a) == w.numbers[a] && s.NumbersAt(up, a) == v.numbers[a];
    }
  }

  /** What a transaction is charged: never under the floor, and a refund takes off at most a fifth of what it spent. */
  lemma GasIsFair(bounds: Bounds, o: Outcome)
    requires o.Finished?
    ensures var spent, used := bounds.intrinsic + o.executionGas, GasUsedBy(bounds, o);
            && bounds.floor <= used && (used <= spent || used == bounds.floor)
            && 5 * (spent - used) <= spent
            && (5 * o.refund <= spent && spent - o.refund >= bounds.floor ==> used == spent - o.refund)
  {
  }
}
