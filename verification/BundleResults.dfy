/**
 * What `simulateBundle` reports (src/environment.ts:750-876), said of requests, outcomes and the flat state the
 * earlier transactions left, and what each transaction does to that state.
 */
module BundleResults {
  import opened Options
  import opened ForkStates
  import opened Executions
  import opened Bundles

  /** Who sends it, and the gas it may use: as asked, or else nobody in particular and thirty million. */
  function Sender(r: Request): string {
    if r.sender.Some? then r.sender.value else "0x0000000000000000000000000000000000000000"
  }

  function Limit(r: Request): nat { if r.gas.Some? then r.gas.value else 30_000_000 }

  /** The sender can pay the value, and the gas limit covers both what it costs to begin and the least charge. */
  predicate MayRun(balance: nat, r: Request, bounds: Bounds) {
    r.value <= balance && bounds.intrinsic <= Limit(r) && bounds.floor <= Limit(r)
  }

  /** The transaction was let in, and the EVM ran it to an end. */
  predicate Ran(balance: nat, r: Request, bounds: Bounds, o: Outcome) {
    MayRun(balance, r, bounds) && o.Finished?
  }

  predicate Succeeds(balance: nat, r: Request, bounds: Bounds, o: Outcome) {
    Ran(balance, r, bounds, o) && o.ok
  }

  /** What the sender of transaction `i` has on the flat state the earlier ones left. */
  ghost function BalanceAt(v: View, requests: seq<Request>, bounds: Request -> Bounds, script: seq<Outcome>, i: nat): nat
    requires v.Total() && i < |requests| == |script|
  {
    ViewAt(v, requests, bounds, script, i).numbers[Sender(requests[i])].balance
  }

  // ---- one result ---------------------------------------------------------------------------------------

  /** The result says who it is for, whether it succeeded, and what came back. */
  ghost predicate Reports(result: BundleResult, i: nat, balance: nat, r: Request, bounds: Bounds, o: Outcome) {
    && result.index == i && result.from == Sender(r)
    && result.status == (if Succeeds(balance, r, bounds, o) then 1 else 0)
    && (result.error.None? <==> result.status == 1)
    && (if Ran(balance, r, bounds, o) then result.returnValue == o.returnValue && result.logs == o.logs
        else result.returnValue == "0x" && result.logs == [])
  }

  /** Which error, and with which numbers, in the order they are looked for. */
  ghost predicate Explains(error: Option<Problem>, balance: nat, r: Request, bounds: Bounds, o: Outcome) {
    && (forall has, wants :: error == Some(InsufficientFunds(has, wants)) <==>
          r.value > balance && has == balance && wants == r.value)
    && (forall have, want :: error == Some(IntrinsicGasTooLow(have, want)) <==>
          && r.value <= balance && !MayRun(balance, r, bounds) && have == Limit(r)
          && bounds.intrinsic <= want && bounds.floor <= want && want in {bounds.intrinsic, bounds.floor})
    && (forall message :: error == Some(EvmError(message)) <==>
          MayRun(balance, r, bounds) && o.Threw? && message == o.message)
    && (forall data :: error == Some(Problem.Reverted(data)) <==>
          Ran(balance, r, bounds, o) && !o.ok && data == o.returnValue)
  }

  /**
   * The least charge that is no less than the floor, gives back no more than the refund, and gives back no
   * more than a fifth of what was spent; nothing at all if the transaction did not run to an end.
   */
  ghost predicate Charges(gasUsed: nat, balance: nat, r: Request, bounds: Bounds, o: Outcome) {
    if Ran(balance, r, bounds, o) then FairGas(bounds, o, gasUsed) && forall u: nat | FairGas(bounds, o, u) :: gasUsed <= u
    else gasUsed == 0
  }

  ghost predicate FairGas(bounds: Bounds, o: Outcome, used: nat)
    requires o.Finished?
  {
    var spent := bounds.intrinsic + o.executionGas;
    bounds.floor <= used && spent <= used + o.refund && 5 * (spent - used) <= spent
  }

  lemma GasIsLeast(bounds: Bounds, o: Outcome)
    requires o.Finished?
    ensures FairGas(bounds, o, GasUsedBy(bounds, o))
    ensures forall u: nat | FairGas(bounds, o, u) :: GasUsedBy(bounds, o) <= u
    ensures bounds.intrinsic > 0 ==> GasUsedBy(bounds, o) > 0
  {
  }

  lemma ResultIs(i: nat, balance: nat, r: Request, bounds: Bounds, o: Outcome)
    ensures var result := ResultOf(balance, i, r, bounds, o);
            && Reports(result, i, balance, r, bounds, o) && Explains(result.error, balance, r, bounds, o)
            && Charges(result.gasUsed, balance, r, bounds, o)
            && (bounds.intrinsic > 0 ==> (result.gasUsed == 0 <==> !Ran(balance, r, bounds, o)))
  {
    if o.Finished? {
      GasIsLeast(bounds, o);
    }
  }

  // ---- the whole answer -----------------------------------------------------------------------------------

  /** The total is a sum: one result counts its own gas, and results put together count theirs together. */
  lemma {:induction false} TotalAdds(a: seq<BundleResult>, b: seq<BundleResult>)
    ensures TotalGas(a + b) == TotalGas(a) + TotalGas(b)
    ensures forall result :: TotalGas([result]) == result.gasUsed
  {
    forall result: BundleResult ensures TotalGas([result]) == result.gasUsed { assert [result][..0] == []; }
    if b == [] {
      assert a + b == a;
    } else {
      assert (a + b)[..|a + b| - 1] == a + b[..|b| - 1];
      TotalAdds(a, b[..|b| - 1]);
    }
  }

  lemma BundleOpens(up: Upstream, s: Machine, requests: seq<Request>, overrides: seq<Cmd>,
                    bounds: Request -> Bounds, script: seq<Outcome>, i: nat)
    requires s.Ready() && i < |requests| == |script| <= MAX_BUNDLE
    ensures Apply(ViewOf(up, s), overrides).Total()
    ensures var v := Apply(ViewOf(up, s), overrides);
            var answer := SimulateBundle(up, s, requests, overrides, bounds, script);
            && answer.Answer? && |answer.results| == |requests|
            && answer.results[i] == ResultOf(BalanceAt(v, requests, bounds, script, i), i, requests[i], bounds(requests[i]), script[i])
            && (answer.failed <==> exists k | 0 <= k < |requests| :: answer.results[k].status == 0)
  {
    BundleIsSequentialFold(up, s, requests, overrides, bounds, script);
  }

  /**
   * What a caller is told of transaction `i`: it succeeded exactly when its sender could pay on the state the
   * earlier ones left, its gas limit was enough, and the EVM ran it to a good end; else which of these failed
   * first, with the numbers; and what it is charged.
   */
  lemma EachResult(up: Upstream, s: Machine, requests: seq<Request>, overrides: seq<Cmd>,
                   bounds: Request -> Bounds, script: seq<Outcome>, i: nat)
    requires s.Ready() && i < |requests| == |script| <= MAX_BUNDLE
    ensures Apply(ViewOf(up, s), overrides).Total()
    ensures var balance := BalanceAt(Apply(ViewOf(up, s), overrides), requests, bounds, script, i);
            var answer := SimulateBundle(up, s, requests, overrides, bounds, script);
            && answer.Answer? && |answer.results| == |requests|
            && Reports(answer.results[i], i, balance, requests[i], bounds(requests[i]), script[i])
            && Explains(answer.results[i].error, balance, requests[i], bounds(requests[i]), script[i])
            && Charges(answer.results[i].gasUsed, balance, requests[i], bounds(requests[i]), script[i])
            && (bounds(requests[i]).intrinsic > 0 ==>
                  (answer.results[i].gasUsed == 0 <==> !Ran(balance, requests[i], bounds(requests[i]), script[i])))
  {
    BundleOpens(up, s, requests, overrides, bounds, script, i);
    ResultIs(i, BalanceAt(Apply(ViewOf(up, s), overrides), requests, bounds, script, i), requests[i], bounds(requests[i]), script[i]);
  }

  /** The bundle failed exactly when some transaction of it did not succeed. */
  lemma FailedExactly(up: Upstream, s: Machine, requests: seq<Request>, overrides: seq<Cmd>,
                      bounds: Request -> Bounds, script: seq<Outcome>)
    requires s.Ready() && 0 < |requests| == |script| <= MAX_BUNDLE
    ensures Apply(ViewOf(up, s), overrides).Total()
    ensures var v := Apply(ViewOf(up, s), overrides);
            var answer := SimulateBundle(up, s, requests, overrides, bounds, script);
            answer.Answer? &&
            (answer.failed <==> exists i | 0 <= i < |requests| ::
               !Succeeds(BalanceAt(v, requests, bounds, script, i), requests[i], bounds(requests[i]), script[i]))
  {
    var answer := SimulateBundle(up, s, requests, overrides, bounds, script);
    BundleOpens(up, s, requests, overrides, bounds, script, 0);
    var v := Apply(ViewOf(up, s), overrides);
    forall i | 0 <= i < |requests|
      ensures answer.results[i].status == 0 <==>
              !Succeeds(BalanceAt(v, requests, bounds, script, i), requests[i], bounds(requests[i]), script[i])
    {
      EachResult(up, s, requests, overrides, bounds, script, i);
    }
  }

  /** No results are given, and why, exactly when the bundle is empty or holds more than sixty-four transactions. */
  lemma RefusedBundleIff(up: Upstream, s: Machine, requests: seq<Request>, overrides: seq<Cmd>,
                         bounds: Request -> Bounds, script: seq<Outcome>)
    requires s.Ready() && |requests| == |script|
    ensures var answer := SimulateBundle(up, s, requests, overrides, bounds, script);
            && (answer == Empty <==> |requests| == 0)
            && (forall n :: answer == TooLong(n) <==> |requests| > 64 && n == |requests|)
            && (answer.Answer? ==> answer.gasUsed == TotalGas(answer.results))
  {
  }

  // ---- what a transaction leaves --------------------------------------------------------------------------

  /** The caches answer every read as the flat state does. */
  ghost predicate AnswersAs(up: Upstream, t: Machine, v: View)
    requires v.Total()
  {
    && (forall a :: t.NumbersAt(up, a) == v.numbers[a]) && (forall a :: t.CodeAt(up, a) == v.code[a])
    && (forall k :: t.SlotAt(up, k) == v.slots[k])
  }

  lemma ViewAnswers(up: Upstream, t: Machine)
    requires t.Ready()
    ensures ViewOf(up, t).Total() && AnswersAs(up, t, ViewOf(up, t))
  {
  }

  /** The flat state with the sender's nonce moved to just past what it was. */
  ghost function WithNext(v: View, a: string, n: Numbers): (w: View)
    requires v.Total()
    ensures w.Total()
  {
    v.(numbers := v.numbers[a := v.numbers[a].(nonce := n.nonce + 1)])
  }

  lemma LeavesOnTheFlat(v: View, r: Request, bounds: Bounds, o: Outcome, n: Numbers)
    requires v.Total() && n == v.numbers[Sender(r)]
    ensures o.Finished? ==> Apply(v, o.body).Total()
    ensures OneView(v, r, bounds, o) ==
            if !Ran(n.balance, r, bounds, o) then v
            else if o.ok then WithNext(Apply(v, o.body), Sender(r), n)
            else WithNext(v, Sender(r), n)
  {
    if o.Finished? {
      ApplyTotal(v, o.body);
    }
    SkippedIff(v, r, bounds, o);
    if !Ran(n.balance, r, bounds, o) {
    } else if o.ok {
    } else {
    }
  }

  lemma SkippedIff(v: View, r: Request, bounds: Bounds, o: Outcome)
    requires v.Total()
    ensures Skipped(v, r, bounds, o) <==> !Ran(v.numbers[Sender(r)].balance, r, bounds, o)
  {
  }

  /**
   * What one transaction does to every later read, told from its request and outcome: nothing unless it ran to
   * an end; its sender's next nonce if it reverted; and if it succeeded all its writes, with that nonce.
   */
  lemma TransactionLeaves(up: Upstream, s: Machine, r: Request, bounds: Bounds, o: Outcome)
    requires s.Ready()
    ensures o.Finished? ==> Apply(ViewOf(up, s), o.body).Total()
    ensures var n := s.NumbersAt(up, Sender(r));
            var t, v := SimulateOne(up, s, r, bounds, o), ViewOf(up, s);
            AnswersAs(up, t, if !Ran(n.balance, r, bounds, o) then v
                             else if o.ok then WithNext(Apply(v, o.body), Sender(r), n)
                             else WithNext(v, Sender(r), n))
  {
    OneRefines(up, s, r, bounds, o);
    ViewAnswers(up, s);
    LeavesOnTheFlat(ViewOf(up, s), r, bounds, o, s.NumbersAt(up, Sender(r)));
    ViewAnswers(up, SimulateOne(up, s, r, bounds, o));
  }
}
