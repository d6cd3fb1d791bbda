/** Setting and resetting the price a feed says (src/oracle.ts:110-170). */
module PriceFeeds {
  import opened Options
  import opened HexNumbers
  import opened Bytecode
  import Simulations
  import opened Assemblers
  import opened Evms
  import opened Oracles
  import opened OracleRuns
  import opened OracleAnswers

  type Codes = map<string, Bytes>

  function CodeAt(codes: Codes, a: string): Bytes { if a in codes then codes[a] else [] }

  /** Whether the code carries the oracle's mark at its end. */
  predicate Marked(code: Bytes) {
    |code| >= |MARK| && code[|code| - |MARK|..] == MARK
  }

  /** The low bytes of a number, highest first; a negative one is taken modulo the power of two. */
  function BytesOf(n: int, size: nat): (b: Bytes)
    ensures |b| == size
    decreases size
  {
    if size == 0 then [] else BytesOf(n / 256, size - 1) + [n % 256]
  }

  /** `word`. */
  function WordOf(n: int): Word { BytesOf(n, 32) }

  /** A feed's address, and its shadow's as text and as bytes. */
  datatype Feed = Feed(address: string, shadow: string, bytes: Address20)

  /** What the feed said when asked, and what the price was read as; any of it may fail. */
  datatype Said = Said(decimals: bool, latest: Option<Hex>, answer: Option<int>)

  datatype Outcome = NoContract | NotAFeed | NotAPrice | Set(answer: int, roundId: nat)

  /** The number the first word of an answer stands for. */
  function RoundIn(latest: Hex): nat { ToNat(if |latest| >= 64 then latest[..64] else latest) }

  function KeepOriginal(codes: Codes, f: Feed): Codes {
    if Marked(CodeAt(codes, f.address)) then codes else codes[f.shadow := CodeAt(codes, f.address)]
  }

  function NextRound(codes: Codes, f: Feed, latest: Hex): nat {
    if Marked(CodeAt(codes, f.address)) then RoundIn(latest) else RoundIn(latest) + 1
  }

  function OutcomeOf(codes: Codes, f: Feed, said: Said): Outcome {
    if CodeAt(codes, f.address) == [] then NoContract
    else if !said.decimals || said.latest.None? then NotAFeed
    else if said.answer.None? then NotAPrice
    else Set(said.answer.value, NextRound(codes, f, said.latest.value))
  }

  /** The code everywhere after `setPrice`, also after one that failed half way. */
  function AfterSet(codes: Codes, f: Feed, said: Said): Codes {
    var outcome := OutcomeOf(codes, f, said);
    match outcome
    case NoContract => codes
    case Set(answer, roundId) =>
      KeepOriginal(codes, f)[f.address := OracleCode(WordOf(answer), WordOf(roundId), f.bytes)]
    case _ => KeepOriginal(codes, f)
  }

  function AfterReset(codes: Codes, f: Feed): Codes {
    if Marked(CodeAt(codes, f.address)) then codes[f.address := CodeAt(codes, f.shadow)] else codes
  }

  class Environment {
    var codes: Codes

    constructor (codes: Codes)
      ensures this.codes == codes
    {
      this.codes := codes;
    }

    /** What the feed says is asked once its original is in its shadow. */
    method SetPrice(f: Feed, said: Said) returns (outcome: Outcome)
      modifies this
      ensures outcome == OutcomeOf(old(codes), f, said) && codes == AfterSet(old(codes), f, said)
    {
      var code := CodeAt(codes, f.address);
      if code == [] {
        return NoContract;
      }
      var overridden := Marked(code);
      if !overridden {
        codes := codes[f.shadow := code];
      }
      if !said.decimals || said.latest.None? {
        return NotAFeed;
      }
      var current := RoundIn(said.latest.value);
      var roundId := if overridden then current else current + 1;
      if said.answer.None? {
        return NotAPrice;
      }
      codes := codes[f.address := OracleCode(WordOf(said.answer.value), WordOf(roundId), f.bytes)];
      return Set(said.answer.value, roundId);
    }

    method ResetPrice(f: Feed) returns (was: bool)
      modifies this
      ensures was == Marked(CodeAt(old(codes), f.address)) && codes == AfterReset(old(codes), f)
    {
      was := Marked(CodeAt(codes, f.address));
      if was {
        codes := codes[f.address := CodeAt(codes, f.shadow)];
      }
    }
  }

  // ---- the life of an override ----------------------------------------------------------------------

  datatype Override = Override(answer: Word, round: Word)

  /** The codes, the feed's last own code, and the override in force. */
  datatype Life = Life(codes: Codes, own: Bytes, now: Option<Override>)

  datatype Step =
    | SetPrice(said: Said, asked: Context)   // `asked` is the call `latestRoundData()` is made with
    | ResetPrice
    | Deploy(code: Bytes)                    // the feed is given another code of its own
    | Elsewhere(address: string, code: Bytes)

  /** What is heard of a call: its answer, if it did not fail and is not empty. */
  function Heard(result: Result): Option<Hex> {
    if result.Returned? && result.data != [] then Some(result.data) else None
  }

  /** The code, run on the call from its first byte until it stops, is heard to say this. */
  ghost predicate Says(code: Bytes, c: Context, said: Option<Hex>) {
    exists n: nat, end: Evm ::
      Simulations.Bytes(code, Machine(c), Simulations.At(0, START), n) == Simulations.Done(end) && said == Heard(end.result)
  }

  /**
   * What may happen: code of the feed's own lacks the mark, nobody writes to the shadow, and a feed that
   * is overridden says what running its code gives. What code of the feed's own would say is anything.
   */
  ghost predicate May(l: Life, f: Feed, step: Step) {
    match step
    case SetPrice(said, asked) => l.now.Some? ==>
      && Callable(asked) && asked.calldata == HexOf(LATEST_ROUND_DATA)
      && Says(CodeAt(l.codes, f.address), asked, said.latest)
    case ResetPrice => true
    case Deploy(code) => !Marked(code)
    case Elsewhere(address, _) => address != f.address && address != f.shadow
  }

  function NextLife(l: Life, f: Feed, step: Step): Life {
    match step
    case SetPrice(said, _) =>
      var outcome := OutcomeOf(l.codes, f, said);
      Life(AfterSet(l.codes, f, said), l.own,
           if outcome.Set? then Some(Override(WordOf(outcome.answer), WordOf(outcome.roundId))) else l.now)
    case ResetPrice => Life(AfterReset(l.codes, f), l.own, None)
    case Deploy(code) => Life(l.codes[f.address := code], code, None)
    case Elsewhere(address, code) => l.(codes := l.codes[address := code])
  }

  /** The feed runs its override or its own code, and while it is overridden its own code is in the shadow. */
  ghost predicate Lives(l: Life, f: Feed) {
    && f.address != f.shadow && !Marked(l.own)
    && match l.now
       case None => CodeAt(l.codes, f.address) == l.own
       case Some(o) => CodeAt(l.codes, f.address) == OracleCode(o.answer, o.round, f.bytes) && CodeAt(l.codes, f.shadow) == l.own
  }

  lemma LivesOn(l: Life, f: Feed, step: Step)
    requires Lives(l, f) && May(l, f, step)
    ensures Lives(NextLife(l, f, step), f)
  {
    if l.now.Some? {
      OracleIsMarked(l.now.value.answer, l.now.value.round, f.bytes);
    }
  }

  ghost predicate IsLife(trace: seq<Life>, f: Feed, steps: seq<Step>) {
    && |trace| == |steps| + 1 && Lives(trace[0], f)
    && forall i | 0 <= i < |steps| :: May(trace[i], f, steps[i]) && trace[i + 1] == NextLife(trace[i], f, steps[i])
  }

  lemma {:induction false} LivesAlways(trace: seq<Life>, f: Feed, steps: seq<Step>, i: nat)
    requires IsLife(trace, f, steps) && i < |trace|
    ensures Lives(trace[i], f)
  {
    if i > 0 {
      LivesAlways(trace, f, steps, i - 1);
      LivesOn(trace[i - 1], f, steps[i - 1]);
    }
  }

  /** Whenever the feed is overridden, over any run, its shadow holds its last own code; and it is marked exactly then. */
  lemma ShadowHoldsTheOriginal(trace: seq<Life>, f: Feed, steps: seq<Step>, i: nat)
    requires IsLife(trace, f, steps) && i < |trace|
    ensures Marked(CodeAt(trace[i].codes, f.address)) <==> trace[i].now.Some?
    ensures trace[i].now.Some? ==> CodeAt(trace[i].codes, f.shadow) == trace[i].own
  {
    LivesAlways(trace, f, steps, i);
    if trace[i].now.Some? {
      OracleIsMarked(trace[i].now.value.answer, trace[i].now.value.round, f.bytes);
    }
  }

  /** A reset leaves the feed its own code, whether it was overridden or not. */
  lemma ResetRestores(trace: seq<Life>, f: Feed, steps: seq<Step>, i: nat)
    requires IsLife(trace, f, steps) && i < |steps| && steps[i] == Step.ResetPrice
    ensures CodeAt(trace[i + 1].codes, f.address) == trace[i].own && trace[i + 1].now == None
  {
    ShadowHoldsTheOriginal(trace, f, steps, i);
    LivesAlways(trace, f, steps, i);
    assert trace[i + 1] == NextLife(trace[i], f, steps[i]);
  }

  // ---- one round for consecutive overrides ------------------------------------------------------------

  lemma {:induction false} HexOfLast(b: Bytes)
    requires b != []
    ensures HexOf(b) == HexOf(b[..|b| - 1]) + [b[|b| - 1] / 16, b[|b| - 1] % 16]
  {
    var x := b[|b| - 1];
    assert b == b[..|b| - 1] + [x];
    HexJoins(b[..|b| - 1], [x]);
    assert [x][1..] == [] && HexOf([]) == [];
    assert HexOf([x]) == [x / 16, x % 16];
  }

  lemma NatOfLast(h: Hex, x: Byte)
    ensures ToNat(h + [x / 16, x % 16]) == ToNat(h) * 256 + x
  {
    var two := h + [x / 16, x % 16];
    assert two[..|two| - 1] == h + [x / 16] && (h + [x / 16])[..|h|] == h;
    assert ToNat(h + [x / 16]) == ToNat(h) * 16 + x / 16;
  }

  /** Bytes read as a number and written back are the same bytes. */
  lemma {:induction false} BytesAgain(b: Bytes)
    ensures BytesOf(ToNat(HexOf(b)), |b|) == b
  {
    if b != [] {
      var front, x := b[..|b| - 1], b[|b| - 1];
      HexOfLast(b);
      NatOfLast(HexOf(front), x);
      BytesAgain(front);
      var n := ToNat(HexOf(front));
      assert (n * 256 + x) / 256 == n && (n * 256 + x) % 256 == x;
      assert b == front + [x];
    }
  }

  lemma RoundReadsBack(latest: Hex, round: Word)
    requires |latest| >= 64 && latest[..64] == HexOf(round)
    ensures WordOf(RoundIn(latest)) == round
  {
    BytesAgain(round);
  }

  /** Asked for its latest round, an overridden feed says the override's. */
  lemma OverriddenSaysItsRound(c: Context, o: Override, f: Feed) returns (n: nat, end: Evm)
    requires Callable(c) && Chosen(c) == HexOf(LATEST_ROUND_DATA)
    ensures Simulations.Bytes(OracleCode(o.answer, o.round, f.bytes), Machine(c), Simulations.At(0, START), n) == Simulations.Done(end)
    ensures end.result.Returned? && |end.result.data| >= 64 && end.result.data[..64] == HexOf(o.round)
  {
    n, end := OracleAnswers.OracleAnswers(c, o.answer, o.round, f.bytes);
    WordPushes(o.round);
    assert RoundAnswer(c, o.answer, o.round)[..64] == HexOf(o.round);
  }

  /** A run that has stopped stays stopped, so what it ends with does not turn on how many steps are counted. */
  lemma {:induction false} StaysDone(code: Bytes, exec: (Op, Evm) -> Simulations.Effect<Evm>, r: Simulations.Running<Evm>,
                                     n: nat, m: nat, end: Evm)
    requires Simulations.Bytes(code, exec, r, n) == Simulations.Done(end) && n <= m
    ensures Simulations.Bytes(code, exec, r, m) == Simulations.Done(end)
  {
    if n < m {
      StaysDone(code, exec, r, n, m - 1, end);
    }
  }

  lemma OneEnd(code: Bytes, exec: (Op, Evm) -> Simulations.Effect<Evm>, r: Simulations.Running<Evm>,
               n: nat, end: Evm, m: nat, end1: Evm)
    requires Simulations.Bytes(code, exec, r, n) == Simulations.Done(end)
    requires Simulations.Bytes(code, exec, r, m) == Simulations.Done(end1)
    ensures end == end1
  {
    if n <= m {
      StaysDone(code, exec, r, n, m, end);
    } else {
      StaysDone(code, exec, r, m, n, end1);
    }
  }

  lemma SelectorIsChosen(c: Context, selector: Selector)
    requires c.calldata == HexOf(selector)
    ensures Chosen(c) == HexOf(selector)
  {
    HexSize(selector);
  }

  /** Whatever running an overridden feed's code is heard to say begins with the override's round. */
  lemma WhatItSaysIsItsRound(c: Context, o: Override, f: Feed, said: Option<Hex>)
    requires Callable(c) && c.calldata == HexOf(LATEST_ROUND_DATA)
    requires Says(OracleCode(o.answer, o.round, f.bytes), c, said)
    ensures said.Some? && |said.value| >= 64 && said.value[..64] == HexOf(o.round)
  {
    SelectorIsChosen(c, LATEST_ROUND_DATA);
    var code := OracleCode(o.answer, o.round, f.bytes);
    var n, end := OverriddenSaysItsRound(c, o, f);
    var m: nat, end1: Evm :| Simulations.Bytes(code, Machine(c), Simulations.At(0, START), m) == Simulations.Done(end1)
                             && said == Heard(end1.result);
    OneEnd(code, Machine(c), Simulations.At(0, START), n, end, m, end1);
  }

  /** Overriding an overridden feed keeps its round; the first override is one past what the feed said. */
  lemma RoundIsKept(trace: seq<Life>, f: Feed, steps: seq<Step>, i: nat)
    requires IsLife(trace, f, steps) && i < |steps| && steps[i].SetPrice?
    requires OutcomeOf(trace[i].codes, f, steps[i].said).Set?
    ensures trace[i + 1].now.Some?
    ensures trace[i].now.Some? ==> trace[i + 1].now.value.round == trace[i].now.value.round
    ensures trace[i].now.None? ==>
              trace[i + 1].now.value.round == WordOf(RoundIn(steps[i].said.latest.value) + 1)
  {
    ShadowHoldsTheOriginal(trace, f, steps, i);
    LivesAlways(trace, f, steps, i);
    SetKeepsRound(trace[i], f, steps[i].said, steps[i].asked);
    assert trace[i + 1] == NextLife(trace[i], f, steps[i]);
  }

  lemma SetKeepsRound(l: Life, f: Feed, said: Said, asked: Context)
    requires Lives(l, f) && May(l, f, SetPrice(said, asked)) && OutcomeOf(l.codes, f, said).Set?
    requires Marked(CodeAt(l.codes, f.address)) <==> l.now.Some?
    ensures var now := NextLife(l, f, SetPrice(said, asked)).now;
            now.Some? && now.value.round ==
              if l.now.Some? then l.now.value.round else WordOf(RoundIn(said.latest.value) + 1)
  {
    if l.now.Some? {
      WhatItSaysIsItsRound(asked, l.now.value, f, said.latest);
      RoundReadsBack(said.latest.value, l.now.value.round);
    }
  }
}
