/**
 * The price a feed is given is the price it answers (src/oracle.ts:142-162): over any run of sets, resets and
 * deployments, the generated code of the last set that succeeded, run on the price questions.
 */
module FeedAnswers {
  import opened Options
  import opened HexNumbers
  import opened Bytecode
  import Simulations
  import opened Assemblers
  import opened Evms
  import opened Oracles
  import opened OracleRuns
  import opened OracleAnswers
  import opened PriceFeeds

  // ---- a number as one word -------------------------------------------------------------------------------

  /** How many values a word has: two to the 256th. */
  const WORDS: int := Pow16(64)

  lemma LastByte(n: int, p: nat)
    requires p > 0
    ensures n / 256 % p * 256 + n % 256 == n % (p * 256)
  {
    var q, x := n / 256, n % 256;
    var y, z := q / p, q % p;
    assert n == q * 256 + x && q == y * p + z;
    assert (y * p) * 256 == y * (p * 256);
    assert 0 <= z < p && 0 <= x < 256 && z * 256 + x < p * 256;
    SmallRemainder(n, y, p * 256, z * 256 + x);
  }

  lemma MulBounds(z: int, m: int)
    requires m > 0
    ensures z >= 1 ==> z * m >= m
    ensures z <= -1 ==> z * m <= -m
  {
  }

  lemma SmallRemainder(n: int, y: int, m: int, r: int)
    requires n == y * m + r && 0 <= r < m
    ensures n % m == r
  {
    var z := n / m - y;
    assert n == (n / m) * m + n % m;
    assert (n / m) * m == y * m + z * m;
    MulBounds(z, m);
  }

  /** The bytes of any integer, read as a number, are its remainder; so a negative one is its two's complement. */
  lemma {:induction false} BytesAre(n: int, size: nat)
    ensures ToNat(HexOf(BytesOf(n, size))) == n % Pow16(2 * size)
    decreases size
  {
    if size == 0 {
      assert n % 1 == 0;
    } else {
      var front := BytesOf(n / 256, size - 1);
      BytesAre(n / 256, size - 1);
      HexOfLast(front + [n % 256]);
      assert (front + [n % 256])[..|front|] == front;
      NatOfLast(HexOf(front), n % 256);
      LastByte(n, Pow16(2 * size - 2));
      assert Pow16(2 * size) == 16 * Pow16(2 * size - 1) == 256 * Pow16(2 * size - 2);
    }
  }

  /** What a word means to a reader of signed prices. */
  function Signed(w: Hex): int {
    SignedOf(ToNat(w), WORDS)
  }

  function SignedOf(w: nat, words: int): int {
    if 2 * w < words then w else w - words
  }

  lemma SignedAgain(n: int, words: int)
    requires words > 0 && -words <= 2 * n < words
    ensures n % words >= 0 && SignedOf(n % words, words) == n
  {
    if n >= 0 {
      SmallRemainder(n, 0, words, n);
    } else {
      SmallRemainder(n, -1, words, n + words);
    }
  }

  lemma WordSize(n: int)
    ensures |HexOf(WordOf(n))| == 64
  {
    HexSize(WordOf(n));
  }

  lemma WordRemains(n: int, size: nat, words: int)
    requires size == 32 && words == Pow16(2 * size) && words > 0
    ensures ToNat(HexOf(WordOf(n))) == n % words
  {
    BytesAre(n, size);
  }

  lemma SignedIs(w: Hex, n: int, words: int)
    requires words == WORDS && words > 0 && ToNat(w) == n % words && -words <= 2 * n < words
    ensures Signed(w) == n
  {
    SignedAgain(n, words);
  }

  /** Any price a signed word can hold is read back as itself. */
  lemma WordIs(n: int, words: int)
    requires words == WORDS && words > 0
    ensures |HexOf(WordOf(n))| == 64 && ToNat(HexOf(WordOf(n))) == n % words
    ensures -words <= 2 * n < words ==> Signed(HexOf(WordOf(n))) == n
  {
    WordSize(n);
    WordRemains(n, 32, words);
    if -words <= 2 * n < words {
      SignedIs(HexOf(WordOf(n)), n, words);
    }
  }

  // ---- when a set succeeds --------------------------------------------------------------------------------

  /** The feed has code, answered both questions, and the price could be read. */
  predicate Accepted(codes: Codes, f: Feed, said: Said) {
    CodeAt(codes, f.address) != [] && said.decimals && said.latest.Some? && said.answer.Some?
  }

  /** Which way a set ends: told from the feed's code, its answers and the price. */
  lemma EndsAs(codes: Codes, f: Feed, said: Said)
    ensures var outcome, code := OutcomeOf(codes, f, said), CodeAt(codes, f.address);
            && (outcome == NoContract <==> code == [])
            && (outcome == NotAFeed <==> code != [] && (!said.decimals || said.latest.None?))
            && (outcome == NotAPrice <==> code != [] && said.decimals && said.latest.Some? && said.answer.None?)
            && (outcome.Set? <==> Accepted(codes, f, said))
            && (outcome.Set? ==> outcome.answer == said.answer.value)
  {
  }

  // ---- what the code of an override says ------------------------------------------------------------------

  /** A word that holds an integer: its remainder, and itself to a reader of signed words if it fits one. */
  predicate Holds256(w: Hex, n: int) {
    |w| == 64 && ToNat(w) == n % WORDS && (-WORDS <= 2 * n < WORDS ==> Signed(w) == n)
  }

  lemma WordHolds(n: int)
    ensures Holds256(HexOf(WordOf(n)), n)
  {
    WordIs(n, WORDS);
  }

  /** The code says exactly this on the call, however long it is run. */
  ghost predicate SaysOnly(code: Bytes, c: Context, data: Hex) {
    Says(code, c, Some(data)) && forall said | Says(code, c, said) :: said == Some(data)
  }

  lemma SaysExpected(c: Context, o: Override, f: Feed, data: Hex)
    requires Callable(c) && Expected(c, o.answer, o.round, f.bytes) == Returned(data) && data != []
    ensures SaysOnly(OracleCode(o.answer, o.round, f.bytes), c, data)
  {
    var code := OracleCode(o.answer, o.round, f.bytes);
    var n, end := OracleAnswers.OracleAnswers(c, o.answer, o.round, f.bytes);
    forall said | Says(code, c, said) ensures said == Some(data) {
      var m: nat, end1: Evm :| Simulations.Bytes(code, Machine(c), Simulations.At(0, START), m) == Simulations.Done(end1)
                               && said == Heard(end1.result);
      OneEnd(code, Machine(c), Simulations.At(0, START), n, end, m, end1);
    }
    assert Heard(end.result) == Some(data);
  }

  /** The calldata of `latestAnswer()` and of `latestRoundData()`. */
  function AskAnswer(): Hex { [5, 0, 13, 2, 5, 11, 12, 13] }

  function AskRoundData(): Hex { [15, 14, 10, 15, 9, 6, 8, 12] }

  lemma SelectorDigits()
    ensures HexOf(LATEST_ANSWER) == AskAnswer() && HexOf(LATEST_ROUND_DATA) == AskRoundData()
    ensures HexOf(GET_ROUND_DATA) != AskAnswer()
  {
    FourBytes(0x50, 0xd2, 0x5b, 0xcd);
    FourBytes(0xfe, 0xaf, 0x96, 0x8c);
    FourBytes(0x9a, 0x6f, 0xc8, 0xf5);
  }

  lemma FourBytes(a: Byte, b: Byte, c: Byte, d: Byte)
    ensures HexOf([a, b, c, d]) == [a / 16, a % 16, b / 16, b % 16, c / 16, c % 16, d / 16, d % 16]
  {
    assert [a, b, c, d][..3] == [a, b, c] && [a, b, c][..2] == [a, b] && [a, b][..1] == [a] && [a][..0] == [];
    HexOfLast([a, b, c, d]);
    HexOfLast([a, b, c]);
    HexOfLast([a, b]);
    HexOfLast([a]);
  }

  lemma AnswerSaid(c: Context, o: Override, f: Feed)
    requires Callable(c) && c.calldata == AskAnswer()
    ensures SaysOnly(OracleCode(o.answer, o.round, f.bytes), c, HexOf(o.answer))
  {
    SelectorDigits();
    SelectorIsChosen(c, LATEST_ANSWER);
    HexSize(o.answer);
    SaysExpected(c, o, f, HexOf(o.answer));
  }

  lemma RoundDataSaid(c: Context, o: Override, f: Feed) returns (data: Hex)
    requires Callable(c) && c.calldata == AskRoundData()
    ensures SaysOnly(OracleCode(o.answer, o.round, f.bytes), c, data)
    ensures |data| >= 128 && data[..64] == HexOf(o.round) && data[64..128] == HexOf(o.answer)
  {
    SelectorDigits();
    SelectorIsChosen(c, LATEST_ROUND_DATA);
    data := RoundAnswer(c, o.answer, o.round);
    FirstWords(c, o.answer, o.round);
    SaysExpected(c, o, f, data);
  }

  lemma FirstWords(c: Context, answer: Word, round: Word)
    ensures var data := RoundAnswer(c, answer, round);
            |data| >= 128 && data[..64] == HexOf(round) && data[64..128] == HexOf(answer)
  {
    HexSize(answer);
    HexSize(round);
    TwoWords(HexOf(round), HexOf(answer), c.time + c.time + HexOf(round));
    assert RoundAnswer(c, answer, round) == HexOf(round) + HexOf(answer) + (c.time + c.time + HexOf(round));
  }

  lemma TwoWords(a: Hex, b: Hex, rest: Hex)
    requires |a| == |b| == 64
    ensures (a + b + rest)[..64] == a && (a + b + rest)[64..128] == b
  {}

  // ---- over a run -------------------------------------------------------------------------------------------

  /** A step that does not give the feed other code: a refused set, or code for some other address. */
  predicate Spares(l: Life, f: Feed, step: Step) {
    match step
    case SetPrice(said, _) => !Accepted(l.codes, f, said)
    case Elsewhere(_, _) => true
    case _ => false
  }

  lemma {:induction false} OverrideStays(trace: seq<Life>, f: Feed, steps: seq<Step>, i: nat, k: nat)
    requires IsLife(trace, f, steps) && i <= k < |trace| && forall x | i <= x < k :: Spares(trace[x], f, steps[x])
    ensures trace[k].now == trace[i].now
    decreases k
  {
    if i < k {
      OverrideStays(trace, f, steps, i, k - 1);
      assert trace[k] == NextLife(trace[k - 1], f, steps[k - 1]);
      assert Spares(trace[k - 1], f, steps[k - 1]);
    }
  }

  /** The set that succeeded last is the override in force. */
  lemma SetIsInForce(trace: seq<Life>, f: Feed, steps: seq<Step>, i: nat, k: nat) returns (o: Override)
    requires IsLife(trace, f, steps) && i < k < |trace| && steps[i].SetPrice? && Accepted(trace[i].codes, f, steps[i].said)
    requires forall x | i < x < k :: Spares(trace[x], f, steps[x])
    ensures CodeAt(trace[k].codes, f.address) == OracleCode(o.answer, o.round, f.bytes)
    ensures trace[i + 1].now == Some(o) && o.answer == WordOf(steps[i].said.answer.value)
  {
    assert trace[i + 1] == NextLife(trace[i], f, steps[i]);
    EndsAs(trace[i].codes, f, steps[i].said);
    o := trace[i + 1].now.value;
    OverrideStays(trace, f, steps, i + 1, k);
    LivesAlways(trace, f, steps, k);
  }

  /**
   * A feed answers the price it was given. Over any run, from a set that was accepted to the next step that
   * gives the feed other code: running the feed's code on `latestAnswer()` says one word, the price as it was
   * read, in two's complement if it is negative.
   */
  lemma PriceIsAnswered(trace: seq<Life>, f: Feed, steps: seq<Step>, i: nat, k: nat, c: Context) returns (w: Hex)
    requires IsLife(trace, f, steps) && i < k < |trace| && steps[i].SetPrice? && Accepted(trace[i].codes, f, steps[i].said)
    requires forall x | i < x < k :: Spares(trace[x], f, steps[x])
    requires Callable(c) && c.calldata == AskAnswer()
    ensures SaysOnly(CodeAt(trace[k].codes, f.address), c, w) && Holds256(w, steps[i].said.answer.value)
  {
    var o := SetIsInForce(trace, f, steps, i, k);
    AnswerSaid(c, o, f);
    w := HexOf(o.answer);
    WordHolds(steps[i].said.answer.value);
  }

  /** And on `latestRoundData()` it says a round and, in the second word, that price. */
  lemma RoundDataHoldsThePrice(trace: seq<Life>, f: Feed, steps: seq<Step>, i: nat, k: nat, c: Context) returns (data: Hex)
    requires IsLife(trace, f, steps) && i < k < |trace| && steps[i].SetPrice? && Accepted(trace[i].codes, f, steps[i].said)
    requires forall x | i < x < k :: Spares(trace[x], f, steps[x])
    requires Callable(c) && c.calldata == AskRoundData()
    ensures SaysOnly(CodeAt(trace[k].codes, f.address), c, data)
    ensures |data| >= 128 && Holds256(data[64..128], steps[i].said.answer.value)
    ensures trace[i].now.None? ==> Holds256(data[..64], RoundIn(steps[i].said.latest.value) + 1)
  {
    var o := SetIsInForce(trace, f, steps, i, k);
    data := RoundDataSaid(c, o, f);
    WordHolds(steps[i].said.answer.value);
    EndsAs(trace[i].codes, f, steps[i].said);
    if trace[i].now.None? {
      RoundIsKept(trace, f, steps, i);
      WordHolds(RoundIn(steps[i].said.latest.value) + 1);
    }
  }

  // ---- every call -------------------------------------------------------------------------------------------

  /** Run on the call from its first byte, the code ends this way. */
  ghost predicate EndsWith(code: Bytes, c: Context, result: Result) {
    exists n: nat, end: Evm ::
      Simulations.Bytes(code, Machine(c), Simulations.At(0, START), n) == Simulations.Done(end) && end.result == result
  }

  /** What any call to a feed with this round and price must end with, its selector being the first eight digits. */
  predicate Answers(c: Context, shadow: Hex, round: Hex, price: Hex, result: Result) {
    var five := round + price + c.time + c.time + round;
    var original := c.delegate(shadow, c.calldata);
    if Chosen(c) == [15, 14, 10, 15, 9, 6, 8, 12] || (Chosen(c) == [9, 10, 6, 15, 12, 8, 15, 5] && Asked(c) == round)
    then result == Returned(five)
    else if Chosen(c) == [5, 0, 13, 2, 5, 11, 12, 13] then result == Returned(price)
    else if Chosen(c) == [8, 2, 0, 5, 11, 15, 6, 10] then result == Returned(c.time)
    else if Chosen(c) == [6, 6, 8, 10, 0, 15, 0, 2] then result == Returned(round)
    else result == if original.0 then Returned(original.1) else Reverted(original.1)
  }

  lemma OtherSelectors()
    ensures HexOf(GET_ROUND_DATA) == [9, 10, 6, 15, 12, 8, 15, 5]
    ensures HexOf(LATEST_TIMESTAMP) == [8, 2, 0, 5, 11, 15, 6, 10] && HexOf(LATEST_ROUND) == [6, 6, 8, 10, 0, 15, 0, 2]
  {
    FourBytes(0x9a, 0x6f, 0xc8, 0xf5);
    FourBytes(0x82, 0x05, 0xbf, 0x6a);
    FourBytes(0x66, 0x8a, 0x0f, 0x02);
  }

  lemma ExpectedAnswers(c: Context, o: Override, f: Feed)
    ensures Answers(c, HexOf(f.bytes), HexOf(o.round), HexOf(o.answer), Expected(c, o.answer, o.round, f.bytes))
  {
    SelectorDigits();
    OtherSelectors();
  }

  lemma EndsAsExpected(c: Context, o: Override, f: Feed, result: Result)
    requires Callable(c)
    ensures EndsWith(OracleCode(o.answer, o.round, f.bytes), c, result) <==> result == Expected(c, o.answer, o.round, f.bytes)
  {
    var code := OracleCode(o.answer, o.round, f.bytes);
    var n, end := OracleAnswers.OracleAnswers(c, o.answer, o.round, f.bytes);
    if EndsWith(code, c, result) {
      var m: nat, end1: Evm :| Simulations.Bytes(code, Machine(c), Simulations.At(0, START), m) == Simulations.Done(end1)
                               && end1.result == result;
      OneEnd(code, Machine(c), Simulations.At(0, START), n, end, m, end1);
    }
  }

  /**
   * Over any run, from a set that was accepted to the next step that gives the feed other code: the feed's code
   * ends on every call in the one way that call deserves, with the override's round and the price as it was read;
   * and calls that are none of the five questions, or ask for another round, with what the original says.
   */
  lemma EveryCallIsAnswered(trace: seq<Life>, f: Feed, steps: seq<Step>, i: nat, k: nat, c: Context, result: Result)
    returns (round: Hex, price: Hex)
    requires IsLife(trace, f, steps) && i < k < |trace| && steps[i].SetPrice? && Accepted(trace[i].codes, f, steps[i].said)
    requires forall x | i < x < k :: Spares(trace[x], f, steps[x])
    requires Callable(c)
    ensures trace[i + 1].now.Some? && round == HexOf(trace[i + 1].now.value.round) && Holds256(price, steps[i].said.answer.value)
    ensures EndsWith(CodeAt(trace[k].codes, f.address), c, result) <==> Answers(c, HexOf(f.bytes), round, price, result)
  {
    var o := SetIsInForce(trace, f, steps, i, k);
    round, price := HexOf(o.round), HexOf(o.answer);
    WordHolds(steps[i].said.answer.value);
    EndsAsExpected(c, o, f, result);
    ExpectedAnswers(c, o, f);
  }

  /** A set that is refused, for whichever reason, leaves the feed its code and the override in force. */
  lemma RefusedSetChangesNothing(trace: seq<Life>, f: Feed, steps: seq<Step>, i: nat)
    requires IsLife(trace, f, steps) && i < |steps| && steps[i].SetPrice? && !Accepted(trace[i].codes, f, steps[i].said)
    ensures CodeAt(trace[i + 1].codes, f.address) == CodeAt(trace[i].codes, f.address) && trace[i + 1].now == trace[i].now
  {
    LivesAlways(trace, f, steps, i);
    EndsAs(trace[i].codes, f, steps[i].said);
    assert trace[i + 1] == NextLife(trace[i], f, steps[i]);
  }
}
