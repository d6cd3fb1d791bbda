/** The generated code answers the price questions and hands every other call on. */
module OracleAnswers {
  import opened Options
  import opened HexNumbers
  import opened Abi
  import opened Bytecode
  import opened Assemblers
  import opened LabelledPrograms
  import opened Simulations
  import opened PartRuns
  import opened Evms
  import opened Oracles
  import opened OracleInstructions
  import opened OracleRuns

  /** The oracle's parts, and where its blocks and labels are. */
  ghost predicate IsOracle(parts: seq<Part>, answer: Word, round: Word, shadow: Address20) {
    && Assembles(parts) && |parts| == PARTS
    && Holds(parts, 0, Dispatch()) && Holds(parts, DELEGATE_AT, Delegate(shadow))
    && Holds(parts, ROUND_AT, RoundData(answer, round)) && Holds(parts, GET_AT, GetRound(round))
    && Holds(parts, ANSWER_AT, Answers(answer, round))
    && LabelsIn(parts)
  }

  lemma OracleIs(answer: Word, round: Word, shadow: Address20)
    ensures IsOracle(OracleParts(answer, round, shadow), answer, round, shadow)
  {
    OracleAssembles(answer, round, shadow);
    BlocksStand(answer, round, shadow);
    LabelsStand(answer, round, shadow);
  }

  // ---- getRoundData -------------------------------------------------------------------------------------

  /** The round a `getRoundData` call asks for. */
  function Asked(c: Context): Hex { Read(c.calldata, 8, 64) }

  lemma GetParts(parts: seq<Part>, round: Word)
    requires |parts| == PARTS && Holds(parts, GET_AT, GetRound(round))
    ensures IsSingle(parts, 64, Op(JUMPDEST, [])) && parts[65] == Fragment([Push([4]), CALLDATALOAD])
    ensures IsSingle(parts, 66, Push(round)) && IsSingle(parts, 67, EQ)
    ensures parts[68] == Jump("round") && IsSingle(parts, 69, JUMPI) && parts[70] == Jump("delegate") && IsSingle(parts, 71, JUMP)
  {
    var block := GetRound(round);
    assert parts[64 + 0] == block[0] && parts[64 + 1] == block[1] && parts[64 + 2] == block[2] && parts[64 + 3] == block[3];
    assert parts[64 + 4] == block[4] && parts[64 + 5] == block[5] && parts[64 + 6] == block[6] && parts[64 + 7] == block[7];
    LabelIs(parts, 64, "get");
    FragmentIs(parts, 66, Push(round));
    FragmentIs(parts, 67, EQ);
    FragmentIs(parts, 69, JUMPI);
    FragmentIs(parts, 71, JUMP);
  }

  /** A fragment that pushes an offset and loads the calldata there. */
  lemma Loads(parts: seq<Part>, c: Context, k: nat, at: Byte, stack: seq<Hex>)
    requires k < |parts| && parts[k] == Fragment([Push([at]), CALLDATALOAD])
    ensures Reaches(parts, Machine(c), k, Evm(stack, [], [], Nothing), k + 1, Evm([Read(c.calldata, 2 * at, 64)] + stack, [], [], Nothing))
  {
    var exec, ops := Machine(c), [Push([at]), CALLDATALOAD];
    var s, t := Evm(stack, [], [], Nothing), Evm([Pushes([at])] + stack, [], [], Nothing);
    var u := Evm([Read(c.calldata, 2 * at, 64)] + stack, [], [], Nothing);
    FragmentIsClean(ops);
    PushStep(c, s, [at], t);
    ByteWord(at);
    DoLoad(c, t, Pushes([at]), stack);
    StraightTwo(exec, Push([at]), CALLDATALOAD, s, t, u);
    FragmentReaches(parts, exec, k, ops, s, u);
  }

  lemma EqStep(c: Context, a: Hex, b: Hex, held: Hex, found: Hex)
    requires found == if a == b then ONE else ZERO
    ensures Machine(c)(EQ, Evm([a, b, held], [], [], Nothing)) == Go(Evm([found, held], [], [], Nothing))
  {
    var s := Evm([a, b, held], [], [], Nothing);
    assert s.stack == [a, b] + [held];
    DoEq(c, s, a, b, [held]);
    assert [found] + [held] == [found, held];
  }

  lemma LoadsAsked(parts: seq<Part>, c: Context, round: Word, held: Hex)
    requires |parts| == PARTS && Holds(parts, GET_AT, GetRound(round))
    ensures Reaches(parts, Machine(c), GET_AT, Holding(held, []), 66, Evm([Asked(c), held], [], [], Nothing))
  {
    var s := Holding(held, []);
    GetParts(parts, round);
    LabelPasses(parts, c, 64, held, []);
    Loads(parts, c, 65, 4, [held]);
    assert [Asked(c)] + [held] == [Asked(c), held];
    ThenReaches(parts, Machine(c), 64, s, 65, s, 66, Evm([Asked(c), held], [], [], Nothing));
  }

  lemma CompareLeads(c: Context, round: Word, asked: Hex, held: Hex, found: Hex)
    requires found == if HexOf(round) == asked then ONE else ZERO
    ensures Leads(Machine(c), [Push(round), EQ],
                  [Evm([asked, held], [], [], Nothing), Evm([HexOf(round), asked, held], [], [], Nothing), Evm([found, held], [], [], Nothing)])
  {
    WordPushes(round);
    PushStep(c, Evm([asked, held], [], [], Nothing), round, Evm([HexOf(round), asked, held], [], [], Nothing));
    EqStep(c, HexOf(round), asked, held, found);
  }

  /** The asked round is compared with the overridden one. */
  lemma Compares(parts: seq<Part>, c: Context, round: Word, held: Hex, found: Hex)
    requires |parts| == PARTS && Holds(parts, GET_AT, GetRound(round))
    requires found == if HexOf(round) == Asked(c) then ONE else ZERO
    ensures Reaches(parts, Machine(c), GET_AT, Holding(held, []), 68, Evm([found, held], [], [], Nothing))
  {
    var t, u, v := Evm([Asked(c), held], [], [], Nothing), Evm([HexOf(round), Asked(c), held], [], [], Nothing), Evm([found, held], [], [], Nothing);
    GetParts(parts, round);
    LoadsAsked(parts, c, round, held);
    CompareLeads(c, round, Asked(c), held, found);
    SinglesReach(parts, Machine(c), 66, [Push(round), EQ], [t, u, v]);
    ThenReaches(parts, Machine(c), 64, Holding(held, []), 66, t, 68, v);
  }

  lemma JumpsToRound(parts: seq<Part>, c: Context, answer: Word, round: Word, shadow: Address20, held: Hex, found: Hex)
    requires IsOracle(parts, answer, round, shadow)
    ensures Reaches(parts, Machine(c), 68, Evm([found, held], [], [], Nothing), if found == ZERO then 70 else ROUND_AT, Holding(held, []))
  {
    var a, s := Start(parts, ROUND_AT), Evm([found, held], [], [], Nothing);
    var t := Evm([Pushes(AddressOp(a).data), found, held], [], [], Nothing);
    GetParts(parts, round);
    JumpIs(parts, 68, "round", ROUND_AT);
    assert [Pushes(AddressOp(a).data)] + [found, held] == t.stack;
    PartGoes(parts, Machine(c), 68, s, t);
    BranchEnd(parts, c, 69, ROUND_AT, t, Holding(held, []), held, found, a, if found == ZERO then 70 else ROUND_AT);
    ThenReaches(parts, Machine(c), 68, s, 69, t, if found == ZERO then 70 else ROUND_AT, Holding(held, []));
  }

  lemma JumpsToDelegate(parts: seq<Part>, c: Context, answer: Word, round: Word, shadow: Address20, held: Hex)
    requires IsOracle(parts, answer, round, shadow)
    ensures Reaches(parts, Machine(c), 70, Holding(held, []), DELEGATE_AT, Holding(held, []))
  {
    var a, s := Start(parts, DELEGATE_AT), Holding(held, []);
    var t := Evm([Pushes(AddressOp(a).data), held], [], [], Nothing);
    GetParts(parts, round);
    JumpIs(parts, 70, "delegate", DELEGATE_AT);
    assert [Pushes(AddressOp(a).data)] + [held] == t.stack;
    PartGoes(parts, Machine(c), 70, s, t);
    AddressWord(a);
    DoJump(c, t, Pushes(AddressOp(a).data), [held]);
    PartLandsOn(parts, Machine(c), 71, DELEGATE_AT, t, s);
    ThenReaches(parts, Machine(c), 70, s, 71, t, DELEGATE_AT, s);
  }

  /** From the label `get`: the overridden round is answered, any other is asked of the original. */
  lemma GetsRound(parts: seq<Part>, c: Context, answer: Word, round: Word, shadow: Address20, held: Hex)
    requires IsOracle(parts, answer, round, shadow)
    ensures Reaches(parts, Machine(c), GET_AT, Holding(held, []),
                    if Asked(c) == HexOf(round) then ROUND_AT else DELEGATE_AT, Holding(held, []))
  {
    var exec, s, found := Machine(c), Holding(held, []), if HexOf(round) == Asked(c) then ONE else ZERO;
    var t := Evm([found, held], [], [], Nothing);
    OneIsNotZero();
    Compares(parts, c, round, held, found);
    JumpsToRound(parts, c, answer, round, shadow, held, found);
    if found == ZERO {
      JumpsToDelegate(parts, c, answer, round, shadow, held);
      ThenReaches(parts, exec, GET_AT, s, 68, t, 70, s);
      ThenReaches(parts, exec, GET_AT, s, 70, s, DELEGATE_AT, s);
    } else {
      ThenReaches(parts, exec, GET_AT, s, 68, t, ROUND_AT, s);
    }
  }

  // ---- the dispatch -------------------------------------------------------------------------------------

  const START := Evm([], [], [], Nothing)

  /** The first four bytes of the call, missing ones read as zeros. */
  function Chosen(c: Context): Hex { Read(c.calldata, 0, 64)[..8] }

  lemma ShiftStep(c: Context, word: Hex)
    requires |word| == 64
    ensures Machine(c)(Push([0xe0]), Evm([word], [], [], Nothing)) == Go(Evm([Pushes([0xe0]), word], [], [], Nothing))
    ensures Machine(c)(SHR, Evm([Pushes([0xe0]), word], [], [], Nothing)) == Go(Holding(Zeros(56) + word[..8], []))
  {
    var s, t := Evm([word], [], [], Nothing), Evm([Pushes([0xe0]), word], [], [], Nothing);
    PushStep(c, s, [0xe0], t);
    ByteWord(0xe0);
    assert t.stack == [Pushes([0xe0]), word] + [];
    assert [Zeros(56) + word[..8]] + [] == [Zeros(56) + word[..8]];
  }

  lemma Shifts(parts: seq<Part>, c: Context, word: Hex)
    requires |parts| == PARTS && parts[1] == Fragment([Push([0xe0]), SHR]) && |word| == 64
    ensures Reaches(parts, Machine(c), 1, Evm([word], [], [], Nothing), 2, Holding(Zeros(56) + word[..8], []))
  {
    var s, t, u := Evm([word], [], [], Nothing), Evm([Pushes([0xe0]), word], [], [], Nothing), Holding(Zeros(56) + word[..8], []);
    FragmentIsClean([Push([0xe0]), SHR]);
    ShiftStep(c, word);
    StraightTwo(Machine(c), Push([0xe0]), SHR, s, t, u);
    FragmentReaches(parts, Machine(c), 1, [Push([0xe0]), SHR], s, u);
  }

  lemma LoadsFirst(parts: seq<Part>, c: Context)
    requires |parts| == PARTS && parts[0] == Fragment([Push([0]), CALLDATALOAD])
    ensures Reaches(parts, Machine(c), 0, START, 1, Evm([Read(c.calldata, 0, 64)], [], [], Nothing))
  {
    Loads(parts, c, 0, 0, []);
    assert [Read(c.calldata, 0, 64)] + [] == [Read(c.calldata, 0, 64)];
  }

  /** The selector is taken from the calldata. */
  lemma Takes4(parts: seq<Part>, c: Context)
    requires |parts| == PARTS && Holds(parts, 0, Dispatch())
    ensures Reaches(parts, Machine(c), 0, START, 2, Holding(Zeros(56) + Chosen(c), []))
  {
    var word := Read(c.calldata, 0, 64);
    assert parts[0 + 0] == Dispatch()[0] && parts[0 + 1] == Dispatch()[1];
    LoadsFirst(parts, c);
    Shifts(parts, c, word);
    ThenReaches(parts, Machine(c), 0, START, 1, Evm([word], [], [], Nothing), 2, Holding(Zeros(56) + word[..8], []));
  }

  lemma SelectorIs(selector: Selector, chosen: Hex)
    requires |chosen| == 8
    ensures Zeros(56) + chosen == Pushes(selector) <==> chosen == HexOf(selector)
  {
    HexSize(selector);
    assert Pushes(selector) == Zeros(56) + HexOf(selector);
    assert (Zeros(56) + chosen)[56..] == chosen && (Zeros(56) + HexOf(selector))[56..] == HexOf(selector);
  }

  lemma BranchesStand(parts: seq<Part>)
    requires |parts| == PARTS && Holds(parts, 0, Dispatch())
    ensures Holds(parts, 2, Branch(LATEST_ROUND_DATA, "round")) && Holds(parts, 7, Branch(GET_ROUND_DATA, "get"))
    ensures Holds(parts, 12, Branch(LATEST_ANSWER, "answer")) && Holds(parts, 17, Branch(LATEST_TIMESTAMP, "time"))
    ensures Holds(parts, 22, Branch(LATEST_ROUND, "id"))
  {
    var all := Dispatch();
    forall i | 0 <= i < 5
      ensures all[2 + i] == Branch(LATEST_ROUND_DATA, "round")[i] && all[7 + i] == Branch(GET_ROUND_DATA, "get")[i]
      ensures all[12 + i] == Branch(LATEST_ANSWER, "answer")[i] && all[17 + i] == Branch(LATEST_TIMESTAMP, "time")[i]
      ensures all[22 + i] == Branch(LATEST_ROUND, "id")[i]
    {}
    forall i | 0 <= i < 27 ensures parts[i] == all[i] {
      assert parts[0 + i] == all[i];
    }
  }

  /** A selector, the label its calls are sent to, and the part that label is. */
  datatype Case = Case(selector: Selector, name: string, at: nat)

  const CASES: seq<Case> :=
    [Case(LATEST_ROUND_DATA, "round", ROUND_AT), Case(GET_ROUND_DATA, "get", GET_AT), Case(LATEST_ANSWER, "answer", ANSWER_AT),
     Case(LATEST_TIMESTAMP, "time", TIME_AT), Case(LATEST_ROUND, "id", ID_AT)]

  /** Where the dispatch sends a call that gets as far as branch `i`. */
  function TargetFrom(cases: seq<Case>, i: nat, held: Hex): (t: nat)
    requires i <= |cases|
    decreases |cases| - i
  {
    if i == |cases| then DELEGATE_AT
    else if held == Pushes(cases[i].selector) then cases[i].at
    else TargetFrom(cases, i + 1, held)
  }

  function Target(chosen: Hex): (t: nat)
    ensures t <= PARTS
  {
    if chosen == HexOf(LATEST_ROUND_DATA) then ROUND_AT
    else if chosen == HexOf(GET_ROUND_DATA) then GET_AT
    else if chosen == HexOf(LATEST_ANSWER) then ANSWER_AT
    else if chosen == HexOf(LATEST_TIMESTAMP) then TIME_AT
    else if chosen == HexOf(LATEST_ROUND) then ID_AT
    else DELEGATE_AT
  }

  lemma TargetIs(chosen: Hex, held: Hex)
    requires |chosen| == 8 && held == Zeros(56) + chosen
    ensures TargetFrom(CASES, 0, held) == Target(chosen)
  {
    SelectorIs(LATEST_ROUND_DATA, chosen);
    SelectorIs(GET_ROUND_DATA, chosen);
    SelectorIs(LATEST_ANSWER, chosen);
    SelectorIs(LATEST_TIMESTAMP, chosen);
    SelectorIs(LATEST_ROUND, chosen);
    TargetUnfolds(held);
  }

  lemma TargetUnfolds(held: Hex)
    ensures TargetFrom(CASES, 0, held) ==
            if held == Pushes(LATEST_ROUND_DATA) then ROUND_AT
            else if held == Pushes(GET_ROUND_DATA) then GET_AT
            else if held == Pushes(LATEST_ANSWER) then ANSWER_AT
            else if held == Pushes(LATEST_TIMESTAMP) then TIME_AT
            else if held == Pushes(LATEST_ROUND) then ID_AT
            else DELEGATE_AT
  {
    assert TargetFrom(CASES, 4, held) == if held == Pushes(CASES[4].selector) then ID_AT else TargetFrom(CASES, 5, held);
    assert TargetFrom(CASES, 3, held) == if held == Pushes(CASES[3].selector) then TIME_AT else TargetFrom(CASES, 4, held);
    assert TargetFrom(CASES, 2, held) == if held == Pushes(CASES[2].selector) then ANSWER_AT else TargetFrom(CASES, 3, held);
    assert TargetFrom(CASES, 1, held) == if held == Pushes(CASES[1].selector) then GET_AT else TargetFrom(CASES, 2, held);
  }

  /** Each case has its branch, five parts after the last, and its label. */
  ghost predicate CaseStands(parts: seq<Part>, k: nat, one: Case) {
    Holds(parts, k, Branch(one.selector, one.name)) && one.at < |parts| && parts[one.at] == Label(one.name)
  }

  /** One branch, then what the branches after it do. */
  lemma BranchThen(parts: seq<Part>, c: Context, k: nat, one: Case, held: Hex, later: nat)
    requires Assembles(parts) && CaseStands(parts, k, one) && later <= |parts| && k + 5 <= |parts|
    requires Reaches(parts, Machine(c), k + 5, Holding(held, []), later, Holding(held, []))
    ensures Reaches(parts, Machine(c), k, Holding(held, []), if held == Pushes(one.selector) then one.at else later, Holding(held, []))
  {
    var target := if held == Pushes(one.selector) then one.at else k + 5;
    CaseRuns(parts, c, k, one, held, target);
    Onwards(parts, c, k, target, held, if held == Pushes(one.selector) then one.at else later);
  }

  lemma CaseRuns(parts: seq<Part>, c: Context, k: nat, one: Case, held: Hex, target: nat)
    requires Assembles(parts) && CaseStands(parts, k, one) && target == if held == Pushes(one.selector) then one.at else k + 5
    ensures target <= |parts| && k <= |parts| && Reaches(parts, Machine(c), k, Holding(held, []), target, Holding(held, []))
  {
    BranchRuns(parts, c, k, one.at, one.selector, one.name, held);
  }

  lemma Onwards(parts: seq<Part>, c: Context, k: nat, target: nat, held: Hex, later: nat)
    requires k <= |parts| && target <= |parts| && later <= |parts|
    requires Reaches(parts, Machine(c), k, Holding(held, []), target, Holding(held, []))
    requires later != target ==> Reaches(parts, Machine(c), target, Holding(held, []), later, Holding(held, []))
    ensures Reaches(parts, Machine(c), k, Holding(held, []), later, Holding(held, []))
  {
    if later != target {
      ThenReaches(parts, Machine(c), k, Holding(held, []), target, Holding(held, []), later, Holding(held, []));
    }
  }

  ghost predicate CasesAllStand(parts: seq<Part>, cases: seq<Case>) {
    |cases| == 5 && forall j | 0 <= j < 5 :: CaseStands(parts, 2 + 5 * j, cases[j])
  }

  lemma {:induction false} FromCase(parts: seq<Part>, c: Context, cases: seq<Case>, i: nat, k: nat, held: Hex)
    requires Assembles(parts) && |parts| == PARTS && CasesAllStand(parts, cases) && i <= 5 && k == 2 + 5 * i
    ensures TargetFrom(cases, i, held) <= |parts|
    ensures Reaches(parts, Machine(c), k, Holding(held, []), TargetFrom(cases, i, held), Holding(held, []))
    decreases 5 - i
  {
    if i == 5 {
      Stays(parts, Machine(c), 27, Holding(held, []));
    } else {
      FromCase(parts, c, cases, i + 1, k + 5, held);
      assert CaseStands(parts, 2 + 5 * i, cases[i]);
      BranchThen(parts, c, k, cases[i], held, TargetFrom(cases, i + 1, held));
    }
  }

  lemma CasesStand(parts: seq<Part>)
    requires |parts| == PARTS && Holds(parts, 0, Dispatch())
    requires parts[ROUND_AT] == Label("round") && parts[GET_AT] == Label("get") && parts[ANSWER_AT] == Label("answer")
    requires parts[TIME_AT] == Label("time") && parts[ID_AT] == Label("id")
    ensures CasesAllStand(parts, CASES)
  {
    BranchesStand(parts);
    assert CaseStands(parts, 2, CASES[0]) && CaseStands(parts, 7, CASES[1]) && CaseStands(parts, 12, CASES[2]);
    assert CaseStands(parts, 17, CASES[3]) && CaseStands(parts, 22, CASES[4]);
    forall j | 0 <= j < 5 ensures CaseStands(parts, 2 + 5 * j, CASES[j]) {
      assert j == 0 || j == 1 || j == 2 || j == 3 || j == 4;
    }
  }

  /** The call is sent to the label of its selector, and to `delegate` if there is none. */
  lemma Dispatches(parts: seq<Part>, c: Context, cases: seq<Case>, held: Hex, t: nat)
    requires Assembles(parts) && |parts| == PARTS && CasesAllStand(parts, cases)
    requires Reaches(parts, Machine(c), 0, START, 2, Holding(held, []))
    requires t == TargetFrom(cases, 0, held) && t <= PARTS
    ensures Reaches(parts, Machine(c), 0, START, t, Holding(held, []))
  {
    FromCase(parts, c, cases, 0, 2, held);
    ThenReaches(parts, Machine(c), 0, START, 2, Holding(held, []), t, Holding(held, []));
  }

  // ---- the whole code ----------------------------------------------------------------------------------

  /** What a call to an overridden feed is to answer. */
  function Expected(c: Context, answer: Word, round: Word, shadow: Address20): Result {
    var original := Original(c, shadow);
    var passedOn := if original.0 then Returned(original.1) else Reverted(original.1);
    var chosen := Chosen(c);
    if chosen == HexOf(LATEST_ROUND_DATA) then Returned(RoundAnswer(c, answer, round))
    else if chosen == HexOf(GET_ROUND_DATA) then
      if Asked(c) == HexOf(round) then Returned(RoundAnswer(c, answer, round)) else passedOn
    else if chosen == HexOf(LATEST_ANSWER) then Returned(HexOf(answer))
    else if chosen == HexOf(LATEST_TIMESTAMP) then Returned(c.time)
    else if chosen == HexOf(LATEST_ROUND) then Returned(HexOf(round))
    else passedOn
  }

  /** From wherever the dispatch sends it, the call ends with what is expected. */
  lemma EndsFromTarget(parts: seq<Part>, c: Context, answer: Word, round: Word, shadow: Address20, held: Hex) returns (end: Evm)
    requires IsOracle(parts, answer, round, shadow) && Callable(c)
    ensures Ends(parts, Machine(c), Target(Chosen(c)), Holding(held, []), end) && end.result == Expected(c, answer, round, shadow)
  {
    var chosen, s := Chosen(c), Holding(held, []);
    if chosen == HexOf(LATEST_ROUND_DATA) {
      end := AnswersRound(parts, c, answer, round, held);
    } else if chosen == HexOf(GET_ROUND_DATA) {
      GetsRound(parts, c, answer, round, shadow, held);
      if Asked(c) == HexOf(round) {
        end := AnswersRound(parts, c, answer, round, held);
        ThenEnds(parts, Machine(c), GET_AT, s, ROUND_AT, s, end);
      } else {
        end := Delegates(parts, c, shadow, held);
        ThenEnds(parts, Machine(c), GET_AT, s, DELEGATE_AT, s, end);
      }
    } else {
      end := EndsElsewhere(parts, c, answer, round, shadow, held);
    }
  }

  lemma EndsElsewhere(parts: seq<Part>, c: Context, answer: Word, round: Word, shadow: Address20, held: Hex) returns (end: Evm)
    requires IsOracle(parts, answer, round, shadow) && Callable(c)
    requires Chosen(c) != HexOf(LATEST_ROUND_DATA) && Chosen(c) != HexOf(GET_ROUND_DATA)
    ensures Ends(parts, Machine(c), Target(Chosen(c)), Holding(held, []), end) && end.result == Expected(c, answer, round, shadow)
  {
    AnswerParts(parts, answer, round);
    WordPushes(answer);
    WordPushes(round);
    PushesWord(c, answer, held, []);
    PushesTime(c, held, []);
    PushesWord(c, round, held, []);
    if Chosen(c) == HexOf(LATEST_ANSWER) {
      end := AnswersWord(parts, c, ANSWER_AT, Push(answer), HexOf(answer), held);
    } else if Chosen(c) == HexOf(LATEST_TIMESTAMP) {
      end := AnswersWord(parts, c, TIME_AT, TIMESTAMP, c.time, held);
    } else if Chosen(c) == HexOf(LATEST_ROUND) {
      end := AnswersWord(parts, c, ID_AT, Push(round), HexOf(round), held);
    } else {
      end := Delegates(parts, c, shadow, held);
    }
  }

  lemma OracleEnds(parts: seq<Part>, c: Context, answer: Word, round: Word, shadow: Address20) returns (end: Evm)
    requires IsOracle(parts, answer, round, shadow) && Callable(c)
    ensures Ends(parts, Machine(c), 0, START, end) && end.result == Expected(c, answer, round, shadow)
  {
    var chosen := Chosen(c);
    var held, t := Zeros(56) + chosen, Target(chosen);
    CasesStand(parts);
    TargetIs(chosen, held);
    Takes4(parts, c);
    Dispatches(parts, c, CASES, held, t);
    end := EndsFromTarget(parts, c, answer, round, shadow, held);
    ThenEnds(parts, Machine(c), 0, START, t, Holding(held, []), end);
  }

  lemma OracleCodeRuns(parts: seq<Part>, c: Context, answer: Word, round: Word, shadow: Address20) returns (n: nat, end: Evm)
    requires IsOracle(parts, answer, round, shadow) && Callable(c)
    ensures Simulations.Bytes(ByteCode(parts, |parts|), Machine(c), At(0, START), n) == Done(end)
    ensures end.result == Expected(c, answer, round, shadow)
  {
    end := OracleEnds(parts, c, answer, round, shadow);
    n := FromTheStart(parts, Machine(c), START, end);
  }

  /**
   * Run from its first byte, the generated code answers the price questions with the chosen answer and
   * round, and hands every other call, and a question about any other round, to the original code,
   * passing its answer or its revert on unchanged.
   */
  lemma OracleAnswers(c: Context, answer: Word, round: Word, shadow: Address20) returns (n: nat, end: Evm)
    requires Callable(c)
    ensures Simulations.Bytes(OracleCode(answer, round, shadow), Machine(c), At(0, START), n) == Done(end)
    ensures end.result == Expected(c, answer, round, shadow)
  {
    OracleIs(answer, round, shadow);
    n, end := OracleCodeRuns(OracleParts(answer, round, shadow), c, answer, round, shadow);
  }

  lemma FromTheStart(parts: seq<Part>, exec: Exec<Evm>, s: Evm, end: Evm) returns (n: nat)
    requires Assembles(parts) && Ends(parts, exec, 0, s, end)
    ensures Simulations.Bytes(ByteCode(parts, |parts|), exec, At(0, s), n) == Done(end)
  {
    n :| Labels(parts, exec, At(|Items(parts, 0)|, s), n) == Done(end);
    assert |Items(parts, 0)| == 0;
    CodeRunsAsWritten(parts, exec, s, n);
  }
}
