/** The code a price feed is given while its price is overridden (src/oracle.ts:24-108). */
module Oracles {
  import opened Options
  import opened Bytecode
  import opened Assemblers
  import opened LabelledPrograms

  // ---- opcodes -----------------------------------------------------------------------------------

  const STOP := Op(0x00, [])
  const EQ := Op(0x14, [])
  const SHR := Op(0x1c, [])
  const CALLDATALOAD := Op(0x35, [])
  const CALLDATASIZE := Op(0x36, [])
  const CALLDATACOPY := Op(0x37, [])
  const RETURNDATASIZE := Op(0x3d, [])
  const RETURNDATACOPY := Op(0x3e, [])
  const TIMESTAMP := Op(0x42, [])
  const MSTORE := Op(0x52, [])
  const JUMP := Op(0x56, [])
  const JUMPI := Op(0x57, [])
  const GAS := Op(0x5a, [])
  const DUP1 := Op(0x80, [])
  const RETURN := Op(0xf3, [])
  const DELEGATECALL := Op(0xf4, [])
  const REVERT := Op(0xfd, [])

  /** PUSH of so many bytes. */
  function Push(data: Bytes): Op
    requires 1 <= |data| <= 32
  {
    Op(0x5f + |data|, data)
  }

  function Fragment(ops: seq<Op>): Part { Code(CodeOf(ops)) }

  // ---- the program -------------------------------------------------------------------------------

  type Word = b: Bytes | |b| == 32 witness seq(32, i => 0)
  type Address20 = b: Bytes | |b| == 20 witness seq(20, i => 0)
  type Selector = b: Bytes | |b| == 4 witness seq(4, i => 0)

  /** `forkstate-oracle`, never executed. */
  const MARK: Bytes := [0x66, 0x6f, 0x72, 0x6b, 0x73, 0x74, 0x61, 0x74, 0x65, 0x2d, 0x6f, 0x72, 0x61, 0x63, 0x6c, 0x65]

  const LATEST_ROUND_DATA: Selector := [0xfe, 0xaf, 0x96, 0x8c]
  const GET_ROUND_DATA: Selector := [0x9a, 0x6f, 0xc8, 0xf5]
  const LATEST_ANSWER: Selector := [0x50, 0xd2, 0x5b, 0xcd]
  const LATEST_TIMESTAMP: Selector := [0x82, 0x05, 0xbf, 0x6a]
  const LATEST_ROUND: Selector := [0x66, 0x8a, 0x0f, 0x02]

  /** Jumps to a label if the word under the selector copy equals it. */
  function Branch(selector: Selector, target: string): seq<Part> {
    [Fragment([DUP1]), Fragment([Push(selector)]), Fragment([EQ]), Jump(target), Fragment([JUMPI])]
  }

  function Store(at: Byte): Part { Fragment([Push([at]), MSTORE]) }

  const RETURN_WORD: Part := Fragment([Push([0x20]), Push([0]), RETURN])

  function ReturnWord(value: Op): seq<Part> { [Fragment([value]), Store(0), RETURN_WORD] }

  function Dispatch(): seq<Part> {
    [Fragment([Push([0]), CALLDATALOAD]), Fragment([Push([0xe0]), SHR])]
    + Branch(LATEST_ROUND_DATA, "round") + Branch(GET_ROUND_DATA, "get") + Branch(LATEST_ANSWER, "answer")
    + Branch(LATEST_TIMESTAMP, "time") + Branch(LATEST_ROUND, "id")
  }

  function Delegate(shadow: Address20): seq<Part> {
    [Label("delegate"),
     Fragment([CALLDATASIZE]), Fragment([Push([0])]), Fragment([Push([0])]), Fragment([CALLDATACOPY]),
     Fragment([Push([0])]), Fragment([Push([0])]), Fragment([CALLDATASIZE]), Fragment([Push([0])]),
     Fragment([Push(shadow)]), Fragment([GAS]), Fragment([DELEGATECALL]),
     Fragment([RETURNDATASIZE]), Fragment([Push([0])]), Fragment([Push([0])]), Fragment([RETURNDATACOPY]),
     Jump("ok"), Fragment([JUMPI]),
     Fragment([RETURNDATASIZE]), Fragment([Push([0])]), Fragment([REVERT]),
     Label("ok"), Fragment([RETURNDATASIZE]), Fragment([Push([0])]), Fragment([RETURN])]
  }

  function RoundData(answer: Word, round: Word): seq<Part> {
    [Label("round"),
     Fragment([Push(round)]), Store(0x00),
     Fragment([Push(answer)]), Store(0x20),
     Fragment([TIMESTAMP]), Store(0x40),
     Fragment([TIMESTAMP]), Store(0x60),
     Fragment([Push(round)]), Store(0x80),
     Fragment([Push([0xa0]), Push([0]), RETURN])]
  }

  function GetRound(round: Word): seq<Part> {
    [Label("get"),
     Fragment([Push([4]), CALLDATALOAD]), Fragment([Push(round)]), Fragment([EQ]), Jump("round"), Fragment([JUMPI]),
     Jump("delegate"), Fragment([JUMP])]
  }

  function Answers(answer: Word, round: Word): seq<Part> {
    [Label("answer")] + ReturnWord(Push(answer)) + [Label("time")] + ReturnWord(TIMESTAMP) + [Label("id")] + ReturnWord(Push(round))
  }

  /** The parts `oracleCode` assembles. */
  function OracleParts(answer: Word, round: Word, shadow: Address20): seq<Part> {
    Dispatch() + Delegate(shadow) + RoundData(answer, round) + GetRound(round) + Answers(answer, round)
    + [Fragment([STOP]), Code(MARK)]
  }

  function OracleCode(answer: Word, round: Word, shadow: Address20): Bytes {
    var parts := OracleParts(answer, round, shadow);
    ByteCode(parts, |parts|)
  }

  // ---- it assembles ---------------------------------------------------------------------------------

  /** A fragment of whole instructions, none of them a JUMPDEST. */
  predicate Clean(p: Part) {
    p.Code? ==> Whole(p.bytes, 0) && NoLanding(p.bytes)
  }

  lemma FragmentIsClean(ops: seq<Op>)
    requires Complete(ops) && forall i | 0 <= i < |ops| :: ops[i].opcode != JUMPDEST
    ensures Clean(Fragment(ops)) && Parse(Fragment(ops).bytes, 0) == ops
  {
    WrittenParses(ops);
  }

  lemma MarkIsHarmless()
    ensures NoLanding(MARK)
  {
    assert Parse(MARK, 0) == [OpAt(MARK, 0)] + Parse(MARK, 8);
    assert Parse(MARK, 8) == [OpAt(MARK, 8)] + Parse(MARK, 15);
    assert Parse(MARK, 15) == [OpAt(MARK, 15)] + Parse(MARK, 16);
  }

  /** Clean, and of modest size. */
  predicate Fine(p: Part) {
    Clean(p) && Size(p) <= 64
  }

  predicate AllFine(parts: seq<Part>) {
    forall k | 0 <= k < |parts| :: Fine(parts[k])
  }

  lemma {:induction false} WrittenSize(ops: seq<Op>)
    requires Complete(ops)
    ensures |CodeOf(ops)| <= 33 * |ops|
    ensures |ops| == 1 ==> |CodeOf(ops)| == ops[0].Size()
  {
    if ops != [] {
      WrittenSize(ops[1..]);
    }
  }

  lemma OneFine(op: Op)
    requires |op.data| == Carried(op.opcode) && op.opcode != JUMPDEST
    ensures Fine(Fragment([op]))
  {
    FragmentIsClean([op]);
    WrittenSize([op]);
  }

  lemma FewFine(ops: seq<Op>)
    requires Complete(ops) && forall i | 0 <= i < |ops| :: ops[i].opcode != JUMPDEST && |ops[i].data| <= 1
    requires |ops| <= 32
    ensures Fine(Fragment(ops))
  {
    FragmentIsClean(ops);
    ShortSize(ops);
  }

  lemma {:induction false} ShortSize(ops: seq<Op>)
    requires forall i | 0 <= i < |ops| :: |ops[i].data| <= 1
    ensures |CodeOf(ops)| <= 2 * |ops|
  {
    if ops != [] {
      ShortSize(ops[1..]);
    }
  }

  lemma BranchFine(selector: Selector, target: string)
    ensures AllFine(Branch(selector, target))
  {
    OneFine(DUP1);
    OneFine(Push(selector));
    OneFine(EQ);
    OneFine(JUMPI);
  }

  lemma DispatchFine()
    ensures AllFine(Dispatch())
  {
    FewFine([Push([0]), CALLDATALOAD]);
    FewFine([Push([0xe0]), SHR]);
    BranchFine(LATEST_ROUND_DATA, "round");
    BranchFine(GET_ROUND_DATA, "get");
    BranchFine(LATEST_ANSWER, "answer");
    BranchFine(LATEST_TIMESTAMP, "time");
    BranchFine(LATEST_ROUND, "id");
  }

  lemma DelegateFine(shadow: Address20)
    ensures AllFine(Delegate(shadow))
  {
    OneFine(CALLDATASIZE);
    OneFine(Push([0]));
    OneFine(CALLDATACOPY);
    OneFine(Push(shadow));
    OneFine(GAS);
    OneFine(DELEGATECALL);
    OneFine(RETURNDATASIZE);
    OneFine(RETURNDATACOPY);
    OneFine(JUMPI);
    OneFine(REVERT);
    OneFine(RETURN);
  }

  lemma StoreFine(at: Byte)
    ensures Fine(Store(at))
  {
    FewFine([Push([at]), MSTORE]);
  }

  lemma RoundDataFine(answer: Word, round: Word)
    ensures AllFine(RoundData(answer, round))
  {
    OneFine(Push(round));
    OneFine(Push(answer));
    OneFine(TIMESTAMP);
    StoreFine(0x00);
    StoreFine(0x20);
    StoreFine(0x40);
    StoreFine(0x60);
    StoreFine(0x80);
    FewFine([Push([0xa0]), Push([0]), RETURN]);
  }

  lemma GetRoundFine(round: Word)
    ensures AllFine(GetRound(round))
  {
    FewFine([Push([4]), CALLDATALOAD]);
    OneFine(Push(round));
    OneFine(EQ);
    OneFine(JUMPI);
    OneFine(JUMP);
  }

  lemma AnswersFine(answer: Word, round: Word)
    ensures AllFine(Answers(answer, round))
  {
    OneFine(Push(answer));
    OneFine(TIMESTAMP);
    OneFine(Push(round));
    StoreFine(0);
    FewFine([Push([0x20]), Push([0]), RETURN]);
  }

  // ---- labels ------------------------------------------------------------------------------------------

  function Names(parts: seq<Part>): seq<string> {
    if parts == [] then []
    else (if parts[0].Label? then [parts[0].name] else []) + Names(parts[1..])
  }

  lemma {:induction false} NamesJoin(a: seq<Part>, b: seq<Part>)
    ensures Names(a + b) == Names(a) + Names(b)
  {
    if a == [] {
      assert a + b == b;
    } else {
      assert (a + b)[1..] == a[1..] + b;
      NamesJoin(a[1..], b);
    }
  }

  lemma {:induction false} NamedSomewhere(parts: seq<Part>, k: nat)
    requires k < |parts| && parts[k].Label?
    ensures parts[k].name in Names(parts)
  {
    if k > 0 {
      NamedSomewhere(parts[1..], k - 1);
    }
  }

  /** Names that are distinct are on distinct labels. */
  lemma {:induction false} LabelsDistinct(parts: seq<Part>, j: nat, k: nat)
    requires j < k < |parts| && parts[j].Label? && parts[k].Label?
    requires forall x, y | 0 <= x < y < |Names(parts)| :: Names(parts)[x] != Names(parts)[y]
    ensures parts[j].name != parts[k].name
  {
    var rest := Names(parts[1..]);
    if j == 0 {
      NamedSomewhere(parts[1..], k - 1);
      assert Names(parts) == [parts[0].name] + rest;
      var y :| 0 <= y < |rest| && rest[y] == parts[k].name;
      assert Names(parts)[y + 1] == rest[y] && Names(parts)[0] == parts[0].name;
    } else {
      var skipped := if parts[0].Label? then 1 else 0;
      forall x, y | 0 <= x < y < |rest| ensures rest[x] != rest[y] {
        assert Names(parts)[x + skipped] == rest[x] && Names(parts)[y + skipped] == rest[y];
      }
      LabelsDistinct(parts[1..], j - 1, k - 1);
    }
  }

  lemma {:induction false} NamedHasAddress(parts: seq<Part>, name: string, k: nat, n: nat)
    requires k < n <= |parts| && parts[k] == Label(name)
    ensures AddressIn(parts, name, n).Some?
  {
    if k < n - 1 {
      NamedHasAddress(parts, name, k, n - 1);
    }
  }

  // ---- where the blocks are ------------------------------------------------------------------------------

  const DELEGATE_AT: nat := 27
  const OK_AT: nat := 48
  const ROUND_AT: nat := 52
  const GET_AT: nat := 64
  const ANSWER_AT: nat := 72
  const TIME_AT: nat := 76
  const ID_AT: nat := 80
  const PARTS: nat := 86

  /** One block of parts stands at a place among the others. */
  ghost predicate Holds(parts: seq<Part>, at: nat, block: seq<Part>) {
    at + |block| <= |parts| && forall i | 0 <= i < |block| :: parts[at + i] == block[i]
  }

  lemma BlocksStand(answer: Word, round: Word, shadow: Address20)
    ensures var parts := OracleParts(answer, round, shadow);
            && |parts| == PARTS
            && Holds(parts, 0, Dispatch()) && Holds(parts, DELEGATE_AT, Delegate(shadow))
            && Holds(parts, ROUND_AT, RoundData(answer, round)) && Holds(parts, GET_AT, GetRound(round))
            && Holds(parts, ANSWER_AT, Answers(answer, round)) && Holds(parts, 84, [Fragment([STOP]), Code(MARK)])
  {
    var a, b, c, d, e, f := Dispatch(), Delegate(shadow), RoundData(answer, round), GetRound(round), Answers(answer, round),
      [Fragment([STOP]), Code(MARK)];
    Sizes(answer, round, shadow);
  }

  lemma Sizes(answer: Word, round: Word, shadow: Address20)
    ensures |Dispatch()| == 27 && |Delegate(shadow)| == 25 && |RoundData(answer, round)| == 12
    ensures |GetRound(round)| == 8 && |Answers(answer, round)| == 12
  {}

  lemma {:induction false} SmallParts(parts: seq<Part>, n: nat)
    requires n <= |parts| && forall k | 0 <= k < n :: Size(parts[k]) <= 64
    ensures Start(parts, n) <= 64 * n
  {
    if n > 0 {
      SmallParts(parts, n - 1);
    }
  }

  /** Every part but the mark is fine, and the mark is harmless. */
  lemma PartsFine(answer: Word, round: Word, shadow: Address20, k: nat)
    requires k < PARTS && |OracleParts(answer, round, shadow)| == PARTS
    ensures var p := OracleParts(answer, round, shadow)[k];
            Size(p) <= 64 && (p.Code? ==> NoLanding(p.bytes) && (k < PARTS - 1 ==> Whole(p.bytes, 0)))
  {
    var parts := OracleParts(answer, round, shadow);
    BlocksStand(answer, round, shadow);
    if k < DELEGATE_AT {
      DispatchFine();
      assert parts[0 + k] == Dispatch()[k];
    } else if k < ROUND_AT {
      DelegateFine(shadow);
      assert parts[DELEGATE_AT + (k - DELEGATE_AT)] == Delegate(shadow)[k - DELEGATE_AT];
    } else if k < GET_AT {
      RoundDataFine(answer, round);
      assert parts[ROUND_AT + (k - ROUND_AT)] == RoundData(answer, round)[k - ROUND_AT];
    } else if k < ANSWER_AT {
      GetRoundFine(round);
      assert parts[GET_AT + (k - GET_AT)] == GetRound(round)[k - GET_AT];
    } else if k < 84 {
      AnswersFine(answer, round);
      assert parts[ANSWER_AT + (k - ANSWER_AT)] == Answers(answer, round)[k - ANSWER_AT];
    } else {
      OneFine(STOP);
      MarkIsHarmless();
      assert parts[84 + (k - 84)] == [Fragment([STOP]), Code(MARK)][k - 84];
    }
  }

  const NAMES := ["delegate", "ok", "round", "get", "answer", "time", "id"]

  lemma SixNames(a: seq<Part>, b: seq<Part>, c: seq<Part>, d: seq<Part>, e: seq<Part>, f: seq<Part>)
    ensures Names(a + b + c + d + e + f) == Names(a) + Names(b) + Names(c) + Names(d) + Names(e) + Names(f)
  {
    NamesJoin(a + b + c + d + e, f);
    NamesJoin(a + b + c + d, e);
    NamesJoin(a + b + c, d);
    NamesJoin(a + b, c);
    NamesJoin(a, b);
  }

  lemma NamesInAll()
    ensures [] + ["delegate", "ok"] + ["round"] + ["get"] + ["answer", "time", "id"] + [] == NAMES
  {}

  lemma NamesAre(answer: Word, round: Word, shadow: Address20)
    ensures Names(OracleParts(answer, round, shadow)) == NAMES
  {
    NamesOfBlocks(answer, round, shadow);
    NamesInAll();
    SixNames(Dispatch(), Delegate(shadow), RoundData(answer, round), GetRound(round), Answers(answer, round),
             [Fragment([STOP]), Code(MARK)]);
  }

  lemma NamesOfBlocks(answer: Word, round: Word, shadow: Address20)
    ensures Names(Dispatch()) == [] && Names(Delegate(shadow)) == ["delegate", "ok"]
    ensures Names(RoundData(answer, round)) == ["round"] && Names(GetRound(round)) == ["get"]
    ensures Names(Answers(answer, round)) == ["answer", "time", "id"] && Names([Fragment([STOP]), Code(MARK)]) == []
  {
    NamesOfDispatch();
    NamesOfDelegate(shadow);
    NamesOfRoundData(answer, round);
    NamesOfGetRound(round);
    NamesOfAnswers(answer, round);
    NamesOfEnd([Fragment([STOP]), Code(MARK)]);
  }

  lemma NamesOfDelegate(shadow: Address20)
    ensures Names(Delegate(shadow)) == ["delegate", "ok"]
  {
    NamesOf(Delegate(shadow), 0, 21, "delegate", "ok");
  }

  lemma NamesOfRoundData(answer: Word, round: Word)
    ensures Names(RoundData(answer, round)) == ["round"]
  {
    NameOf(RoundData(answer, round), "round");
  }

  lemma NamesOfGetRound(round: Word)
    ensures Names(GetRound(round)) == ["get"]
  {
    NameOf(GetRound(round), "get");
  }

  lemma NamesOfEnd(parts: seq<Part>)
    requires |parts| == 2 && parts[0].Code? && parts[1].Code?
    ensures Names(parts) == []
  {
    NoNames(parts);
  }

  lemma NamesOfDispatch()
    ensures Names(Dispatch()) == []
  {
    NoNames(Dispatch());
  }

  lemma {:induction false} NoNames(parts: seq<Part>)
    requires forall k | 0 <= k < |parts| :: !parts[k].Label?
    ensures Names(parts) == []
  {
    if parts != [] {
      NoNames(parts[1..]);
    }
  }

  lemma NameOf(parts: seq<Part>, name: string)
    requires parts != [] && parts[0] == Label(name) && forall k | 1 <= k < |parts| :: !parts[k].Label?
    ensures Names(parts) == [name]
  {
    NoNames(parts[1..]);
  }

  lemma NoNamesBefore(parts: seq<Part>, i: nat)
    requires i <= |parts| && forall k | 0 <= k < i :: !parts[k].Label?
    ensures Names(parts[..i]) == []
  {
    NoNames(parts[..i]);
  }

  lemma NameFrom(parts: seq<Part>, i: nat, j: nat, name: string)
    requires i < j <= |parts| && parts[i] == Label(name) && forall k | i < k < j :: !parts[k].Label?
    ensures Names(parts[i..j]) == [name]
  {
    var part := parts[i..j];
    forall k | 1 <= k < |part| ensures !part[k].Label? { assert part[k] == parts[i + k]; }
    NameOf(part, name);
  }

  lemma NamesOf(parts: seq<Part>, i: nat, j: nat, first: string, second: string)
    requires i < j < |parts| && parts[i] == Label(first) && parts[j] == Label(second)
    requires forall k | 0 <= k < |parts| && k != i && k != j :: !parts[k].Label?
    ensures Names(parts) == [first, second]
  {
    NoNamesBefore(parts, i);
    NameFrom(parts, i, j, first);
    NameFrom(parts, j, |parts|, second);
    CutNames(parts, i, j);
    assert [] + [first] + [second] == [first, second];
  }

  lemma CutNames(parts: seq<Part>, i: nat, j: nat)
    requires i <= j <= |parts|
    ensures Names(parts) == Names(parts[..i]) + Names(parts[i..j]) + Names(parts[j..|parts|])
  {
    ThreeSlices(parts, i, j);
    ThreeNames(parts, parts[..i], parts[i..j], parts[j..|parts|]);
  }

  lemma ThreeSlices<T>(s: seq<T>, i: nat, j: nat)
    requires i <= j <= |s|
    ensures s == s[..i] + s[i..j] + s[j..|s|]
  {}

  lemma ThreeNames(parts: seq<Part>, a: seq<Part>, b: seq<Part>, c: seq<Part>)
    requires parts == a + b + c
    ensures Names(parts) == Names(a) + Names(b) + Names(c)
  {
    NamesJoin(a + b, c);
    NamesJoin(a, b);
  }

  lemma NamesOfAnswers(answer: Word, round: Word)
    ensures Names(Answers(answer, round)) == ["answer", "time", "id"]
  {
    var a, b, c := [Label("answer")] + ReturnWord(Push(answer)), [Label("time")] + ReturnWord(TIMESTAMP),
      [Label("id")] + ReturnWord(Push(round));
    assert Answers(answer, round) == a + b + c;
    ThreeNames(Answers(answer, round), a, b, c);
    NameOf(a, "answer");
    NameOf(b, "time");
    NameOf(c, "id");
  }

  ghost predicate JumpsTo(parts: seq<Part>, names: set<string>) {
    forall k | 0 <= k < |parts| && parts[k].Jump? :: parts[k].name in names
  }

  lemma BlocksJump(answer: Word, round: Word, shadow: Address20, names: set<string>)
    requires names == {"round", "get", "answer", "time", "id", "ok", "delegate"}
    ensures JumpsTo(Dispatch(), names) && JumpsTo(Delegate(shadow), names) && JumpsTo(RoundData(answer, round), names)
    ensures JumpsTo(GetRound(round), names) && JumpsTo(Answers(answer, round), names)
    ensures JumpsTo([Fragment([STOP]), Code(MARK)], names)
  {}

  lemma JumpIn(parts: seq<Part>, at: nat, block: seq<Part>, names: set<string>, k: nat)
    requires Holds(parts, at, block) && JumpsTo(block, names) && at <= k < at + |block| && parts[k].Jump?
    ensures parts[k].name in names
  {
    assert parts[at + (k - at)] == block[k - at];
  }

  /** Every jump is to a label there is. */
  lemma JumpsResolve(answer: Word, round: Word, shadow: Address20, k: nat)
    requires k < PARTS && |OracleParts(answer, round, shadow)| == PARTS && OracleParts(answer, round, shadow)[k].Jump?
    ensures Resolves(OracleParts(answer, round, shadow), k)
  {
    var parts := OracleParts(answer, round, shadow);
    JumpNamed(answer, round, shadow, k);
    LabelsStand(answer, round, shadow);
    LabelsHaveAddresses(parts);
  }

  lemma JumpNamed(answer: Word, round: Word, shadow: Address20, k: nat)
    requires k < PARTS && |OracleParts(answer, round, shadow)| == PARTS && OracleParts(answer, round, shadow)[k].Jump?
    ensures OracleParts(answer, round, shadow)[k].name in {"round", "get", "answer", "time", "id", "ok", "delegate"}
  {
    var parts := OracleParts(answer, round, shadow);
    BlocksStand(answer, round, shadow);
    var names := {"round", "get", "answer", "time", "id", "ok", "delegate"};
    BlocksJump(answer, round, shadow, names);
    Sizes(answer, round, shadow);
    if k < DELEGATE_AT {
      JumpIn(parts, 0, Dispatch(), names, k);
    } else if k < ROUND_AT {
      JumpIn(parts, DELEGATE_AT, Delegate(shadow), names, k);
    } else if k < GET_AT {
      JumpIn(parts, ROUND_AT, RoundData(answer, round), names, k);
    } else if k < ANSWER_AT {
      JumpIn(parts, GET_AT, GetRound(round), names, k);
    } else if k < 84 {
      JumpIn(parts, ANSWER_AT, Answers(answer, round), names, k);
    } else {
      JumpIn(parts, 84, [Fragment([STOP]), Code(MARK)], names, k);
    }
  }

  /** Every label is where it is said to be. */
  predicate LabelsIn(parts: seq<Part>) {
    && |parts| == PARTS
    && parts[DELEGATE_AT] == Label("delegate") && parts[OK_AT] == Label("ok") && parts[ROUND_AT] == Label("round")
    && parts[GET_AT] == Label("get") && parts[ANSWER_AT] == Label("answer") && parts[TIME_AT] == Label("time")
    && parts[ID_AT] == Label("id")
  }

  lemma LabelsStand(answer: Word, round: Word, shadow: Address20)
    ensures LabelsIn(OracleParts(answer, round, shadow))
  {
    var parts := OracleParts(answer, round, shadow);
    BlocksStand(answer, round, shadow);
    DelegateLabels(shadow);
    OtherLabels(answer, round);
    HeldAt(parts, DELEGATE_AT, Delegate(shadow), 0);
    HeldAt(parts, DELEGATE_AT, Delegate(shadow), 21);
    HeldAt(parts, ROUND_AT, RoundData(answer, round), 0);
    HeldAt(parts, GET_AT, GetRound(round), 0);
    HeldAt(parts, ANSWER_AT, Answers(answer, round), 0);
    HeldAt(parts, ANSWER_AT, Answers(answer, round), 4);
    HeldAt(parts, ANSWER_AT, Answers(answer, round), 8);
  }

  lemma HeldAt(parts: seq<Part>, at: nat, block: seq<Part>, i: nat)
    requires Holds(parts, at, block) && i < |block|
    ensures at + i < |parts| && parts[at + i] == block[i]
  {}

  lemma DelegateLabels(shadow: Address20)
    ensures |Delegate(shadow)| > 21 && Delegate(shadow)[0] == Label("delegate") && Delegate(shadow)[21] == Label("ok")
  {}

  lemma OtherLabels(answer: Word, round: Word)
    ensures |RoundData(answer, round)| > 0 && RoundData(answer, round)[0] == Label("round")
    ensures |GetRound(round)| > 0 && GetRound(round)[0] == Label("get")
    ensures |Answers(answer, round)| > 8 && Answers(answer, round)[0] == Label("answer")
    ensures Answers(answer, round)[4] == Label("time") && Answers(answer, round)[8] == Label("id")
  {}

  lemma LabelsHaveAddresses(parts: seq<Part>)
    requires LabelsIn(parts)
    ensures forall name | name in NAMES :: Address(parts, name).Some?
  {
    NamedHasAddress(parts, "delegate", DELEGATE_AT, PARTS);
    NamedHasAddress(parts, "ok", OK_AT, PARTS);
    NamedHasAddress(parts, "round", ROUND_AT, PARTS);
    NamedHasAddress(parts, "get", GET_AT, PARTS);
    NamedHasAddress(parts, "answer", ANSWER_AT, PARTS);
    NamedHasAddress(parts, "time", TIME_AT, PARTS);
    NamedHasAddress(parts, "id", ID_AT, PARTS);
  }

  lemma OracleResolves(answer: Word, round: Word, shadow: Address20)
    ensures Resolved(OracleParts(answer, round, shadow))
  {
    var parts := OracleParts(answer, round, shadow);
    BlocksStand(answer, round, shadow);
    forall k | 0 <= k < |parts| ensures Resolves(parts, k) {
      if parts[k].Jump? {
        JumpsResolve(answer, round, shadow, k);
      }
    }
  }

  ghost predicate FineAt(parts: seq<Part>, k: nat)
    requires k < |parts|
  {
    Size(parts[k]) <= 64
    && (parts[k].Code? ==> NoLanding(parts[k].bytes) && (k < |parts| - 1 ==> Whole(parts[k].bytes, 0)))
  }

  lemma FineAssembles(parts: seq<Part>)
    requires |parts| == PARTS && Resolved(parts) && forall k | 0 <= k < |parts| :: FineAt(parts, k)
    requires forall j, k | 0 <= j < k < |parts| && parts[j].Label? && parts[k].Label? :: parts[j].name != parts[k].name
    ensures Assembles(parts) && LandsOnLabels(parts)
  {
    forall k | 0 <= k < |parts| ensures Size(parts[k]) <= 64 { assert FineAt(parts, k); }
    forall k | 0 <= k < |parts| && parts[k].Code? ensures NoLanding(parts[k].bytes) { assert FineAt(parts, k); }
    forall k | 0 <= k < |parts| - 1 && parts[k].Code? ensures Whole(parts[k].bytes, 0) { assert FineAt(parts, k); }
    SmallParts(parts, |parts|);
  }

  /** The oracle's parts are ones the assembler may be given, whatever the answer, round and shadow. */
  lemma OracleAssembles(answer: Word, round: Word, shadow: Address20)
    ensures Assembles(OracleParts(answer, round, shadow)) && LandsOnLabels(OracleParts(answer, round, shadow))
  {
    var parts := OracleParts(answer, round, shadow);
    LabelsStand(answer, round, shadow);
    NamesAre(answer, round, shadow);
    OracleResolves(answer, round, shadow);
    forall j, k | 0 <= j < k < |parts| && parts[j].Label? && parts[k].Label? ensures parts[j].name != parts[k].name {
      LabelsDistinct(parts, j, k);
    }
    forall k | 0 <= k < |parts| ensures FineAt(parts, k) { PartsFine(answer, round, shadow, k); }
    FineAssembles(parts);
  }

  /** The code ends with the mark, which is how an overridden feed is known. */
  lemma OracleIsMarked(answer: Word, round: Word, shadow: Address20)
    ensures |OracleCode(answer, round, shadow)| >= |MARK|
    ensures OracleCode(answer, round, shadow)[|OracleCode(answer, round, shadow)| - |MARK|..] == MARK
  {
    var parts := OracleParts(answer, round, shadow);
    BlocksStand(answer, round, shadow);
    assert parts[84 + 1] == Code(MARK);
    assert Pieces(parts)[85] == MARK;
    assert OracleCode(answer, round, shadow) == Concat(Pieces(parts), 85) + MARK;
  }
}
