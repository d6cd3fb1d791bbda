/** What the oracle code does when it is called (src/oracle.ts:66-108). */
module OracleRuns {
  import opened Options
  import opened HexNumbers
  import opened Abi
  import opened Bytecode
  import opened Assemblers
  import opened LabelledPrograms
  import opened Simulations
  import opened PartRuns
  import opened Evms
  import opened Oracles
  import opened OracleInstructions

  /** What a call can be: whole bytes of a length that is a word, at a time that is a word. */
  ghost predicate Callable(c: Context) {
    && |c.time| == 64 && |c.calldata| % 2 == 0 && Fits(|c.calldata| / 2, 64)
    && (forall callee, args :: |c.delegate(callee, args).1| % 2 == 0 && Fits(|c.delegate(callee, args).1| / 2, 64))
  }

  // ---- the parts' instructions ------------------------------------------------------------------------

  lemma FragmentIs(parts: seq<Part>, k: nat, op: Op)
    requires k < |parts| && parts[k] == Fragment([op]) && |op.data| == Carried(op.opcode) && op.opcode != JUMPDEST
    ensures IsSingle(parts, k, op)
  {
    FragmentIsClean([op]);
  }

  lemma LabelIs(parts: seq<Part>, k: nat, name: string)
    requires k < |parts| && parts[k] == Label(name)
    ensures IsSingle(parts, k, Op(JUMPDEST, []))
  {}

  lemma JumpIs(parts: seq<Part>, k: nat, name: string, m: nat)
    requires Assembles(parts) && k < |parts| && parts[k] == Jump(name) && m < |parts| && parts[m] == Label(name)
    ensures Start(parts, m) < 0x1_0000
    ensures IsSingle(parts, k, Op(PUSH2, [Start(parts, m) / 256 % 256, Start(parts, m) % 256]))
  {
    assert Resolves(parts, k);
    var j := AddressIs(parts, name, |parts|);
    AddressFits(parts, k);
    assert j == m;
  }

  function AddressOp(a: nat): Op { Op(PUSH2, [a / 256 % 256, a % 256]) }

  // ---- one branch of the dispatch ------------------------------------------------------------------------

  /** The machine with only a selector on its stack. */
  function Holding(selector: Hex, memory: Hex): Evm { Evm([selector], memory, [], Nothing) }

  lemma BranchIs(parts: seq<Part>, k: nat, selector: Selector, name: string)
    requires Holds(parts, k, Branch(selector, name))
    ensures k + 5 <= |parts| && parts[k] == Fragment([DUP1]) && parts[k + 1] == Fragment([Push(selector)])
    ensures parts[k + 2] == Fragment([EQ]) && parts[k + 3] == Jump(name) && parts[k + 4] == Fragment([JUMPI])
  {
    var block := Branch(selector, name);
    assert parts[k + 0] == block[0] && parts[k + 1] == block[1] && parts[k + 2] == block[2] && parts[k + 3] == block[3]
      && parts[k + 4] == block[4];
  }

  lemma BranchParts(parts: seq<Part>, k: nat, m: nat, selector: Selector, name: string, a: nat)
    requires Assembles(parts) && Holds(parts, k, Branch(selector, name)) && m < |parts| && parts[m] == Label(name)
    requires a == Start(parts, m)
    ensures k + 5 <= |parts| && a < 0x1_0000
    ensures IsSingle(parts, k, DUP1) && IsSingle(parts, k + 1, Push(selector)) && IsSingle(parts, k + 2, EQ)
    ensures IsSingle(parts, k + 3, AddressOp(a)) && IsSingle(parts, k + 4, JUMPI)
  {
    BranchIs(parts, k, selector, name);
    FragmentIs(parts, k, DUP1);
    FragmentIs(parts, k + 1, Push(selector));
    FragmentIs(parts, k + 2, EQ);
    JumpIs(parts, k + 3, name, m);
    FragmentIs(parts, k + 4, JUMPI);
  }

  function BranchStates(s0: Evm, held: Hex, pushed: Hex, found: Hex, address: Hex): seq<Evm> {
    [s0, s0.(stack := [held, held]), s0.(stack := [pushed, held, held]), s0.(stack := [found, held]),
     s0.(stack := [address, found, held])]
  }

  lemma FourSingles(parts: seq<Part>, k: nat, ops: seq<Op>)
    requires k + 4 <= |parts| && |ops| == 4
    requires IsSingle(parts, k, ops[0]) && IsSingle(parts, k + 1, ops[1])
    requires IsSingle(parts, k + 2, ops[2]) && IsSingle(parts, k + 3, ops[3])
    ensures Singles(parts, k, ops)
  {
    forall i | 0 <= i < 4 ensures IsSingle(parts, k + i, ops[i]) {
      if i == 0 {
      } else if i == 1 {
      } else if i == 2 {
      }
    }
  }

  function BranchOps(selector: Selector, a: nat): seq<Op> { [DUP1, Push(selector), EQ, AddressOp(a)] }

  lemma BranchStands(parts: seq<Part>, k: nat, m: nat, selector: Selector, name: string, a: nat)
    requires Assembles(parts) && Holds(parts, k, Branch(selector, name)) && m < |parts| && parts[m] == Label(name)
    requires a == Start(parts, m)
    ensures k + 5 <= |parts| && a < 0x1_0000 && IsSingle(parts, k + 4, JUMPI) && Singles(parts, k, BranchOps(selector, a))
  {
    BranchParts(parts, k, m, selector, name, a);
    FourSingles(parts, k, BranchOps(selector, a));
  }

  /** The branch's instructions up to its jump. */
  lemma BranchUp(parts: seq<Part>, c: Context, k: nat, m: nat, selector: Selector, name: string, held: Hex, found: Hex, a: nat, s: Evm)
    requires Assembles(parts) && Holds(parts, k, Branch(selector, name)) && m < |parts| && parts[m] == Label(name)
    requires a == Start(parts, m) && found == if Pushes(selector) == held then ONE else ZERO
    requires s == Evm([Pushes(AddressOp(a).data), found, held], [], [], Nothing)
    ensures k + 5 <= |parts| && a < 0x1_0000 && IsSingle(parts, k + 4, JUMPI)
    ensures Reaches(parts, Machine(c), k, Holding(held, []), k + 4, s)
  {
    var states := BranchStates(Holding(held, []), held, Pushes(selector), found, Pushes(AddressOp(a).data));
    BranchStands(parts, k, m, selector, name, a);
    BranchSteps(c, Holding(held, []), held, selector, found, a);
    SinglesLead(parts, Machine(c), k, BranchOps(selector, a), states, Holding(held, []), k + 4, s);
  }

  lemma BranchReaches(parts: seq<Part>, c: Context, k: nat, m: nat, selector: Selector, name: string, held: Hex, found: Hex)
    requires Assembles(parts) && Holds(parts, k, Branch(selector, name)) && m < |parts| && parts[m] == Label(name)
    requires found == if Pushes(selector) == held then ONE else ZERO
    ensures k + 5 <= |parts|
    ensures Reaches(parts, Machine(c), k, Holding(held, []), if found == ZERO then k + 5 else m, Holding(held, []))
  {
    var a, target := Start(parts, m), if found == ZERO then k + 5 else m;
    var s := Evm([Pushes(AddressOp(a).data), found, held], [], [], Nothing);
    BranchUp(parts, c, k, m, selector, name, held, found, a, s);
    BranchOn(parts, c, k + 4, m, s, held, found, a, target);
    ThenReaches(parts, Machine(c), k, Holding(held, []), k + 4, s, target, Holding(held, []));
  }

  lemma BranchOn(parts: seq<Part>, c: Context, k: nat, m: nat, s: Evm, held: Hex, found: Hex, a: nat, target: nat)
    requires Assembles(parts) && k < |parts| && IsSingle(parts, k, JUMPI) && m < |parts| && parts[m].Label?
    requires a == Start(parts, m) < 0x1_0000 && target == (if found == ZERO then k + 1 else m)
    requires s == Evm([Pushes(AddressOp(a).data), found, held], [], [], Nothing)
    ensures Reaches(parts, Machine(c), k, s, target, Holding(held, []))
  {
    BranchEnd(parts, c, k, m, s, Holding(held, []), held, found, a, target);
  }

  /** A branch compares the selector and jumps, or falls through, with the selector left. */
  lemma BranchRuns(parts: seq<Part>, c: Context, k: nat, m: nat, selector: Selector, name: string, held: Hex)
    requires Assembles(parts) && Holds(parts, k, Branch(selector, name)) && m < |parts| && parts[m] == Label(name)
    ensures k + 5 <= |parts|
    ensures if held == Pushes(selector) then Reaches(parts, Machine(c), k, Holding(held, []), m, Holding(held, []))
            else Reaches(parts, Machine(c), k, Holding(held, []), k + 5, Holding(held, []))
  {
    OneIsNotZero();
    BranchReaches(parts, c, k, m, selector, name, held, if Pushes(selector) == held then ONE else ZERO);
  }

  lemma OneIsNotZero()
    ensures ONE != ZERO
  {
    assert ONE[63] == 1;
    ZerosAre(64, 63);
  }

  lemma {:induction false} ZerosAre(k: nat, i: nat)
    requires i < k
    ensures Zeros(k)[i] == 0
  {
    if i > 0 {
      ZerosAre(k - 1, i - 1);
    }
  }

  lemma BranchSteps(c: Context, s0: Evm, held: Hex, selector: Selector, found: Hex, a: nat)
    requires s0.stack == [held] && found == if Pushes(selector) == held then ONE else ZERO
    ensures Leads(Machine(c), [DUP1, Push(selector), EQ, AddressOp(a)],
                  BranchStates(s0, held, Pushes(selector), found, Pushes(AddressOp(a).data)))
  {
    var s1, s2, s3 := s0.(stack := [held, held]), s0.(stack := [Pushes(selector), held, held]), s0.(stack := [found, held]);
    var s4 := s0.(stack := [Pushes(AddressOp(a).data), found, held]);
    assert Machine(c)(DUP1, s0) == Go(s1) by {
      DoDup(c, s0, held, []);
      assert [held, held] + [] == s1.stack;
    }
    assert Machine(c)(Push(selector), s1) == Go(s2) by {
      assert [Pushes(selector)] + s1.stack == s2.stack;
    }
    assert Machine(c)(EQ, s2) == Go(s3) by {
      assert s2.stack == [Pushes(selector), held] + [held];
      DoEq(c, s2, Pushes(selector), held, [held]);
      assert [found] + [held] == s3.stack;
    }
    assert Machine(c)(AddressOp(a), s3) == Go(s4) by {
      assert [Pushes(AddressOp(a).data)] + s3.stack == s4.stack;
    }
  }

  lemma BranchEnd(parts: seq<Part>, c: Context, k: nat, m: nat, s: Evm, t: Evm, held: Hex, found: Hex, a: nat, target: nat)
    requires Assembles(parts) && k < |parts| && IsSingle(parts, k, JUMPI) && m < |parts| && parts[m].Label?
    requires a == Start(parts, m) < 0x1_0000 && s == t.(stack := [Pushes(AddressOp(a).data), found, held]) && t.stack == [held]
    requires target == if found == ZERO then k + 1 else m
    ensures Reaches(parts, Machine(c), k, s, target, t)
  {
    AddressWord(a);
    DoJumpI(c, s, Pushes(AddressOp(a).data), found, [held]);
    MachineIs(c, JUMPI, s);
    assert t == s.(stack := [held]);
    if found == ZERO {
      PartGoes(parts, Machine(c), k, s, t);
    } else {
      PartLandsOn(parts, Machine(c), k, m, s, t);
    }
  }

  // ---- everything else, delegated ---------------------------------------------------------------------

  /** The instructions from the label `delegate` to the jump to `ok`. */
  function DelegateOps(shadow: Address20): seq<Op> {
    [Op(JUMPDEST, []), CALLDATASIZE, Push([0]), Push([0]), CALLDATACOPY,
     Push([0]), Push([0]), CALLDATASIZE, Push([0]), Push(shadow), GAS, DELEGATECALL,
     RETURNDATASIZE, Push([0]), Push([0]), RETURNDATACOPY]
  }

  lemma DelegateSingles(parts: seq<Part>, shadow: Address20, i: nat)
    requires |parts| == PARTS && Holds(parts, DELEGATE_AT, Delegate(shadow)) && i < 16
    ensures IsSingle(parts, DELEGATE_AT + i, DelegateOps(shadow)[i])
  {
    var block := Delegate(shadow);
    assert parts[DELEGATE_AT + i] == block[i];
    if i == 0 {
      LabelIs(parts, DELEGATE_AT, "delegate");
    } else {
      FragmentIs(parts, DELEGATE_AT + i, DelegateOps(shadow)[i]);
    }
  }

  const NOUGHT: Hex := Pushes([0])

  lemma NoughtIsZero()
    ensures ToNat(NOUGHT) == 0
  {
    ByteWord(0);
  }

  lemma DelegateSinglesFrom(parts: seq<Part>, shadow: Address20, i: nat, j: nat)
    requires |parts| == PARTS && Holds(parts, DELEGATE_AT, Delegate(shadow)) && i <= j <= 16
    ensures Singles(parts, DELEGATE_AT + i, DelegateOps(shadow)[i..j])
  {
    forall k | 0 <= k < j - i ensures IsSingle(parts, DELEGATE_AT + i + k, DelegateOps(shadow)[i..j][k]) {
      DelegateSingles(parts, shadow, i + k);
    }
  }

  lemma MachineIs(c: Context, op: Op, s: Evm)
    ensures Machine(c)(op, s) == Step(c, op, s)
  {}

  lemma PushStep(c: Context, s: Evm, data: Bytes, t: Evm)
    requires 1 <= |data| <= 32 && t == s.(stack := t.stack) && t.stack == [Pushes(data)] + s.stack
    ensures Machine(c)(Push(data), s) == Go(t)
  {
  }

  lemma SizeStep(c: Context, s: Evm, t: Evm)
    requires t == s.(stack := t.stack) && t.stack == [SizeOf(c.calldata)] + s.stack
    ensures Machine(c)(CALLDATASIZE, s) == Go(t)
  {
  }

  lemma CopyStep(c: Context, s: Evm, t: Evm, held: Hex)
    requires Callable(c) && s == Evm([NOUGHT, NOUGHT, SizeOf(c.calldata), held], [], [], Nothing)
    requires t == Holding(held, c.calldata)
    ensures Machine(c)(CALLDATACOPY, s) == Go(t)
  {
    NoughtIsZero();
    SizeWord(c.calldata);
    assert s.stack == [NOUGHT, NOUGHT, SizeOf(c.calldata)] + [held];
    DoCopy(c, s, NOUGHT, NOUGHT, SizeOf(c.calldata), [held], |c.calldata| / 2);
    MachineIs(c, CALLDATACOPY, s);
  }

  function CopyStates(held: Hex, n: Hex, calldata: Hex): seq<Evm> {
    [Holding(held, []), Holding(held, []), Evm([n, held], [], [], Nothing), Evm([NOUGHT, n, held], [], [], Nothing),
     Evm([NOUGHT, NOUGHT, n, held], [], [], Nothing), Holding(held, calldata)]
  }

  lemma CopyLeads(c: Context, held: Hex, ops: seq<Op>)
    requires Callable(c) && ops == [Op(JUMPDEST, []), CALLDATASIZE, Push([0]), Push([0]), CALLDATACOPY]
    ensures Leads(Machine(c), ops, CopyStates(held, SizeOf(c.calldata), c.calldata))
  {
    var states := CopyStates(held, SizeOf(c.calldata), c.calldata);
    DoLabel(c, states[0]);
    SizeStep(c, states[1], states[2]);
    PushStep(c, states[2], [0], states[3]);
    PushStep(c, states[3], [0], states[4]);
    CopyStep(c, states[4], states[5], held);
  }

  /** The calldata is copied to memory. */
  lemma CopiesCalldata(parts: seq<Part>, c: Context, shadow: Address20, held: Hex)
    requires |parts| == PARTS && Holds(parts, DELEGATE_AT, Delegate(shadow)) && Callable(c)
    ensures Reaches(parts, Machine(c), DELEGATE_AT, Holding(held, []), DELEGATE_AT + 5, Holding(held, c.calldata))
  {
    var ops := DelegateOps(shadow)[0..5];
    DelegateSinglesFrom(parts, shadow, 0, 5);
    CopyLeads(c, held, ops);
    SinglesReach(parts, Machine(c), DELEGATE_AT, ops, CopyStates(held, SizeOf(c.calldata), c.calldata));
  }

  /** What the original code answers to this call. */
  function Original(c: Context, shadow: Address20): (bool, Hex) { c.delegate(HexOf(shadow), c.calldata) }

  lemma {:induction false} HexSize(b: Bytes)
    ensures |HexOf(b)| == 2 * |b|
  {
    if b != [] {
      HexSize(b[1..]);
    }
  }

  lemma ShadowIsCalled(shadow: Address20)
    ensures Slice(Pushes(shadow), 24, 64) == HexOf(shadow)
  {
    HexSize(shadow);
    assert Pushes(shadow) == Zeros(24) + HexOf(shadow);
  }

  function ArgumentStates(held: Hex, n: Hex, m: Hex): seq<Evm> {
    var z := NOUGHT;
    [Holding(held, m), Evm([z, held], m, [], Nothing), Evm([z, z, held], m, [], Nothing), Evm([n, z, z, held], m, [], Nothing),
     Evm([z, n, z, z, held], m, [], Nothing)]
  }

  function CallStates(held: Hex, n: Hex, m: Hex, callee: Hex, gas: Hex, ok: Hex, out: Hex): seq<Evm> {
    var z := NOUGHT;
    [Evm([z, n, z, z, held], m, [], Nothing), Evm([callee, z, n, z, z, held], m, [], Nothing),
     Evm([gas, callee, z, n, z, z, held], m, [], Nothing), Evm([ok, held], m, out, Nothing)]
  }

  lemma CallStep(c: Context, s: Evm, t: Evm, shadow: Address20, held: Hex)
    requires Callable(c) && s == Evm([c.gas, Pushes(shadow), NOUGHT, SizeOf(c.calldata), NOUGHT, NOUGHT, held], c.calldata, [], Nothing)
    requires t == Evm([if Original(c, shadow).0 then ONE else ZERO, held], c.calldata, Original(c, shadow).1, Nothing)
    ensures Machine(c)(DELEGATECALL, s) == Go(t)
  {
    NoughtIsZero();
    SizeWord(c.calldata);
    ShadowIsCalled(shadow);
    ReadAll(c.calldata);
    assert s.stack == [c.gas, Pushes(shadow), NOUGHT, SizeOf(c.calldata), NOUGHT, NOUGHT] + [held];
    DoDelegate(c, s, c.gas, Pushes(shadow), NOUGHT, SizeOf(c.calldata), NOUGHT, NOUGHT, [held], Original(c, shadow));
    assert t.stack == [if Original(c, shadow).0 then ONE else ZERO] + [held];
  }

  lemma GasStep(c: Context, s: Evm, t: Evm)
    requires t == s.(stack := t.stack) && t.stack == [c.gas] + s.stack
    ensures Machine(c)(GAS, s) == Go(t)
  {
  }

  lemma ArgumentLeads(c: Context, held: Hex, m: Hex, ops: seq<Op>)
    requires ops == [Push([0]), Push([0]), CALLDATASIZE, Push([0])]
    ensures Leads(Machine(c), ops, ArgumentStates(held, SizeOf(c.calldata), m))
  {
    var states := ArgumentStates(held, SizeOf(c.calldata), m);
    PushStep(c, states[0], [0], states[1]);
    PushStep(c, states[1], [0], states[2]);
    SizeStep(c, states[2], states[3]);
    PushStep(c, states[3], [0], states[4]);
  }

  lemma CallLeads(c: Context, held: Hex, shadow: Address20, ops: seq<Op>, ok: Hex, out: Hex)
    requires Callable(c) && Original(c, shadow) == (ok == ONE, out) && (ok == ONE || ok == ZERO)
    requires ops == [Push(shadow), GAS, DELEGATECALL]
    ensures Leads(Machine(c), ops, CallStates(held, SizeOf(c.calldata), c.calldata, Pushes(shadow), c.gas, ok, out))
  {
    var states := CallStates(held, SizeOf(c.calldata), c.calldata, Pushes(shadow), c.gas, ok, out);
    PushStep(c, states[0], shadow, states[1]);
    GasStep(c, states[1], states[2]);
    CallStep(c, states[2], states[3], shadow, held);
  }

  lemma PushesArguments(parts: seq<Part>, c: Context, shadow: Address20, held: Hex, m: Hex)
    requires |parts| == PARTS && Holds(parts, DELEGATE_AT, Delegate(shadow))
    ensures Reaches(parts, Machine(c), DELEGATE_AT + 5, Holding(held, m), DELEGATE_AT + 9,
                    Evm([NOUGHT, SizeOf(c.calldata), NOUGHT, NOUGHT, held], m, [], Nothing))
  {
    var ops := DelegateOps(shadow)[5..9];
    DelegateSinglesFrom(parts, shadow, 5, 9);
    ArgumentLeads(c, held, m, ops);
    SinglesReach(parts, Machine(c), DELEGATE_AT + 5, ops, ArgumentStates(held, SizeOf(c.calldata), m));
  }

  lemma CallOps(shadow: Address20)
    ensures DelegateOps(shadow)[9..12] == [Push(shadow), GAS, DELEGATECALL]
  {}

  lemma CallsOriginal(parts: seq<Part>, c: Context, shadow: Address20, held: Hex, ok: Hex, out: Hex)
    requires |parts| == PARTS && Holds(parts, DELEGATE_AT, Delegate(shadow)) && Callable(c)
    requires Original(c, shadow) == (ok == ONE, out) && (ok == ONE || ok == ZERO)
    ensures Reaches(parts, Machine(c), DELEGATE_AT + 9, Evm([NOUGHT, SizeOf(c.calldata), NOUGHT, NOUGHT, held], c.calldata, [], Nothing),
                    DELEGATE_AT + 12, Evm([ok, held], c.calldata, out, Nothing))
  {
    var ops := DelegateOps(shadow)[9..12];
    DelegateSinglesFrom(parts, shadow, 9, 12);
    CallOps(shadow);
    CallLeads(c, held, shadow, ops, ok, out);
    var states := CallStates(held, SizeOf(c.calldata), c.calldata, Pushes(shadow), c.gas, ok, out);
    SinglesLead(parts, Machine(c), DELEGATE_AT + 9, ops, states, states[0], DELEGATE_AT + 12, states[3]);
  }

  function BackStates(ok: Hex, held: Hex, m: Hex, out: Hex): seq<Evm> {
    var z, r := NOUGHT, SizeOf(out);
    [Evm([ok, held], m, out, Nothing), Evm([r, ok, held], m, out, Nothing), Evm([z, r, ok, held], m, out, Nothing),
     Evm([z, z, r, ok, held], m, out, Nothing), Evm([ok, held], Write(m, 0, out), out, Nothing)]
  }

  lemma ReturnedStep(c: Context, s: Evm, t: Evm)
    requires t == s.(stack := t.stack) && t.stack == [SizeOf(s.returned)] + s.stack
    ensures Machine(c)(RETURNDATASIZE, s) == Go(t)
  {
  }

  lemma BackStep(c: Context, s: Evm, t: Evm, ok: Hex, held: Hex, m: Hex, out: Hex)
    requires |out| % 2 == 0 && Fits(|out| / 2, 64)
    requires s == Evm([NOUGHT, NOUGHT, SizeOf(out), ok, held], m, out, Nothing)
    requires t == Evm([ok, held], Write(m, 0, out), out, Nothing)
    ensures Machine(c)(RETURNDATACOPY, s) == Go(t)
  {
    NoughtIsZero();
    SizeWord(out);
    assert s.stack == [NOUGHT, NOUGHT, SizeOf(out)] + [ok, held];
    DoReturnedCopy(c, s, NOUGHT, NOUGHT, SizeOf(out), [ok, held], |out| / 2);
  }

  lemma BackLeads(c: Context, ok: Hex, held: Hex, m: Hex, out: Hex, ops: seq<Op>)
    requires |out| % 2 == 0 && Fits(|out| / 2, 64) && ops == [RETURNDATASIZE, Push([0]), Push([0]), RETURNDATACOPY]
    ensures Leads(Machine(c), ops, BackStates(ok, held, m, out))
  {
    var states := BackStates(ok, held, m, out);
    ReturnedStep(c, states[0], states[1]);
    PushStep(c, states[1], [0], states[2]);
    PushStep(c, states[2], [0], states[3]);
    BackStep(c, states[3], states[4], ok, held, m, out);
  }

  /** The original's answer is copied to memory. */
  lemma CopiesBack(parts: seq<Part>, c: Context, shadow: Address20, ok: Hex, held: Hex, m: Hex, out: Hex)
    requires |parts| == PARTS && Holds(parts, DELEGATE_AT, Delegate(shadow)) && |out| % 2 == 0 && Fits(|out| / 2, 64)
    ensures Reaches(parts, Machine(c), DELEGATE_AT + 12, Evm([ok, held], m, out, Nothing), DELEGATE_AT + 16,
                    Evm([ok, held], Write(m, 0, out), out, Nothing))
  {
    var ops := DelegateOps(shadow)[12..16];
    DelegateSinglesFrom(parts, shadow, 12, 16);
    BackLeads(c, ok, held, m, out, ops);
    SinglesReach(parts, Machine(c), DELEGATE_AT + 12, ops, BackStates(ok, held, m, out));
  }

  // ---- and its answer passed on ---------------------------------------------------------------------------

  lemma ReturnStep(c: Context, s: Evm, held: Hex, out: Hex)
    requires |out| % 2 == 0 && Fits(|out| / 2, 64) && Read(s.memory, 0, |out|) == out
    requires s.stack == [NOUGHT, SizeOf(out), held]
    ensures Machine(c)(RETURN, s) == Halt(s.(result := Returned(out)))
    ensures Machine(c)(REVERT, s) == Halt(s.(result := Reverted(out)))
  {
    NoughtIsZero();
    SizeWord(out);
    assert s.stack == [NOUGHT, SizeOf(out)] + [held];
    DoReturn(c, s, NOUGHT, SizeOf(out), [held]);
    DoRevert(c, s, NOUGHT, SizeOf(out), [held]);
    MachineIs(c, RETURN, s);
    MachineIs(c, REVERT, s);
  }

  lemma OkParts(parts: seq<Part>, shadow: Address20)
    requires |parts| == PARTS && Holds(parts, DELEGATE_AT, Delegate(shadow))
    ensures parts[43] == Jump("ok") && IsSingle(parts, 44, JUMPI)
  {
    assert parts[DELEGATE_AT + 16] == Delegate(shadow)[16] && parts[DELEGATE_AT + 17] == Delegate(shadow)[17];
    FragmentIs(parts, 44, JUMPI);
  }

  lemma RevertParts(parts: seq<Part>, shadow: Address20)
    requires |parts| == PARTS && Holds(parts, DELEGATE_AT, Delegate(shadow))
    ensures Singles(parts, 45, [RETURNDATASIZE, Push([0])]) && IsSingle(parts, 47, REVERT)
  {
    var block := Delegate(shadow);
    assert parts[DELEGATE_AT + 18] == block[18] && parts[DELEGATE_AT + 19] == block[19] && parts[DELEGATE_AT + 20] == block[20];
    FragmentIs(parts, 45, RETURNDATASIZE);
    FragmentIs(parts, 46, Push([0]));
    FragmentIs(parts, 47, REVERT);
  }

  lemma ReturnParts(parts: seq<Part>, shadow: Address20)
    requires |parts| == PARTS && Holds(parts, DELEGATE_AT, Delegate(shadow))
    ensures Singles(parts, 48, [Op(JUMPDEST, []), RETURNDATASIZE, Push([0])]) && IsSingle(parts, 51, RETURN)
  {
    var block := Delegate(shadow);
    assert parts[DELEGATE_AT + 21] == block[21] && parts[DELEGATE_AT + 22] == block[22];
    assert parts[DELEGATE_AT + 23] == block[23] && parts[DELEGATE_AT + 24] == block[24];
    LabelIs(parts, 48, "ok");
    FragmentIs(parts, 49, RETURNDATASIZE);
    FragmentIs(parts, 50, Push([0]));
    FragmentIs(parts, 51, RETURN);
  }

  function LastStates(held: Hex, m: Hex, out: Hex): seq<Evm> {
    [Evm([held], m, out, Nothing), Evm([SizeOf(out), held], m, out, Nothing), Evm([NOUGHT, SizeOf(out), held], m, out, Nothing)]
  }

  lemma LastLeads(c: Context, held: Hex, m: Hex, out: Hex)
    ensures Leads(Machine(c), [RETURNDATASIZE, Push([0])], LastStates(held, m, out))
    ensures Machine(c)(Op(JUMPDEST, []), Evm([held], m, out, Nothing)) == Go(Evm([held], m, out, Nothing))
  {
    var states := LastStates(held, m, out);
    ReturnedStep(c, states[0], states[1]);
    PushStep(c, states[1], [0], states[2]);
    DoLabel(c, states[0]);
  }

  lemma RevertsOn(parts: seq<Part>, c: Context, shadow: Address20, held: Hex, m: Hex, out: Hex)
    requires |parts| == PARTS && Holds(parts, DELEGATE_AT, Delegate(shadow))
    requires |out| % 2 == 0 && Fits(|out| / 2, 64) && Read(m, 0, |out|) == out
    ensures Ends(parts, Machine(c), 45, Evm([held], m, out, Nothing), Evm([NOUGHT, SizeOf(out), held], m, out, Reverted(out)))
  {
    var u := Evm([NOUGHT, SizeOf(out), held], m, out, Nothing);
    RevertParts(parts, shadow);
    LastLeads(c, held, m, out);
    SinglesReach(parts, Machine(c), 45, [RETURNDATASIZE, Push([0])], LastStates(held, m, out));
    ReturnStep(c, u, held, out);
    PartEnds(parts, Machine(c), 47, u, u.(result := Reverted(out)));
    ThenEnds(parts, Machine(c), 45, Evm([held], m, out, Nothing), 47, u, u.(result := Reverted(out)));
  }

  lemma ReturnsOn(parts: seq<Part>, c: Context, shadow: Address20, held: Hex, m: Hex, out: Hex)
    requires |parts| == PARTS && Holds(parts, DELEGATE_AT, Delegate(shadow))
    requires |out| % 2 == 0 && Fits(|out| / 2, 64) && Read(m, 0, |out|) == out
    ensures Ends(parts, Machine(c), OK_AT, Evm([held], m, out, Nothing), Evm([NOUGHT, SizeOf(out), held], m, out, Returned(out)))
  {
    var s, u := Evm([held], m, out, Nothing), Evm([NOUGHT, SizeOf(out), held], m, out, Nothing);
    ReturnParts(parts, shadow);
    LastLeads(c, held, m, out);
    SinglesReach(parts, Machine(c), 48, [Op(JUMPDEST, []), RETURNDATASIZE, Push([0])], [s] + LastStates(held, m, out));
    ReturnStep(c, u, held, out);
    PartEnds(parts, Machine(c), 51, u, u.(result := Returned(out)));
    ThenEnds(parts, Machine(c), 48, s, 51, u, u.(result := Returned(out)));
  }

  /** The jump to `ok`, taken if the call succeeded. */
  lemma OkJumps(parts: seq<Part>, c: Context, shadow: Address20, ok: Hex, held: Hex, m: Hex, out: Hex)
    requires Assembles(parts) && |parts| == PARTS && Holds(parts, DELEGATE_AT, Delegate(shadow)) && parts[OK_AT] == Label("ok")
    ensures Reaches(parts, Machine(c), 43, Evm([ok, held], m, out, Nothing), if ok == ZERO then 45 else OK_AT, Evm([held], m, out, Nothing))
  {
    var a := Start(parts, OK_AT);
    var s, t, u := Evm([ok, held], m, out, Nothing), Evm([Pushes(AddressOp(a).data), ok, held], m, out, Nothing), Evm([held], m, out, Nothing);
    OkParts(parts, shadow);
    JumpIs(parts, 43, "ok", OK_AT);
    assert Machine(c)(AddressOp(a), s) == Go(t) by {
      assert [Pushes(AddressOp(a).data)] + s.stack == t.stack;
    }
    PartGoes(parts, Machine(c), 43, s, t);
    BranchEnd(parts, c, 44, OK_AT, t, u, held, ok, a, if ok == ZERO then 45 else OK_AT);
    ThenReaches(parts, Machine(c), 43, s, 44, t, if ok == ZERO then 45 else OK_AT, u);
  }

  /** From the label `delegate` the call goes to the original code, and its answer comes back as it was given. */
  lemma Delegates(parts: seq<Part>, c: Context, shadow: Address20, held: Hex) returns (end: Evm)
    requires Assembles(parts) && |parts| == PARTS && Holds(parts, DELEGATE_AT, Delegate(shadow)) && parts[OK_AT] == Label("ok")
    requires Callable(c)
    ensures Ends(parts, Machine(c), DELEGATE_AT, Holding(held, []), end)
    ensures end.result == if Original(c, shadow).0 then Returned(Original(c, shadow).1) else Reverted(Original(c, shadow).1)
  {
    var out := Original(c, shadow).1;
    var ok := if Original(c, shadow).0 then ONE else ZERO;
    OneIsNotZero();
    end := DelegatesAs(parts, c, shadow, held, ok, out);
  }

  lemma DelegatesAs(parts: seq<Part>, c: Context, shadow: Address20, held: Hex, ok: Hex, out: Hex) returns (end: Evm)
    requires Assembles(parts) && |parts| == PARTS && Holds(parts, DELEGATE_AT, Delegate(shadow)) && parts[OK_AT] == Label("ok")
    requires Callable(c) && Original(c, shadow) == (ok == ONE, out) && (ok == ONE || ok == ZERO) && ONE != ZERO
    requires |out| % 2 == 0 && Fits(|out| / 2, 64)
    ensures Ends(parts, Machine(c), DELEGATE_AT, Holding(held, []), end)
    ensures end.result == if ok == ONE then Returned(out) else Reverted(out)
  {
    var exec, s0, s1 := Machine(c), Holding(held, []), Holding(held, c.calldata);
    var s2 := Evm([NOUGHT, SizeOf(c.calldata), NOUGHT, NOUGHT, held], c.calldata, [], Nothing);
    var s3, m := Evm([ok, held], c.calldata, out, Nothing), Write(c.calldata, 0, out);
    var s4, s5 := Evm([ok, held], m, out, Nothing), Evm([held], m, out, Nothing);
    CopiesCalldata(parts, c, shadow, held);
    PushesArguments(parts, c, shadow, held, c.calldata);
    CallsOriginal(parts, c, shadow, held, ok, out);
    CopiesBack(parts, c, shadow, ok, held, c.calldata, out);
    OkJumps(parts, c, shadow, ok, held, m, out);
    if ok == ZERO {
      RevertsOn(parts, c, shadow, held, m, out);
      end := Evm([NOUGHT, SizeOf(out), held], m, out, Reverted(out));
    } else {
      ReturnsOn(parts, c, shadow, held, m, out);
      end := Evm([NOUGHT, SizeOf(out), held], m, out, Returned(out));
    }
    var after := if ok == ZERO then 45 else OK_AT;
    ChainOfFive(parts, exec, DELEGATE_AT, s0, DELEGATE_AT + 5, s1, DELEGATE_AT + 9, s2, DELEGATE_AT + 12, s3, DELEGATE_AT + 16, s4,
                after, s5, end);
  }

  lemma ChainOfFive<S>(parts: seq<Part>, exec: Exec<S>, k0: nat, s0: S, k1: nat, s1: S, k2: nat, s2: S, k3: nat, s3: S,
                       k4: nat, s4: S, k5: nat, s5: S, end: S)
    requires k0 <= |parts| && k1 <= |parts| && k2 <= |parts| && k3 <= |parts| && k4 <= |parts| && k5 <= |parts|
    requires Reaches(parts, exec, k0, s0, k1, s1) && Reaches(parts, exec, k1, s1, k2, s2) && Reaches(parts, exec, k2, s2, k3, s3)
    requires Reaches(parts, exec, k3, s3, k4, s4) && Reaches(parts, exec, k4, s4, k5, s5) && Ends(parts, exec, k5, s5, end)
    ensures Ends(parts, exec, k0, s0, end)
  {
    ThenEnds(parts, exec, k4, s4, k5, s5, end);
    ThenEnds(parts, exec, k3, s3, k4, s4, end);
    ThenEnds(parts, exec, k2, s2, k3, s3, end);
    ThenEnds(parts, exec, k1, s1, k2, s2, end);
    ThenEnds(parts, exec, k0, s0, k1, s1, end);
  }

  // ---- words stored and returned ---------------------------------------------------------------------------

  lemma StoreParses(at: Byte)
    ensures Parse(Store(at).bytes, 0) == [Push([at]), MSTORE]
  {
    FragmentIsClean([Push([at]), MSTORE]);
  }

  lemma StoreStep(c: Context, at: Byte, word: Hex, held: Hex, m: Hex, t: Evm, u: Evm)
    requires |word| == 64 && |m| == 2 * at && t == Evm([Pushes([at]), word, held], m, [], Nothing) && u == Holding(held, m + word)
    ensures Machine(c)(MSTORE, t) == Go(u)
  {
    ByteWord(at);
    assert t.stack == [Pushes([at]), word] + [held];
    WriteAtEnd(m, word);
  }

  /** A store puts a word at the end of memory. */
  lemma Stores(parts: seq<Part>, c: Context, k: nat, at: Byte, word: Hex, held: Hex, m: Hex)
    requires k < |parts| && parts[k] == Store(at) && |word| == 64 && |m| == 2 * at
    ensures Reaches(parts, Machine(c), k, Evm([word, held], m, [], Nothing), k + 1, Holding(held, m + word))
  {
    var exec, s, t, u := Machine(c), Evm([word, held], m, [], Nothing), Evm([Pushes([at]), word, held], m, [], Nothing), Holding(held, m + word);
    StoreParses(at);
    PushStep(c, s, [at], t);
    StoreStep(c, at, word, held, m, t, u);
    StraightTwo(exec, Push([at]), MSTORE, s, t, u);
    FragmentReaches(parts, exec, k, [Push([at]), MSTORE], s, u);
  }

  lemma WriteAtEnd(m: Hex, word: Hex)
    ensures Write(m, |m|, word) == m + word
  {
    var e := Extended(m, |m| + |word|);
    assert e[..|m|] == m && e[|m| + |word|..] == [];
  }

  lemma StraightTwo<S>(exec: Exec<S>, a: Op, b: Op, s: S, t: S, u: S)
    requires exec(a, s) == Go(t) && exec(b, t) == Go(u)
    ensures Straight(exec, [a, b], s) == Some(u)
  {
    assert [a, b][1..] == [b] && [b][1..] == [];
    assert Straight(exec, [b], t) == Straight(exec, [], u);
  }

  /** A word is pushed and put at the end of memory. */
  lemma WordStored(parts: seq<Part>, c: Context, k: nat, op: Op, at: Byte, word: Hex, held: Hex, m: Hex)
    requires k + 1 < |parts| && IsSingle(parts, k, op) && parts[k + 1] == Store(at) && |word| == 64 && |m| == 2 * at
    requires Machine(c)(op, Holding(held, m)) == Go(Evm([word, held], m, [], Nothing))
    ensures Reaches(parts, Machine(c), k, Holding(held, m), k + 2, Holding(held, m + word))
  {
    PartGoes(parts, Machine(c), k, Holding(held, m), Evm([word, held], m, [], Nothing));
    Stores(parts, c, k + 1, at, word, held, m);
    ThenReaches(parts, Machine(c), k, Holding(held, m), k + 1, Evm([word, held], m, [], Nothing), k + 2, Holding(held, m + word));
  }

  lemma ReturnAllStep(c: Context, s: Evm, size: Byte, held: Hex, m: Hex)
    requires s == Evm([NOUGHT, Pushes([size]), held], m, [], Nothing) && |m| == 2 * size
    ensures Machine(c)(RETURN, s) == Halt(s.(result := Returned(m)))
  {
    NoughtIsZero();
    ByteWord(size);
    ReadAll(m);
    assert s.stack == [NOUGHT, Pushes([size])] + [held];
    DoReturn(c, s, NOUGHT, Pushes([size]), [held]);
  }

  lemma TwoThenHalt(parts: seq<Part>, exec: Exec<Evm>, k: nat, ops: seq<Op>, s: Evm, t: Evm, u: Evm, v: Evm)
    requires k < |parts| && parts[k].Code? && Parse(parts[k].bytes, 0) == ops && |ops| == 3
    requires exec(ops[0], s) == Go(t) && exec(ops[1], t) == Go(u) && exec(ops[2], u) == Halt(v)
    ensures Ends(parts, exec, k, s, v)
  {
    StraightTwo(exec, ops[0], ops[1], s, t, u);
    assert ops[..2] == [ops[0], ops[1]];
    FragmentEnds(parts, exec, k, ops, s, u, v);
  }

  lemma ReturnFragment(size: Byte)
    ensures Parse(Fragment([Push([size]), Push([0]), RETURN]).bytes, 0) == [Push([size]), Push([0]), RETURN]
  {
    FragmentIsClean([Push([size]), Push([0]), RETURN]);
  }

  /** A fragment that returns all of memory. */
  lemma ReturnsMemory(parts: seq<Part>, c: Context, k: nat, size: Byte, held: Hex, m: Hex)
    requires k < |parts| && parts[k] == Fragment([Push([size]), Push([0]), RETURN]) && |m| == 2 * size
    ensures Ends(parts, Machine(c), k, Holding(held, m), Evm([NOUGHT, Pushes([size]), held], m, [], Returned(m)))
  {
    var t, u := Evm([Pushes([size]), held], m, [], Nothing), Evm([NOUGHT, Pushes([size]), held], m, [], Nothing);
    ReturnFragment(size);
    PushStep(c, Holding(held, m), [size], t);
    PushStep(c, t, [0], u);
    ReturnAllStep(c, u, size, held, m);
    TwoThenHalt(parts, Machine(c), k, [Push([size]), Push([0]), RETURN], Holding(held, m), t, u, u.(result := Returned(m)));
  }

  // ---- the price answers ---------------------------------------------------------------------------------

  /** Five words: round, answer, two times and the round again. */
  function RoundAnswer(c: Context, answer: Word, round: Word): Hex {
    HexOf(round) + HexOf(answer) + c.time + c.time + HexOf(round)
  }

  lemma WordPushes(w: Word)
    ensures |HexOf(w)| == 64 && Pushes(w) == HexOf(w)
  {
    HexSize(w);
  }

  /** The parts from the label `round`, after the label. */
  lemma RoundParts(parts: seq<Part>, answer: Word, round: Word)
    requires |parts| == PARTS && Holds(parts, ROUND_AT, RoundData(answer, round))
    ensures IsSingle(parts, 52, Op(JUMPDEST, []))
    ensures IsSingle(parts, 53, Push(round)) && parts[54] == Store(0x00) && IsSingle(parts, 55, Push(answer)) && parts[56] == Store(0x20)
    ensures IsSingle(parts, 57, TIMESTAMP) && parts[58] == Store(0x40) && IsSingle(parts, 59, TIMESTAMP) && parts[60] == Store(0x60)
    ensures IsSingle(parts, 61, Push(round)) && parts[62] == Store(0x80)
    ensures parts[63] == Fragment([Push([0xa0]), Push([0]), RETURN])
  {
    var block := RoundData(answer, round);
    assert parts[52 + 0] == block[0] && parts[52 + 1] == block[1] && parts[52 + 2] == block[2] && parts[52 + 3] == block[3];
    assert parts[52 + 4] == block[4] && parts[52 + 5] == block[5] && parts[52 + 6] == block[6] && parts[52 + 7] == block[7];
    assert parts[52 + 8] == block[8] && parts[52 + 9] == block[9] && parts[52 + 10] == block[10] && parts[52 + 11] == block[11];
    LabelIs(parts, 52, "round");
    FragmentIs(parts, 53, Push(round));
    FragmentIs(parts, 55, Push(answer));
    FragmentIs(parts, 57, TIMESTAMP);
    FragmentIs(parts, 59, TIMESTAMP);
    FragmentIs(parts, 61, Push(round));
  }

  lemma PushesWord(c: Context, w: Word, held: Hex, m: Hex)
    ensures Machine(c)(Push(w), Holding(held, m)) == Go(Evm([HexOf(w), held], m, [], Nothing))
  {
    WordPushes(w);
    PushStep(c, Holding(held, m), w, Evm([HexOf(w), held], m, [], Nothing));
  }

  lemma PushesTime(c: Context, held: Hex, m: Hex)
    ensures Machine(c)(TIMESTAMP, Holding(held, m)) == Go(Evm([c.time, held], m, [], Nothing))
  {
    assert [c.time] + [held] == [c.time, held];
  }

  lemma LabelPasses(parts: seq<Part>, c: Context, k: nat, held: Hex, m: Hex)
    requires k < |parts| && IsSingle(parts, k, Op(JUMPDEST, []))
    ensures Reaches(parts, Machine(c), k, Holding(held, m), k + 1, Holding(held, m))
  {
    DoLabel(c, Holding(held, m));
    PartGoes(parts, Machine(c), k, Holding(held, m), Holding(held, m));
  }

  lemma WordIsStored(parts: seq<Part>, c: Context, k: nat, w: Word, at: Byte, held: Hex, m: Hex)
    requires k + 1 < |parts| && IsSingle(parts, k, Push(w)) && parts[k + 1] == Store(at) && |m| == 2 * at
    ensures |HexOf(w)| == 64
    ensures Reaches(parts, Machine(c), k, Holding(held, m), k + 2, Holding(held, m + HexOf(w)))
  {
    WordPushes(w);
    PushesWord(c, w, held, m);
    WordStored(parts, c, k, Push(w), at, HexOf(w), held, m);
  }

  lemma TimeIsStored(parts: seq<Part>, c: Context, k: nat, at: Byte, held: Hex, m: Hex)
    requires k + 1 < |parts| && IsSingle(parts, k, TIMESTAMP) && parts[k + 1] == Store(at) && |m| == 2 * at && |c.time| == 64
    ensures Reaches(parts, Machine(c), k, Holding(held, m), k + 2, Holding(held, m + c.time))
  {
    PushesTime(c, held, m);
    WordStored(parts, c, k, TIMESTAMP, at, c.time, held, m);
  }

  lemma RoundBegins(parts: seq<Part>, c: Context, answer: Word, round: Word, held: Hex)
    requires |parts| == PARTS && Holds(parts, ROUND_AT, RoundData(answer, round))
    ensures |HexOf(round)| == |HexOf(answer)| == 64
    ensures Reaches(parts, Machine(c), 52, Holding(held, []), 57, Holding(held, HexOf(round) + HexOf(answer)))
  {
    var r := HexOf(round);
    RoundParts(parts, answer, round);
    LabelPasses(parts, c, 52, held, []);
    WordIsStored(parts, c, 53, round, 0x00, held, []);
    ReachesWord(parts, c, 53, 55, held, r);
    WordIsStored(parts, c, 55, answer, 0x20, held, r);
    ThenReaches(parts, Machine(c), 52, Holding(held, []), 53, Holding(held, []), 55, Holding(held, r));
    ThenReaches(parts, Machine(c), 52, Holding(held, []), 55, Holding(held, r), 57, Holding(held, r + HexOf(answer)));
  }

  lemma RoundGoesOn(parts: seq<Part>, c: Context, answer: Word, round: Word, held: Hex, m: Hex)
    requires |parts| == PARTS && Holds(parts, ROUND_AT, RoundData(answer, round)) && |m| == 128 && |c.time| == 64
    ensures Reaches(parts, Machine(c), 57, Holding(held, m), 63, Holding(held, m + c.time + c.time + HexOf(round)))
  {
    RoundParts(parts, answer, round);
    TimeIsStored(parts, c, 57, 0x40, held, m);
    TimeIsStored(parts, c, 59, 0x60, held, m + c.time);
    WordIsStored(parts, c, 61, round, 0x80, held, m + c.time + c.time);
    ThenReaches(parts, Machine(c), 57, Holding(held, m), 59, Holding(held, m + c.time), 61, Holding(held, m + c.time + c.time));
    ThenReaches(parts, Machine(c), 57, Holding(held, m), 61, Holding(held, m + c.time + c.time),
                63, Holding(held, m + c.time + c.time + HexOf(round)));
  }

  /** From the label `round` the five words are returned. */
  lemma AnswersRound(parts: seq<Part>, c: Context, answer: Word, round: Word, held: Hex) returns (end: Evm)
    requires |parts| == PARTS && Holds(parts, ROUND_AT, RoundData(answer, round)) && Callable(c)
    ensures Ends(parts, Machine(c), ROUND_AT, Holding(held, []), end) && end.result == Returned(RoundAnswer(c, answer, round))
  {
    RoundBegins(parts, c, answer, round, held);
    var front, m := HexOf(round) + HexOf(answer), RoundAnswer(c, answer, round);
    RoundGoesOn(parts, c, answer, round, held, front);
    RoundParts(parts, answer, round);
    ReturnsMemory(parts, c, 63, 0xa0, held, m);
    end := Evm([NOUGHT, Pushes([0xa0]), held], m, [], Returned(m));
    ThenEnds(parts, Machine(c), 57, Holding(held, front), 63, Holding(held, m), end);
    ThenEnds(parts, Machine(c), 52, Holding(held, []), 57, Holding(held, front), end);
  }

  /** A label, a word pushed, stored and returned. */
  lemma AnswersWord(parts: seq<Part>, c: Context, k: nat, op: Op, word: Hex, held: Hex) returns (end: Evm)
    requires k + 3 < |parts| && IsSingle(parts, k, Op(JUMPDEST, [])) && IsSingle(parts, k + 1, op)
    requires parts[k + 2] == Store(0) && parts[k + 3] == RETURN_WORD && |word| == 64
    requires Machine(c)(op, Holding(held, [])) == Go(Evm([word, held], [], [], Nothing))
    ensures Ends(parts, Machine(c), k, Holding(held, []), end) && end.result == Returned(word)
  {
    LabelPasses(parts, c, k, held, []);
    WordStored(parts, c, k + 1, op, 0, word, held, []);
    ReachesWord(parts, c, k + 1, k + 3, held, word);
    ReturnsMemory(parts, c, k + 3, 0x20, held, word);
    end := Evm([NOUGHT, Pushes([0x20]), held], word, [], Returned(word));
    ThenEnds(parts, Machine(c), k + 1, Holding(held, []), k + 3, Holding(held, word), end);
    ThenEnds(parts, Machine(c), k, Holding(held, []), k + 1, Holding(held, []), end);
  }

  lemma ReachesWord(parts: seq<Part>, c: Context, j: nat, k: nat, held: Hex, word: Hex)
    requires j <= |parts| && k <= |parts| && Reaches(parts, Machine(c), j, Holding(held, []), k, Holding(held, [] + word))
    ensures Reaches(parts, Machine(c), j, Holding(held, []), k, Holding(held, word))
  {
    assert [] + word == word;
  }

  lemma AnswerParts(parts: seq<Part>, answer: Word, round: Word)
    requires |parts| == PARTS && Holds(parts, ANSWER_AT, Answers(answer, round))
    ensures IsSingle(parts, 72, Op(JUMPDEST, [])) && IsSingle(parts, 73, Push(answer)) && parts[74] == Store(0) && parts[75] == RETURN_WORD
    ensures IsSingle(parts, 76, Op(JUMPDEST, [])) && IsSingle(parts, 77, TIMESTAMP) && parts[78] == Store(0) && parts[79] == RETURN_WORD
    ensures IsSingle(parts, 80, Op(JUMPDEST, [])) && IsSingle(parts, 81, Push(round)) && parts[82] == Store(0) && parts[83] == RETURN_WORD
  {
    var block := Answers(answer, round);
    assert parts[72 + 0] == block[0] && parts[72 + 1] == block[1] && parts[72 + 2] == block[2] && parts[72 + 3] == block[3];
    assert parts[72 + 4] == block[4] && parts[72 + 5] == block[5] && parts[72 + 6] == block[6] && parts[72 + 7] == block[7];
    assert parts[72 + 8] == block[8] && parts[72 + 9] == block[9] && parts[72 + 10] == block[10] && parts[72 + 11] == block[11];
    LabelIs(parts, 72, "answer");
    LabelIs(parts, 76, "time");
    LabelIs(parts, 80, "id");
    FragmentIs(parts, 73, Push(answer));
    FragmentIs(parts, 77, TIMESTAMP);
    FragmentIs(parts, 81, Push(round));
  }
}
