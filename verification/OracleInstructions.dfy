/** What each instruction the oracle uses does, one at a time. */
module OracleInstructions {
  import opened Options
  import opened HexNumbers
  import opened Abi
  import opened Bytecode
  import opened Assemblers
  import opened Simulations
  import opened Evms
  import opened Oracles

  /** What a PUSH pushes. */
  function Pushes(data: Bytes): Hex { PadStart(HexOf(data), 64) }

  lemma DoDup(c: Context, s: Evm, a: Hex, rest: seq<Hex>)
    requires s.stack == [a] + rest
    ensures Step(c, DUP1, s) == Go(s.(stack := [a, a] + rest))
  {
    assert [a] + s.stack[0..] == [a, a] + rest;
  }

  lemma DoEq(c: Context, s: Evm, a: Hex, b: Hex, rest: seq<Hex>)
    requires s.stack == [a, b] + rest
    ensures Step(c, EQ, s) == Go(s.(stack := [if a == b then ONE else ZERO] + rest))
  {
    assert s.stack[2..] == rest;
  }

  lemma DoJumpI(c: Context, s: Evm, d: Hex, cond: Hex, rest: seq<Hex>)
    requires s.stack == [d, cond] + rest
    ensures Step(c, JUMPI, s) == if cond == ZERO then Go(s.(stack := rest)) else Land(ToNat(d), s.(stack := rest))
  {
    assert s.stack[2..] == rest;
  }

  lemma DoJump(c: Context, s: Evm, d: Hex, rest: seq<Hex>)
    requires s.stack == [d] + rest
    ensures Step(c, JUMP, s) == Land(ToNat(d), s.(stack := rest))
  {
    assert s.stack[1..] == rest;
  }

  lemma DoLoad(c: Context, s: Evm, at: Hex, rest: seq<Hex>)
    requires s.stack == [at] + rest
    ensures Step(c, CALLDATALOAD, s) == Go(s.(stack := [Read(c.calldata, 2 * ToNat(at), 64)] + rest))
  {
    assert s.stack[1..] == rest;
  }

  lemma StepCopies(c: Context, s: Evm, n: nat)
    requires |s.stack| >= 3 && ToNat(s.stack[0]) == 0 && ToNat(s.stack[1]) == 0 && ToNat(s.stack[2]) == n
    ensures Step(c, CALLDATACOPY, s) == Go(s.(stack := s.stack[3..], memory := Write(s.memory, 0, Read(c.calldata, 0, 2 * n))))
  {}

  lemma DoCopy(c: Context, s: Evm, into: Hex, from: Hex, size: Hex, rest: seq<Hex>, n: nat)
    requires s.stack == [into, from, size] + rest && ToNat(into) == 0 && ToNat(from) == 0
    requires ToNat(size) == n && |c.calldata| == 2 * n && s.memory == []
    ensures Step(c, CALLDATACOPY, s) == Go(s.(stack := rest, memory := c.calldata))
  {
    assert s.stack[3..] == rest;
    assert s.stack[2] == size && s.stack[1] == from && s.stack[0] == into;
    StepCopies(c, s, n);
    ReadAll(c.calldata);
  }

  lemma DoReturnedCopy(c: Context, s: Evm, into: Hex, from: Hex, size: Hex, rest: seq<Hex>, n: nat)
    requires s.stack == [into, from, size] + rest && ToNat(into) == 0 && ToNat(from) == 0
    requires ToNat(size) == n && |s.returned| == 2 * n
    ensures Step(c, RETURNDATACOPY, s) == Go(s.(stack := rest, memory := Write(s.memory, 0, s.returned)))
  {
    assert s.stack[3..] == rest;
    assert s.stack[2] == size && s.stack[1] == from && s.stack[0] == into;
    StepCopiesBack(c, s, n);
  }

  lemma StepCopiesBack(c: Context, s: Evm, n: nat)
    requires |s.stack| >= 3 && ToNat(s.stack[0]) == 0 && ToNat(s.stack[1]) == 0
    requires ToNat(s.stack[2]) == n && |s.returned| == 2 * n
    ensures Step(c, RETURNDATACOPY, s) == Go(s.(stack := s.stack[3..], memory := Write(s.memory, 0, s.returned)))
  {
    ReturnedAll(s.returned, n);
  }

  lemma ReturnedAll(h: Hex, n: nat)
    requires |h| == 2 * n
    ensures h[0..0 + 2 * n] == h
  {}

  lemma DoReturn(c: Context, s: Evm, at: Hex, size: Hex, rest: seq<Hex>)
    requires s.stack == [at, size] + rest && ToNat(at) == 0
    ensures Step(c, RETURN, s) == Halt(s.(result := Returned(Read(s.memory, 0, 2 * ToNat(size)))))
  {}

  lemma DoRevert(c: Context, s: Evm, at: Hex, size: Hex, rest: seq<Hex>)
    requires s.stack == [at, size] + rest && ToNat(at) == 0
    ensures Step(c, REVERT, s) == Halt(s.(result := Evms.Result.Reverted(Read(s.memory, 0, 2 * ToNat(size)))))
  {}

  lemma DoLabel(c: Context, s: Evm)
    ensures Step(c, Op(JUMPDEST, []), s) == Go(s)
  {}

  lemma StepDelegates(c: Context, s: Evm)
    requires |s.stack| >= 6
    ensures Step(c, DELEGATECALL, s) == Delegated(c, s)
  {
    assert DELEGATECALL.opcode == 0xf4 && Takes(0xf4) == 6;
  }

  lemma DelegatedIs(c: Context, s: Evm, callee: Hex, size: Hex, answer: (bool, Hex))
    requires |s.stack| >= 6 && s.stack[1] == callee && s.stack[3] == size
    requires ToNat(s.stack[2]) == 0 && ToNat(s.stack[4]) == 0 && ToNat(s.stack[5]) == 0
    requires answer == c.delegate(Slice(callee, 24, 64), Read(s.memory, 0, 2 * ToNat(size)))
    ensures Delegated(c, s) == Go(s.(stack := [if answer.0 then ONE else ZERO] + s.stack[6..], returned := answer.1))
  {
    assert Slice(answer.1, 0, 0) == [];
    WriteNothing(s.memory);
  }

  /** DELEGATECALL with the first `size` of memory, and no room for what comes back. */
  lemma DoDelegate(c: Context, s: Evm, gas: Hex, callee: Hex, from: Hex, size: Hex, into: Hex, room: Hex, rest: seq<Hex>,
                   answer: (bool, Hex))
    requires s.stack == [gas, callee, from, size, into, room] + rest
    requires ToNat(from) == 0 && ToNat(into) == 0 && ToNat(room) == 0
    requires answer == c.delegate(Slice(callee, 24, 64), Read(s.memory, 0, 2 * ToNat(size)))
    ensures Step(c, DELEGATECALL, s) == Go(s.(stack := [if answer.0 then ONE else ZERO] + rest, returned := answer.1))
  {
    assert s.stack[6..] == rest;
    DelegatedIs(c, s, callee, size, answer);
    StepDelegates(c, s);
  }

  lemma WriteNothing(m: Hex)
    ensures Write(m, 0, []) == m
  {}

  // ---- numbers as words ------------------------------------------------------------------------------

  lemma ByteWord(x: Byte)
    ensures ToNat(PadStart(HexOf([x]), 64)) == x
  {
    HexOfOne(x);
    ToNatOfZeros(62, [x / 16, x % 16]);
    TwoDigits(x / 16, x % 16);
  }

  lemma HexOfOne(x: Byte)
    ensures HexOf([x]) == [x / 16, x % 16]
  {
    assert [x][1..] == [] && HexOf([]) == [];
  }

  lemma TwoDigits(a: Nibble, b: Nibble)
    ensures ToNat([a, b]) == a * 16 + b
  {
    assert [a, b][..1] == [a] && [a][..0] == [];
    assert ToNat([a]) == a;
  }

  lemma SizeWord(h: Hex)
    requires |h| % 2 == 0 && Fits(|h| / 2, 64)
    ensures 2 * ToNat(SizeOf(h)) == |h|
  {
    UintIs(|h| / 2);
  }

  lemma AddressWord(a: nat)
    requires a < 0x1_0000
    ensures ToNat(PadStart(HexOf([a / 256 % 256, a % 256]), 64)) == a
  {
    var h := HexOf([a / 256 % 256, a % 256]);
    HexOfTwo(a / 256 % 256, a % 256);
    SplitAddress(a);
    FourDigits(a / 4096, a / 256 % 16, a / 16 % 16, a % 16);
    assert h == [a / 4096, a / 256 % 16, a / 16 % 16, a % 16];
    ToNatOfZeros(60, h);
  }

  lemma HexOfTwo(a: Byte, b: Byte)
    ensures HexOf([a, b]) == [a / 16, a % 16, b / 16, b % 16]
  {
    assert [a, b][1..] == [b] && [b][1..] == [];
    assert HexOf([b]) == [b / 16, b % 16];
  }

  lemma ReadAll(m: Hex)
    ensures Read(m, 0, |m|) == m && Write([], 0, m) == m
  {}
}
