/**
 * As much of the EVM as the oracle code uses. Words are sixty-four hex digits, memory and data are
 * hex digits two to the byte; the top of the stack is first.
 */
module Evms {
  import opened Options
  import opened HexNumbers
  import opened Abi
  import opened Bytecode
  import opened Assemblers
  import opened Simulations

  datatype Result = Nothing | Returned(data: Hex) | Reverted(data: Hex) | Failed

  datatype Evm = Evm(stack: seq<Hex>, memory: Hex, returned: Hex, result: Result)

  /** What a call is made with; `delegate` is what running some code with some calldata on this storage answers. */
  datatype Context = Context(calldata: Hex, time: Hex, gas: Hex, delegate: (Hex, Hex) -> (bool, Hex))

  const ONE: Hex := Zeros(63) + [1]
  const ZERO: Hex := Zeros(64)

  function Extended(m: Hex, size: nat): Hex { if |m| >= size then m else m + Zeros(size - |m|) }

  /** Memory and calldata read as zeros past their end. */
  function Read(m: Hex, at: nat, size: nat): (r: Hex)
    ensures |r| == size
  {
    Extended(m, at + size)[at..at + size]
  }

  function Write(m: Hex, at: nat, data: Hex): Hex {
    var e := Extended(m, at + |data|);
    e[..at] + data + e[at + |data|..]
  }

  /** SHR; the oracle shifts by whole digits. */
  function Shifted(word: Hex, bits: nat): Option<Hex> {
    if bits % 4 != 0 || |word| != 64 then None
    else if bits >= 256 then Some(ZERO)
    else Some(Zeros(bits / 4) + word[..64 - bits / 4])
  }

  function Halted(s: Evm, result: Result): Effect<Evm> { Halt(s.(result := result)) }

  function Pushed(s: Evm, n: nat, word: Hex): Effect<Evm>
    requires n <= |s.stack|
  {
    Go(s.(stack := [word] + s.stack[n..]))
  }

  /** What each instruction takes off the stack. */
  function Takes(opcode: Byte): nat {
    if opcode == 0xf4 then 6
    else if opcode == 0x37 || opcode == 0x3e then 3
    else if opcode in {0x14, 0x1c, 0x52, 0x57, 0xf3, 0xfd} then 2
    else if opcode in {0x35, 0x56, 0x80} then 1
    else 0
  }

  function SizeOf(h: Hex): Hex { Uint(|h| / 2) }

  function Delegated(c: Context, s: Evm): Effect<Evm>
    requires |s.stack| >= 6
  {
    var to, from, size, into, room := s.stack[1], ToNat(s.stack[2]), ToNat(s.stack[3]), ToNat(s.stack[4]), ToNat(s.stack[5]);
    var (ok, out) := c.delegate(Slice(to, 24, 64), Read(s.memory, 2 * from, 2 * size));
    var copied := Slice(out, 0, 2 * room);
    Go(s.(stack := [if ok then ONE else ZERO] + s.stack[6..], memory := Write(s.memory, 2 * into, copied), returned := out))
  }

  function Step(c: Context, op: Op, s: Evm): Effect<Evm> {
    var n := Takes(op.opcode);
    if |s.stack| < n then Halted(s, Failed)
    else if 0x60 <= op.opcode <= 0x7f then Pushed(s, 0, PadStart(HexOf(op.data), 64))
    else
      match op.opcode
      case 0x00 => Halted(s, Returned([]))
      case 0x14 => Pushed(s, 2, if s.stack[0] == s.stack[1] then ONE else ZERO)
      case 0x1c =>
        var shifted := Shifted(s.stack[1], ToNat(s.stack[0]));
        if shifted.Some? then Pushed(s, 2, shifted.value) else Halted(s, Failed)
      case 0x35 => Pushed(s, 1, Read(c.calldata, 2 * ToNat(s.stack[0]), 64))
      case 0x36 => Pushed(s, 0, SizeOf(c.calldata))
      case 0x37 =>
        var data := Read(c.calldata, 2 * ToNat(s.stack[1]), 2 * ToNat(s.stack[2]));
        Go(s.(stack := s.stack[3..], memory := Write(s.memory, 2 * ToNat(s.stack[0]), data)))
      case 0x3d => Pushed(s, 0, SizeOf(s.returned))
      case 0x3e =>
        var from, size := 2 * ToNat(s.stack[1]), 2 * ToNat(s.stack[2]);
        if from + size > |s.returned| then Halted(s, Failed)
        else Go(s.(stack := s.stack[3..], memory := Write(s.memory, 2 * ToNat(s.stack[0]), s.returned[from..from + size])))
      case 0x42 => Pushed(s, 0, c.time)
      case 0x52 => Go(s.(stack := s.stack[2..], memory := Write(s.memory, 2 * ToNat(s.stack[0]), s.stack[1])))
      case 0x56 => Land(ToNat(s.stack[0]), s.(stack := s.stack[1..]))
      case 0x57 =>
        var rest := s.(stack := s.stack[2..]);
        if s.stack[1] == ZERO then Go(rest) else Land(ToNat(s.stack[0]), rest)
      case 0x5a => Pushed(s, 0, c.gas)
      case 0x5b => Go(s)
      case 0x80 => Pushed(s, 0, s.stack[0])
      case 0xf3 => Halted(s, Returned(Read(s.memory, 2 * ToNat(s.stack[0]), 2 * ToNat(s.stack[1]))))
      case 0xf4 => Delegated(c, s)
      case 0xfd => Halted(s, Reverted(Read(s.memory, 2 * ToNat(s.stack[0]), 2 * ToNat(s.stack[1]))))
      case _ => Halted(s, Failed)
  }

  function Machine(c: Context): (Op, Evm) -> Effect<Evm> {
    (op: Op, s: Evm) => Step(c, op, s)
  }
}
