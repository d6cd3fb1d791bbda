/** EVM code as bytes: where its instructions begin, and where a jump may land (section 9.4.3 of the Ethereum Yellow Paper). */
module Bytecode {
  type Byte = n: nat | n < 256
  type Bytes = seq<Byte>

  const JUMPDEST: Byte := 0x5b
  const PUSH2: Byte := 0x61

  /** An instruction with the bytes it carries; at the very end some of them may be missing. */
  datatype Op = Op(opcode: Byte, data: Bytes)
  {
    function Size(): nat { 1 + |data| }
  }

  /** PUSH1 to PUSH32 carry one byte to thirty-two. */
  function Carried(opcode: Byte): nat {
    if 0x60 <= opcode <= 0x7f then opcode - 0x5f else 0
  }

  /** Where the instruction at a position ends. */
  function Cut(code: Bytes, at: nat): (n: nat)
    requires at < |code|
    ensures at < n <= |code|
  {
    if at + 1 + Carried(code[at]) <= |code| then at + 1 + Carried(code[at]) else |code|
  }

  /** The instruction read at a position. */
  function OpAt(code: Bytes, at: nat): Op
    requires at < |code|
  {
    Op(code[at], code[at + 1..Cut(code, at)])
  }

  /** The instructions from a position on, one after another. */
  function Parse(code: Bytes, from: nat): seq<Op>
    decreases |code| - from
  {
    if from >= |code| then [] else [OpAt(code, from)] + Parse(code, Cut(code, from))
  }

  /** From a position on the code is whole instructions. */
  predicate Whole(code: Bytes, from: nat)
    decreases |code| - from
  {
    from >= |code| || (from + 1 + Carried(code[from]) <= |code| && Whole(code, Cut(code, from)))
  }

  /** Where instruction `i` begins, counted from the first. */
  function Pos(ops: seq<Op>, i: nat): nat
    requires i <= |ops|
  {
    if i == 0 then 0 else Pos(ops, i - 1) + ops[i - 1].Size()
  }

  lemma {:induction false} PosOfFirst(op: Op, ops: seq<Op>, i: nat)
    requires i <= |ops|
    ensures Pos([op] + ops, i + 1) == op.Size() + Pos(ops, i)
  {
    if i > 0 {
      PosOfFirst(op, ops, i - 1);
      assert ([op] + ops)[i] == ops[i - 1];
    }
  }

  lemma {:induction false} PosOfPrefix(a: seq<Op>, b: seq<Op>, i: nat)
    requires i <= |a|
    ensures Pos(a + b, i) == Pos(a, i)
  {
    if i > 0 {
      PosOfPrefix(a, b, i - 1);
      assert (a + b)[i - 1] == a[i - 1];
    }
  }

  lemma {:induction false} PosJoins(a: seq<Op>, b: seq<Op>, i: nat)
    requires i <= |b|
    ensures Pos(a + b, |a| + i) == Pos(a, |a|) + Pos(b, i)
  {
    if i == 0 {
      PosOfPrefix(a, b, |a|);
    } else {
      PosJoins(a, b, i - 1);
      assert (a + b)[|a| + i - 1] == b[i - 1];
    }
  }

  lemma {:induction false} PosGrows(ops: seq<Op>, i: nat, j: nat)
    requires i < j <= |ops|
    ensures Pos(ops, i) < Pos(ops, j)
  {
    if i < j - 1 {
      PosGrows(ops, i, j - 1);
    }
  }

  /** Reading at an instruction's position gives that instruction, and the last ends where the code does. */
  lemma {:induction false} ReadsAt(code: Bytes, from: nat, i: nat)
    requires from <= |code| && i <= |Parse(code, from)|
    ensures from + Pos(Parse(code, from), i) <= |code|
    ensures i == |Parse(code, from)| <==> from + Pos(Parse(code, from), i) == |code|
    ensures i < |Parse(code, from)| ==> OpAt(code, from + Pos(Parse(code, from), i)) == Parse(code, from)[i]
    decreases i
  {
    if i > 0 {
      var next := Cut(code, from);
      ReadsAt(code, next, i - 1);
      PosOfFirst(OpAt(code, from), Parse(code, next), i - 1);
    }
  }

  /** Whole instructions read the same whatever follows them. */
  lemma {:induction false} ParseJoins(a: Bytes, b: Bytes, from: nat)
    requires from <= |a| && Whole(a, from)
    ensures Parse(a + b, from) == Parse(a, from) + Parse(b, 0)
    decreases |a| - from
  {
    if from == |a| {
      ParseShifts(a, b, 0);
    } else {
      var next := Cut(a, from);
      assert (a + b)[from] == a[from] && Cut(a + b, from) == next;
      assert (a + b)[from + 1..next] == a[from + 1..next];
      ParseJoins(a, b, next);
    }
  }

  lemma CutShifts(a: Bytes, b: Bytes, from: nat)
    requires from < |b|
    ensures Cut(a + b, |a| + from) == |a| + Cut(b, from) && OpAt(a + b, |a| + from) == OpAt(b, from)
  {
    assert (a + b)[|a| + from] == b[from];
    assert (a + b)[|a| + from + 1..|a| + Cut(b, from)] == b[from + 1..Cut(b, from)];
  }

  lemma {:induction false} ParseShifts(a: Bytes, b: Bytes, from: nat)
    requires from <= |b|
    ensures Parse(a + b, |a| + from) == Parse(b, from)
    decreases |b| - from
  {
    if from < |b| {
      CutShifts(a, b, from);
      ParseShifts(a, b, Cut(b, from));
    }
  }

  lemma {:induction false} WholeJoins(a: Bytes, b: Bytes, from: nat)
    requires from <= |a| && Whole(a, from) && Whole(b, 0)
    ensures Whole(a + b, from)
    decreases |a| - from
  {
    if from == |a| {
      WholeShifts(a, b, 0);
    } else {
      assert (a + b)[from] == a[from] && Cut(a + b, from) == Cut(a, from);
      WholeJoins(a, b, Cut(a, from));
    }
  }

  lemma {:induction false} WholeShifts(a: Bytes, b: Bytes, from: nat)
    requires from <= |b| && Whole(b, from)
    ensures Whole(a + b, |a| + from)
    decreases |b| - from
  {
    if from < |b| {
      assert (a + b)[|a| + from] == b[from] && Cut(a + b, |a| + from) == |a| + Cut(b, from);
      WholeShifts(a, b, Cut(b, from));
    }
  }

  // ---- instructions written out ----------------------------------------------------------------------

  /** The bytes of some instructions. */
  function CodeOf(ops: seq<Op>): Bytes {
    if ops == [] then [] else [ops[0].opcode] + ops[0].data + CodeOf(ops[1..])
  }

  /** Each instruction carries what its opcode says. */
  predicate Complete(ops: seq<Op>) {
    forall i | 0 <= i < |ops| :: |ops[i].data| == Carried(ops[i].opcode)
  }

  lemma OneParses(op: Op)
    requires |op.data| == Carried(op.opcode)
    ensures var code := [op.opcode] + op.data; Parse(code, 0) == [op] && Whole(code, 0)
  {
    var code := [op.opcode] + op.data;
    assert code[1..|code|] == op.data;
    assert Parse(code, 0) == [OpAt(code, 0)] + Parse(code, |code|);
  }

  lemma PutInFront(op: Op, code: Bytes, ops: seq<Op>)
    requires |op.data| == Carried(op.opcode) && Parse(code, 0) == ops && Whole(code, 0)
    ensures var more := [op.opcode] + op.data + code; Parse(more, 0) == [op] + ops && Whole(more, 0)
  {
    OneParses(op);
    ParseJoins([op.opcode] + op.data, code, 0);
    WholeJoins([op.opcode] + op.data, code, 0);
  }

  /** Complete instructions parse back. */
  lemma {:induction false} WrittenParses(ops: seq<Op>)
    requires Complete(ops)
    ensures Parse(CodeOf(ops), 0) == ops && Whole(CodeOf(ops), 0)
  {
    if ops != [] {
      WrittenParses(ops[1..]);
      PutInFront(ops[0], CodeOf(ops[1..]), ops[1..]);
      assert [ops[0]] + ops[1..] == ops;
    }
  }

  // ---- pieces put one after another -----------------------------------------------------------------

  function Concat<T>(lists: seq<seq<T>>, n: nat): seq<T>
    requires n <= |lists|
  {
    if n == 0 then [] else Concat(lists, n - 1) + lists[n - 1]
  }

  lemma {:induction false} ConcatGrows<T>(lists: seq<seq<T>>, j: nat, k: nat)
    requires j <= k <= |lists|
    ensures Concat(lists, j) <= Concat(lists, k)
    decreases k - j
  {
    if j < k {
      ConcatGrows(lists, j, k - 1);
    }
  }

  lemma ConcatAt<T>(lists: seq<seq<T>>, k: nat, i: nat)
    requires k < |lists| && i < |lists[k]|
    ensures |Concat(lists, k)| + i < |Concat(lists, |lists|)|
    ensures Concat(lists, |lists|)[|Concat(lists, k)| + i] == lists[k][i]
    ensures |Concat(lists, k + 1)| == |Concat(lists, k)| + |lists[k]|
  {
    ConcatGrows(lists, k + 1, |lists|);
    assert Concat(lists, k + 1)[|Concat(lists, k)| + i] == lists[k][i];
  }

  lemma {:induction false} PiecesAreWhole(pieces: seq<Bytes>, n: nat)
    requires n <= |pieces| && forall k | 0 <= k < n :: Whole(pieces[k], 0)
    ensures Whole(Concat(pieces, n), 0)
  {
    if n > 0 {
      PiecesAreWhole(pieces, n - 1);
      WholeJoins(Concat(pieces, n - 1), pieces[n - 1], 0);
    }
  }

  /** Pieces of whole instructions parse one by one; the last may trail off. */
  lemma {:induction false} PiecesParse(pieces: seq<Bytes>, parsed: seq<seq<Op>>, n: nat)
    requires n <= |pieces| == |parsed| && forall k | 0 <= k < |pieces| :: Parse(pieces[k], 0) == parsed[k]
    requires forall k | 0 <= k < n - 1 :: Whole(pieces[k], 0)
    ensures Parse(Concat(pieces, n), 0) == Concat(parsed, n)
  {
    if n > 0 {
      PiecesParse(pieces, parsed, n - 1);
      PiecesAreWhole(pieces, n - 1);
      ParseJoins(Concat(pieces, n - 1), pieces[n - 1], 0);
    }
  }

  /** Where the instructions of a piece begin. */
  lemma {:induction false} PieceLands(parsed: seq<seq<Op>>, sizes: seq<nat>, k: nat)
    requires k <= |parsed| == |sizes| && forall j | 0 <= j < |parsed| :: Pos(parsed[j], |parsed[j]|) == sizes[j]
    ensures Pos(Concat(parsed, k), |Concat(parsed, k)|) == Total(sizes, k)
  {
    if k > 0 {
      PieceLands(parsed, sizes, k - 1);
      PosJoins(Concat(parsed, k - 1), parsed[k - 1], |parsed[k - 1]|);
    }
  }

  lemma PieceLandsIn(parsed: seq<seq<Op>>, sizes: seq<nat>, k: nat)
    requires k <= |parsed| == |sizes| && forall j | 0 <= j < |parsed| :: Pos(parsed[j], |parsed[j]|) == sizes[j]
    ensures |Concat(parsed, k)| <= |Concat(parsed, |parsed|)|
    ensures Pos(Concat(parsed, |parsed|), |Concat(parsed, k)|) == Total(sizes, k)
  {
    PieceLands(parsed, sizes, k);
    ConcatGrows(parsed, k, |parsed|);
    var front, all := Concat(parsed, k), Concat(parsed, |parsed|);
    var back := all[|front|..];
    assert all == front + back;
    PosOfPrefix(front, back, |front|);
  }

  function Total(sizes: seq<nat>, k: nat): nat
    requires k <= |sizes|
  {
    if k == 0 then 0 else Total(sizes, k - 1) + sizes[k - 1]
  }

  // ---- where a jump may land -----------------------------------------------------------------------

  /** The places a jump may land from a position on. */
  function Landings(code: Bytes, from: nat): set<nat>
    decreases |code| - from
  {
    if from >= |code| then {}
    else (if code[from] == JUMPDEST then {from} else {}) + Landings(code, Cut(code, from))
  }

  /** Some instruction at that place is a JUMPDEST. */
  ghost predicate Dest(ops: seq<Op>, from: nat, d: nat) {
    exists i | 0 <= i < |ops| :: from + Pos(ops, i) == d && ops[i].opcode == JUMPDEST
  }

  /** A jump may land where an instruction is a JUMPDEST and nowhere else. */
  lemma {:induction false} LandsOn(code: Bytes, from: nat, d: nat)
    requires from <= |code|
    ensures d in Landings(code, from) <==> Dest(Parse(code, from), from, d)
    decreases |code| - from
  {
    if from < |code| {
      LandsOn(code, Cut(code, from), d);
      LandsOnStep(OpAt(code, from), Parse(code, Cut(code, from)), from, d);
    }
  }

  lemma LandsOnStep(op: Op, rest: seq<Op>, from: nat, d: nat)
    ensures Dest([op] + rest, from, d) <==> (from == d && op.opcode == JUMPDEST) || Dest(rest, from + op.Size(), d)
  {
    if Dest([op] + rest, from, d) {
      LandsLater(op, rest, from, d);
    }
    if from == d && op.opcode == JUMPDEST {
      assert Pos([op] + rest, 0) == 0 && ([op] + rest)[0] == op;
    }
    if Dest(rest, from + op.Size(), d) {
      LandsEarlier(op, rest, from, d);
    }
  }

  lemma LandsLater(op: Op, rest: seq<Op>, from: nat, d: nat)
    requires Dest([op] + rest, from, d)
    ensures (from == d && op.opcode == JUMPDEST) || Dest(rest, from + op.Size(), d)
  {
    var ops := [op] + rest;
    var i :| 0 <= i < |ops| && from + Pos(ops, i) == d && ops[i].opcode == JUMPDEST;
    if i > 0 {
      PosOfFirst(op, rest, i - 1);
      assert rest[i - 1] == ops[i];
    }
  }

  lemma LandsEarlier(op: Op, rest: seq<Op>, from: nat, d: nat)
    requires Dest(rest, from + op.Size(), d)
    ensures Dest([op] + rest, from, d)
  {
    var i :| 0 <= i < |rest| && from + op.Size() + Pos(rest, i) == d && rest[i].opcode == JUMPDEST;
    PosOfFirst(op, rest, i);
    assert ([op] + rest)[i + 1] == rest[i];
  }
}
