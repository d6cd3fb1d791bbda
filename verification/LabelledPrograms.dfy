/** Assembled code runs as the labelled program it was written from. */
module LabelledPrograms {
  import opened Options
  import opened Bytecode
  import opened Assemblers

  /** An instruction of the labelled program: one of the fragments', a label, or a label's address pushed. */
  datatype Item = Plain(op: Op) | Mark(name: string) | PushAddress(name: string)

  function PlainItems(ops: seq<Op>): (items: seq<Item>)
    ensures |items| == |ops| && forall i | 0 <= i < |ops| :: items[i] == Plain(ops[i])
  {
    seq(|ops|, i requires 0 <= i < |ops| => Plain(ops[i]))
  }

  function ItemsOf(p: Part): seq<Item> {
    match p
    case Code(bytes) => PlainItems(Parse(bytes, 0))
    case Label(name) => [Mark(name)]
    case Jump(name) => [PushAddress(name)]
  }

  function ItemLists(parts: seq<Part>): (lists: seq<seq<Item>>)
    ensures |lists| == |parts|
  {
    seq(|parts|, k requires 0 <= k < |parts| => ItemsOf(parts[k]))
  }

  /** The items of the first `n` parts. */
  function Items(parts: seq<Part>, n: nat): seq<Item>
    requires n <= |parts|
  {
    Concat(ItemLists(parts), n)
  }

  /** The instruction an item is assembled to. */
  function Lower(parts: seq<Part>, item: Item): Op {
    match item
    case Plain(op) => op
    case Mark(_) => Op(JUMPDEST, [])
    case PushAddress(name) => var a := AddressFor(parts, Jump(name)); Op(PUSH2, [a / 256 % 256, a % 256])
  }

  function LowerAll(parts: seq<Part>, items: seq<Item>): (ops: seq<Op>)
    ensures |ops| == |items| && forall i | 0 <= i < |items| :: ops[i] == Lower(parts, items[i])
  {
    seq(|items|, i requires 0 <= i < |items| => Lower(parts, items[i]))
  }

  /** No instruction of a fragment is a JUMPDEST. */
  predicate NoLanding(bytes: Bytes) {
    forall i | 0 <= i < |Parse(bytes, 0)| :: Parse(bytes, 0)[i].opcode != JUMPDEST
  }

  /**
   * What the assembler may be given: distinct labels, jumps to labels there are, fragments of whole
   * instructions (the last may trail off in data), and an output that four hex digits can address.
   */
  ghost predicate Assembles(parts: seq<Part>) {
    && (forall j, k | 0 <= j < k < |parts| && parts[j].Label? && parts[k].Label? :: parts[j].name != parts[k].name)
    && Resolved(parts)
    && (forall k | 0 <= k < |parts| - 1 && parts[k].Code? :: Whole(parts[k].bytes, 0))
    && Start(parts, |parts|) <= 0x1_0000
  }

  /** The only landing places are labels: no fragment has one of its own. */
  ghost predicate LandsOnLabels(parts: seq<Part>) {
    forall k | 0 <= k < |parts| && parts[k].Code? :: NoLanding(parts[k].bytes)
  }

  // ---- the instructions of the code -----------------------------------------------------------------

  lemma EmittedParses(parts: seq<Part>, k: nat)
    requires k < |parts|
    ensures Parse(Emitted(parts, k), 0) == LowerAll(parts, ItemsOf(parts[k]))
    ensures parts[k].Code? || Whole(Emitted(parts, k), 0)
    ensures Pos(LowerAll(parts, ItemsOf(parts[k])), |ItemsOf(parts[k])|) == Size(parts[k])
  {
    var code := Emitted(parts, k);
    ReadsAt(code, 0, |Parse(code, 0)|);
    match parts[k]
    case Code(bytes) =>
      assert LowerAll(parts, PlainItems(Parse(bytes, 0))) == Parse(bytes, 0);
    case Label(_) => assert code[1..1] == [];
    case Jump(_) =>
      assert OpAt(code, 0) == Op(PUSH2, code[1..3]) && code[1..3] == [code[1], code[2]];
      assert Parse(code, 0) == [OpAt(code, 0)] + Parse(code, 3);
  }

  /** The instructions each part is assembled to. */
  function OpLists(parts: seq<Part>): (lists: seq<seq<Op>>)
    ensures |lists| == |parts|
  {
    seq(|parts|, k requires 0 <= k < |parts| => LowerAll(parts, ItemsOf(parts[k])))
  }

  function Instructions(parts: seq<Part>): seq<Op> {
    Concat(OpLists(parts), |parts|)
  }

  lemma {:induction false} LowerConcat(parts: seq<Part>, lists: seq<seq<Item>>, lowered: seq<seq<Op>>, n: nat)
    requires n <= |lists| == |lowered| && forall k | 0 <= k < |lists| :: lowered[k] == LowerAll(parts, lists[k])
    ensures LowerAll(parts, Concat(lists, n)) == Concat(lowered, n)
  {
    if n > 0 {
      LowerConcat(parts, lists, lowered, n - 1);
    }
  }

  /** The first `n` parts' instructions are their items, one for one. */
  lemma InstructionsAre(parts: seq<Part>, n: nat)
    requires n <= |parts|
    ensures LowerAll(parts, Items(parts, n)) == Concat(OpLists(parts), n)
  {
    LowerConcat(parts, ItemLists(parts), OpLists(parts), n);
  }

  /** The code's instructions are the program's items, one for one. */
  lemma CodeParses(parts: seq<Part>)
    requires Assembles(parts)
    ensures Parse(ByteCode(parts, |parts|), 0) == Instructions(parts)
    ensures Instructions(parts) == LowerAll(parts, Items(parts, |parts|))
  {
    forall k | 0 <= k < |parts| ensures Parse(Pieces(parts)[k], 0) == OpLists(parts)[k] {
      EmittedParses(parts, k);
    }
    forall k | 0 <= k < |parts| - 1 ensures Whole(Pieces(parts)[k], 0) {
      EmittedParses(parts, k);
    }
    PiecesParse(Pieces(parts), OpLists(parts), |parts|);
    InstructionsAre(parts, |parts|);
  }

  // ---- where the items are --------------------------------------------------------------------------

  lemma ItemsAt(parts: seq<Part>, k: nat)
    requires k < |parts| && !parts[k].Code?
    ensures |Items(parts, k)| < |Items(parts, |parts|)|
    ensures Items(parts, |parts|)[|Items(parts, k)|] == if parts[k].Label? then Mark(parts[k].name) else PushAddress(parts[k].name)
  {
    ConcatGrows(ItemLists(parts), k + 1, |parts|);
    assert ItemLists(parts)[k] == ItemsOf(parts[k]);
    assert Items(parts, k + 1)[|Items(parts, k)|] == ItemsOf(parts[k])[0];
  }

  function Sizes(parts: seq<Part>): (sizes: seq<nat>)
    ensures |sizes| == |parts|
  {
    seq(|parts|, k requires 0 <= k < |parts| => Size(parts[k]))
  }

  lemma {:induction false} StartIs(parts: seq<Part>, k: nat)
    requires k <= |parts|
    ensures Start(parts, k) == Total(Sizes(parts), k)
  {
    if k > 0 {
      StartIs(parts, k - 1);
    }
  }

  /** The item a part begins with is assembled where the part starts. */
  lemma PartLands(parts: seq<Part>, k: nat)
    requires k <= |parts|
    ensures |Items(parts, k)| <= |Instructions(parts)|
    ensures Pos(Instructions(parts), |Items(parts, k)|) == Start(parts, k)
  {
    var lists := OpLists(parts);
    forall j | 0 <= j < |parts| ensures Pos(lists[j], |lists[j]|) == Sizes(parts)[j] {
      EmittedParses(parts, j);
    }
    PieceLandsIn(lists, Sizes(parts), k);
    StartIs(parts, k);
    InstructionsAre(parts, k);
  }

  // ---- jumps and landings -----------------------------------------------------------------------------

  /** A label that stands at an address. */
  ghost predicate LabelAt(parts: seq<Part>, k: nat, d: nat) {
    k < |parts| && parts[k].Label? && Start(parts, k) == d
  }

  /** A JUMPDEST item is a label's. */
  lemma {:induction false} MarkIsLabel(parts: seq<Part>, n: nat, i: nat) returns (k: nat)
    requires LandsOnLabels(parts) && n <= |parts| && i < |Items(parts, n)|
    requires Lower(parts, Items(parts, n)[i]).opcode == JUMPDEST
    ensures k < n && parts[k].Label? && i == |Items(parts, k)|
  {
    var before := Items(parts, n - 1);
    if i < |before| {
      k := MarkIsLabel(parts, n - 1, i);
    } else {
      k := n - 1;
      assert Items(parts, n)[i] == ItemsOf(parts[k])[i - |before|];
    }
  }

  /** A jump may land on every label. */
  lemma LabelsAreLandings(parts: seq<Part>, k: nat)
    requires Assembles(parts) && k < |parts| && parts[k].Label?
    ensures Start(parts, k) in Landings(ByteCode(parts, |parts|), 0)
  {
    var code, ops := ByteCode(parts, |parts|), Instructions(parts);
    CodeParses(parts);
    LandsOn(code, 0, Start(parts, k));
    PartLands(parts, k);
    ItemsAt(parts, k);
    assert ops[|Items(parts, k)|].opcode == JUMPDEST;
  }

  /** And nowhere else, unless a fragment has a JUMPDEST of its own. */
  lemma LandingsAreLabels(parts: seq<Part>, d: nat)
    requires Assembles(parts) && LandsOnLabels(parts)
    ensures d in Landings(ByteCode(parts, |parts|), 0) <==> exists k: nat :: LabelAt(parts, k, d)
  {
    var code, ops := ByteCode(parts, |parts|), Instructions(parts);
    CodeParses(parts);
    LandsOn(code, 0, d);
    if i :| 0 <= i < |ops| && Pos(ops, i) == d && ops[i].opcode == JUMPDEST {
      var k := MarkIsLabel(parts, |parts|, i);
      PartLands(parts, k);
      assert LabelAt(parts, k, d);
    }
    if k: nat :| LabelAt(parts, k, d) {
      LabelsAreLandings(parts, k);
    }
  }

  lemma {:induction false} PiecesAt(pieces: seq<Bytes>, n: nat, k: nat)
    requires k < n <= |pieces|
    ensures |Concat(pieces, k)| + |pieces[k]| <= |Concat(pieces, n)|
    ensures Concat(pieces, n)[|Concat(pieces, k)|..|Concat(pieces, k)| + |pieces[k]|] == pieces[k]
  {
    ConcatGrows(pieces, k + 1, n);
  }

  lemma PartPlaced(parts: seq<Part>, k: nat)
    requires k < |parts|
    ensures var code := ByteCode(parts, |parts|);
            Start(parts, k) + |Emitted(parts, k)| <= |code|
            && code[Start(parts, k)..Start(parts, k) + |Emitted(parts, k)|] == Emitted(parts, k)
  {
    PiecesAt(Pieces(parts), |parts|, k);
    CodeSize(parts, k);
    assert Pieces(parts)[k] == Emitted(parts, k);
  }

  lemma LabelPlaced(parts: seq<Part>, k: nat)
    requires Assembles(parts) && k < |parts| && parts[k].Label?
    ensures var code, a := ByteCode(parts, |parts|), Start(parts, k);
            a < |code| && code[a] == JUMPDEST && a in Landings(code, 0)
  {
    var code, a := ByteCode(parts, |parts|), Start(parts, k);
    PartPlaced(parts, k);
    assert code[a] == code[a..a + 1][0];
    LabelsAreLandings(parts, k);
  }

  lemma JumpPlaced(parts: seq<Part>, j: nat, a: nat)
    requires j < |parts| && parts[j].Jump? && AddressFor(parts, parts[j]) == a < 0x1_0000
    ensures var code, at := ByteCode(parts, |parts|), Start(parts, j);
            at + 3 <= |code| && code[at] == PUSH2 && (code[at + 1] as nat) * 256 + code[at + 2] as nat == a
  {
    var code, at := ByteCode(parts, |parts|), Start(parts, j);
    PartPlaced(parts, j);
    var three := code[at..at + 3];
    assert three == [PUSH2, a / 256 % 256, a % 256];
    assert code[at] == three[0] && code[at + 1] == three[1] && code[at + 2] == three[2];
  }

  /** Each jump is a PUSH2 of the place its label's JUMPDEST stands, where an instruction begins and a jump may land. */
  lemma JumpHoldsItsLabel(parts: seq<Part>, j: nat) returns (k: nat)
    requires Assembles(parts) && j < |parts| && parts[j].Jump?
    ensures k < |parts| && parts[k] == Label(parts[j].name)
    ensures var code, at, a := ByteCode(parts, |parts|), Start(parts, j), Start(parts, k);
            && at + 3 <= |code| && code[at] == PUSH2 && (code[at + 1] as nat) * 256 + code[at + 2] as nat == a
            && a < |code| && code[a] == JUMPDEST && a in Landings(code, 0)
  {
    assert Resolves(parts, j);
    k := AddressIs(parts, parts[j].name, |parts|);
    AddressFits(parts, j);
    JumpPlaced(parts, j, Start(parts, k));
    LabelPlaced(parts, k);
  }
}
