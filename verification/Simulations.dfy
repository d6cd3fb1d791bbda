/**
 * A run of the bytecode is a run of the labelled program, whatever the instructions do to the machine:
 * their meaning is a parameter, save that none may ask where it stands.
 */
module Simulations {
  import opened Options
  import opened Bytecode
  import opened Assemblers
  import opened LabelledPrograms

  /** What one instruction does: go on, jump somewhere, or stop. */
  datatype Effect<S> = Go(s: S) | Land(d: nat, s: S) | Halt(s: S)

  /** A run that is at some place, has stopped, or has jumped where it may not. */
  datatype Running<S> = At(place: nat, s: S) | Done(s: S) | Fault

  /** The bytecode's next step; running off the end stops. */
  function NextByte<S>(code: Bytes, exec: (Op, S) -> Effect<S>, r: Running<S>): Running<S> {
    if !r.At? then r
    else if r.place >= |code| then Done(r.s)
    else
      var op := OpAt(code, r.place);
      AfterByte(code, r.place, op, exec(op, r.s))
  }

  /** Where an instruction's effect leads: past it, to where it jumps if code may be entered there, or nowhere further. */
  function AfterByte<S>(code: Bytes, place: nat, op: Op, effect: Effect<S>): Running<S> {
    match effect
    case Go(s) => At(place + op.Size(), s)
    case Land(d, s) => if d in Landings(code, 0) then At(d, s) else Fault
    case Halt(s) => Done(s)
  }

  /** The item of the label that stands at an address. */
  function Labelled(parts: seq<Part>, d: nat, n: nat): Option<nat>
    requires n <= |parts|
  {
    if n == 0 then None
    else if parts[n - 1].Label? && Start(parts, n - 1) == d then Some(|Items(parts, n - 1)|)
    else Labelled(parts, d, n - 1)
  }

  /** The labelled program's next step: a jump goes to a label, or nowhere. */
  function NextItem<S>(parts: seq<Part>, exec: (Op, S) -> Effect<S>, r: Running<S>): Running<S> {
    var items := Items(parts, |parts|);
    if !r.At? then r
    else if r.place >= |items| then Done(r.s)
    else
      AfterItem(parts, r.place, exec(Lower(parts, items[r.place]), r.s))
  }

  function AfterItem<S>(parts: seq<Part>, place: nat, effect: Effect<S>): Running<S> {
    match effect
    case Go(s) => At(place + 1, s)
    case Land(d, s) => var i := Labelled(parts, d, |parts|); if i.Some? then At(i.value, s) else Fault
    case Halt(s) => Done(s)
  }

  function Bytes<S>(code: Bytes, exec: (Op, S) -> Effect<S>, r: Running<S>, n: nat): Running<S> {
    if n == 0 then r else NextByte(code, exec, Bytes(code, exec, r, n - 1))
  }

  function Labels<S>(parts: seq<Part>, exec: (Op, S) -> Effect<S>, r: Running<S>, n: nat): Running<S> {
    if n == 0 then r else NextItem(parts, exec, Labels(parts, exec, r, n - 1))
  }

  /**
   * The two runs are in one place, with one machine. A program that jumped where there is no label is
   * answered for only if its labels are its only landing places.
   */
  ghost predicate Together<S>(ops: seq<Op>, onlyLabels: bool, l: Running<S>, b: Running<S>) {
    match l
    case At(i, s) => i <= |ops| && b == At(Pos(ops, i), s)
    case Done(s) => b == Done(s)
    case Fault => onlyLabels ==> b == Fault
  }

  lemma {:induction false} LabelledIs(parts: seq<Part>, d: nat, n: nat) returns (k: nat)
    requires n <= |parts| && Labelled(parts, d, n).Some?
    ensures k < n && LabelAt(parts, k, d) && Labelled(parts, d, n) == Some(|Items(parts, k)|)
  {
    if parts[n - 1].Label? && Start(parts, n - 1) == d {
      k := n - 1;
    } else {
      k := LabelledIs(parts, d, n - 1);
    }
  }

  lemma {:induction false} LabelledAll(parts: seq<Part>, d: nat, n: nat, k: nat)
    requires k < n <= |parts| && LabelAt(parts, k, d)
    ensures Labelled(parts, d, n).Some?
  {
    if k < n - 1 {
      LabelledAll(parts, d, n - 1, k);
    }
  }

  /** A jump lands together; one to no label lands nowhere in both, if only labels are landing places. */
  lemma LandTogether<S>(parts: seq<Part>, d: nat, s: S)
    requires Assembles(parts)
    ensures var i := Labelled(parts, d, |parts|);
            Together(Instructions(parts), LandsOnLabels(parts), if i.Some? then At(i.value, s) else Fault,
                     if d in Landings(ByteCode(parts, |parts|), 0) then At(d, s) else Fault)
  {
    if Labelled(parts, d, |parts|).Some? {
      var k := LabelledIs(parts, d, |parts|);
      PartLands(parts, k);
      LabelsAreLandings(parts, k);
    } else if LandsOnLabels(parts) {
      LandingsAreLabels(parts, d);
      if k: nat :| LabelAt(parts, k, d) {
        LabelledAll(parts, d, |parts|, k);
      }
    }
  }

  /** One instruction, read where the item was assembled to. */
  lemma ReadTogether(parts: seq<Part>, i: nat)
    requires Assembles(parts) && i <= |Instructions(parts)|
    ensures |Items(parts, |parts|)| == |Instructions(parts)|
    ensures var code, at := ByteCode(parts, |parts|), Pos(Instructions(parts), i);
            if i == |Instructions(parts)| then at >= |code|
            else
              at < |code| && OpAt(code, at) == Lower(parts, Items(parts, |parts|)[i])
              && Pos(Instructions(parts), i + 1) == at + OpAt(code, at).Size()
  {
    CodeParses(parts);
    ReadIn(ByteCode(parts, |parts|), Instructions(parts), i, Pos(Instructions(parts), i));
    if i < |Instructions(parts)| {
      LoweredAt(parts, Items(parts, |parts|), i);
    }
  }

  lemma ReadIn(code: Bytes, ops: seq<Op>, i: nat, at: nat)
    requires Parse(code, 0) == ops && i <= |ops| && at == Pos(ops, i)
    ensures if i == |ops| then at >= |code|
            else at < |code| && OpAt(code, at) == ops[i] && Pos(ops, i + 1) == at + ops[i].Size()
  {
    ReadsAt(code, 0, i);
  }

  lemma LoweredAt(parts: seq<Part>, items: seq<Item>, i: nat)
    requires i < |items|
    ensures |LowerAll(parts, items)| == |items| && LowerAll(parts, items)[i] == Lower(parts, items[i])
  {}

  lemma StepTogether<S>(parts: seq<Part>, only: bool, exec: (Op, S) -> Effect<S>, l: Running<S>, b: Running<S>)
    requires Assembles(parts) && only == LandsOnLabels(parts) && Together(Instructions(parts), only, l, b)
    ensures Together(Instructions(parts), only, NextItem(parts, exec, l), NextByte(ByteCode(parts, |parts|), exec, b))
  {
    if l.At? {
      AtTogether(parts, only, exec, l.place, l.s, Pos(Instructions(parts), l.place));
    }
  }

  lemma AtTogether<S>(parts: seq<Part>, only: bool, exec: (Op, S) -> Effect<S>, i: nat, s: S, at: nat)
    requires Assembles(parts) && only == LandsOnLabels(parts)
    requires i <= |Instructions(parts)| && at == Pos(Instructions(parts), i)
    ensures Together(Instructions(parts), only, NextItem(parts, exec, At(i, s)), NextByte(ByteCode(parts, |parts|), exec, At(at, s)))
  {
    ReadTogether(parts, i);
    if i < |Instructions(parts)| {
      var op := OpAt(ByteCode(parts, |parts|), at);
      EffectTogether(parts, only, i, at, op, exec(op, s));
    }
  }

  lemma EffectTogether<S>(parts: seq<Part>, only: bool, i: nat, at: nat, op: Op, effect: Effect<S>)
    requires Assembles(parts) && only == LandsOnLabels(parts)
    requires i < |Instructions(parts)| && Pos(Instructions(parts), i + 1) == at + op.Size()
    ensures Together(Instructions(parts), only, AfterItem(parts, i, effect), AfterByte(ByteCode(parts, |parts|), at, op, effect))
  {
    if effect.Land? {
      LandTogether(parts, effect.d, effect.s);
    }
  }

  /**
   * The assembler preserves meaning: for every part list it may be given, step for step, the bytecode
   * does what the labelled program does and stops where it stops; and it faults where the program
   * faults, unless a fragment has landing places of its own.
   */
  lemma {:induction false} CodeRunsAsWritten<S>(parts: seq<Part>, exec: (Op, S) -> Effect<S>, s: S, n: nat)
    requires Assembles(parts)
    ensures Together(Instructions(parts), LandsOnLabels(parts), Labels(parts, exec, At(0, s), n),
                     Bytes(ByteCode(parts, |parts|), exec, At(0, s), n))
  {
    if n == 0 {
      assert Pos(Instructions(parts), 0) == 0;
    } else {
      CodeRunsAsWritten(parts, exec, s, n - 1);
      StepTogether(parts, LandsOnLabels(parts), exec, Labels(parts, exec, At(0, s), n - 1),
                   Bytes(ByteCode(parts, |parts|), exec, At(0, s), n - 1));
    }
  }
}
