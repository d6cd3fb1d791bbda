/** Runs of a labelled program, a part at a time. */
module PartRuns {
  import opened Options
  import opened HexNumbers
  import opened Bytecode
  import opened Assemblers
  import opened LabelledPrograms
  import opened Simulations

  type Exec<!S> = (Op, S) -> Effect<S>

  /** The run from the start of one part gets to the start of another. */
  ghost predicate Reaches<S>(parts: seq<Part>, exec: Exec<S>, j: nat, s: S, k: nat, t: S)
    requires j <= |parts| && k <= |parts|
  {
    exists n: nat :: Labels(parts, exec, At(|Items(parts, j)|, s), n) == At(|Items(parts, k)|, t)
  }

  /** The run from the start of one part stops. */
  ghost predicate Ends<S>(parts: seq<Part>, exec: Exec<S>, j: nat, s: S, t: S)
    requires j <= |parts|
  {
    exists n: nat :: Labels(parts, exec, At(|Items(parts, j)|, s), n) == Done(t)
  }

  lemma {:induction false} LabelsJoin<S>(parts: seq<Part>, exec: Exec<S>, r: Running<S>, m: nat, n: nat)
    ensures Labels(parts, exec, Labels(parts, exec, r, m), n) == Labels(parts, exec, r, m + n)
  {
    if n > 0 {
      LabelsJoin(parts, exec, r, m, n - 1);
    }
  }

  lemma ThenReaches<S>(parts: seq<Part>, exec: Exec<S>, i: nat, s: S, j: nat, t: S, k: nat, u: S)
    requires i <= |parts| && j <= |parts| && k <= |parts|
    requires Reaches(parts, exec, i, s, j, t) && Reaches(parts, exec, j, t, k, u)
    ensures Reaches(parts, exec, i, s, k, u)
  {
    var m: nat :| Labels(parts, exec, At(|Items(parts, i)|, s), m) == At(|Items(parts, j)|, t);
    var n: nat :| Labels(parts, exec, At(|Items(parts, j)|, t), n) == At(|Items(parts, k)|, u);
    LabelsJoin(parts, exec, At(|Items(parts, i)|, s), m, n);
  }

  lemma ThenEnds<S>(parts: seq<Part>, exec: Exec<S>, i: nat, s: S, j: nat, t: S, u: S)
    requires i <= |parts| && j <= |parts|
    requires Reaches(parts, exec, i, s, j, t) && Ends(parts, exec, j, t, u)
    ensures Ends(parts, exec, i, s, u)
  {
    var m: nat :| Labels(parts, exec, At(|Items(parts, i)|, s), m) == At(|Items(parts, j)|, t);
    var n: nat :| Labels(parts, exec, At(|Items(parts, j)|, t), n) == Done(u);
    LabelsJoin(parts, exec, At(|Items(parts, i)|, s), m, n);
  }

  /** Where instructions that all go on lead, one after another. */
  function Straight<S>(exec: Exec<S>, ops: seq<Op>, s: S): Option<S> {
    if ops == [] then Some(s)
    else
      match exec(ops[0], s)
      case Go(t) => Straight(exec, ops[1..], t)
      case _ => None
  }

  lemma ItemAt(parts: seq<Part>, k: nat, i: nat)
    requires k < |parts| && i < |ItemsOf(parts[k])|
    ensures |Items(parts, k)| + i < |Items(parts, |parts|)|
    ensures Items(parts, |parts|)[|Items(parts, k)| + i] == ItemsOf(parts[k])[i]
    ensures |Items(parts, k + 1)| == |Items(parts, k)| + |ItemsOf(parts[k])|
  {
    ItemListIs(parts, k);
    ConcatAt(ItemLists(parts), k, i);
  }

  lemma ItemListIs(parts: seq<Part>, k: nat)
    requires k < |parts|
    ensures ItemLists(parts)[k] == ItemsOf(parts[k])
  {}

  /** A fragment's instructions run in order. */
  lemma {:induction false} FragmentRuns<S>(parts: seq<Part>, exec: Exec<S>, k: nat, ops: seq<Op>, i: nat, m: nat, s: S, t: S)
    requires k < |parts| && parts[k].Code? && Parse(parts[k].bytes, 0) == ops && i <= m <= |ops|
    requires Straight(exec, ops[i..m], s) == Some(t)
    ensures Labels(parts, exec, At(|Items(parts, k)| + i, s), m - i) == At(|Items(parts, k)| + m, t)
    decreases m - i
  {
    if i < m {
      ItemAt(parts, k, i);
      assert ops[i..m][1..] == ops[i + 1..m] && ops[i..m][0] == ops[i];
      var next := exec(ops[i], s);
      FragmentRuns(parts, exec, k, ops, i + 1, m, next.s, t);
      var here := At(|Items(parts, k)| + i, s);
      assert Labels(parts, exec, here, 1) == NextItem(parts, exec, Labels(parts, exec, here, 0));
      LabelsJoin(parts, exec, here, 1, m - i - 1);
    }
  }

  lemma FragmentReaches<S>(parts: seq<Part>, exec: Exec<S>, k: nat, ops: seq<Op>, s: S, t: S)
    requires k < |parts| && parts[k].Code? && Parse(parts[k].bytes, 0) == ops && ops != []
    requires Straight(exec, ops, s) == Some(t)
    ensures Reaches(parts, exec, k, s, k + 1, t)
  {
    assert ops[0..|ops|] == ops;
    FragmentRuns(parts, exec, k, ops, 0, |ops|, s, t);
    ItemAt(parts, k, 0);
  }

  /** A fragment whose last instruction stops. */
  lemma FragmentEnds<S>(parts: seq<Part>, exec: Exec<S>, k: nat, ops: seq<Op>, s: S, t: S, u: S)
    requires k < |parts| && parts[k].Code? && Parse(parts[k].bytes, 0) == ops && ops != []
    requires Straight(exec, ops[..|ops| - 1], s) == Some(t) && exec(ops[|ops| - 1], t) == Halt(u)
    ensures Ends(parts, exec, k, s, u)
  {
    var last := |ops| - 1;
    assert ops[0..last] == ops[..last];
    FragmentRuns(parts, exec, k, ops, 0, last, s, t);
    ItemAt(parts, k, last);
    var start, there := At(|Items(parts, k)|, s), At(|Items(parts, k)| + last, t);
    assert Labels(parts, exec, there, 1) == NextItem(parts, exec, Labels(parts, exec, there, 0));
    LabelsJoin(parts, exec, start, last, 1);
  }

  /** The step from the `i`th instruction of a part, once those before it have gone on. */
  lemma OneStep<S>(parts: seq<Part>, exec: Exec<S>, k: nat, s: S)
    requires k < |parts| && |ItemsOf(parts[k])| == 1
    ensures Labels(parts, exec, At(|Items(parts, k)|, s), 1) ==
            match exec(Lower(parts, ItemsOf(parts[k])[0]), s)
            case Go(t) => At(|Items(parts, k + 1)|, t)
            case Land(d, t) => var i := Labelled(parts, d, |parts|); if i.Some? then At(i.value, t) else Fault
            case Halt(t) => Done(t)
  {
    ItemAt(parts, k, 0);
    var here := At(|Items(parts, k)|, s);
    assert Labels(parts, exec, here, 0) == here;
  }

  /** One instruction, label or pushed address that goes on. */
  lemma PartGoes<S>(parts: seq<Part>, exec: Exec<S>, k: nat, s: S, t: S)
    requires k < |parts| && |ItemsOf(parts[k])| == 1 && exec(Lower(parts, ItemsOf(parts[k])[0]), s) == Go(t)
    ensures Reaches(parts, exec, k, s, k + 1, t)
  {
    OneStep(parts, exec, k, s);
  }

  /** One instruction that jumps to the address of a label. */
  lemma PartLandsOn<S>(parts: seq<Part>, exec: Exec<S>, k: nat, m: nat, s: S, t: S)
    requires Assembles(parts) && k < |parts| && m < |parts| && parts[m].Label? && |ItemsOf(parts[k])| == 1
    requires exec(Lower(parts, ItemsOf(parts[k])[0]), s) == Land(Start(parts, m), t)
    ensures Reaches(parts, exec, k, s, m, t)
  {
    OneStep(parts, exec, k, s);
    assert LabelAt(parts, m, Start(parts, m));
    LabelledAll(parts, Start(parts, m), |parts|, m);
    var i := LabelledIs(parts, Start(parts, m), |parts|);
    SameStart(parts, i, m);
  }

  /** Labels take a byte each, so no two start together. */
  lemma SameStart(parts: seq<Part>, i: nat, m: nat)
    requires i < |parts| && m < |parts| && parts[i].Label? && parts[m].Label? && Start(parts, i) == Start(parts, m)
    ensures i == m
  {
    if i < m {
      LabelsApart(parts, i, m);
    } else if m < i {
      LabelsApart(parts, m, i);
    }
  }

  lemma LabelsApart(parts: seq<Part>, i: nat, m: nat)
    requires i < m < |parts| && parts[i].Label?
    ensures Start(parts, i) < Start(parts, m)
  {
    StartGrows(parts, i + 1, m);
  }

  lemma PartEnds<S>(parts: seq<Part>, exec: Exec<S>, k: nat, s: S, t: S)
    requires k < |parts| && |ItemsOf(parts[k])| == 1 && exec(Lower(parts, ItemsOf(parts[k])[0]), s) == Halt(t)
    ensures Ends(parts, exec, k, s, t)
  {
    OneStep(parts, exec, k, s);
  }

  /** The one instruction a part is assembled to. */
  function Single(parts: seq<Part>, k: nat): Op
    requires k < |parts| && |ItemsOf(parts[k])| == 1
  {
    Lower(parts, ItemsOf(parts[k])[0])
  }

  /** Parts from `k` on are these single instructions. */
  ghost predicate Singles(parts: seq<Part>, k: nat, ops: seq<Op>) {
    k + |ops| <= |parts| && forall i | 0 <= i < |ops| :: IsSingle(parts, k + i, ops[i])
  }

  predicate IsSingle(parts: seq<Part>, k: nat, op: Op)
    requires k < |parts|
  {
    |ItemsOf(parts[k])| == 1 && Single(parts, k) == op
  }

  /** Instructions each of which goes on, from machine to machine. */
  ghost predicate Leads<S>(exec: Exec<S>, ops: seq<Op>, states: seq<S>) {
    |states| == |ops| + 1 && forall i | 0 <= i < |ops| :: exec(ops[i], states[i]) == Go(states[i + 1])
  }

  /** Parts of one instruction each, run in order through a list of machines. */
  lemma {:induction false} SinglesReach<S>(parts: seq<Part>, exec: Exec<S>, k: nat, ops: seq<Op>, states: seq<S>)
    requires Singles(parts, k, ops) && Leads(exec, ops, states)
    ensures Reaches(parts, exec, k, states[0], k + |ops|, states[|ops|])
    decreases |ops|
  {
    if ops == [] {
      Stays(parts, exec, k, states[0]);
    } else {
      var last := |ops| - 1;
      FrontLeads(parts, exec, k, ops, states, last);
      SinglesReach(parts, exec, k, ops[..last], states[..|ops|]);
      PartGoes(parts, exec, k + last, states[last], states[last + 1]);
      ThenReaches(parts, exec, k, states[0], k + last, states[last], k + last + 1, states[last + 1]);
    }
  }

  lemma FrontLeads<S>(parts: seq<Part>, exec: Exec<S>, k: nat, ops: seq<Op>, states: seq<S>, last: nat)
    requires Singles(parts, k, ops) && Leads(exec, ops, states) && |ops| == last + 1
    ensures Singles(parts, k, ops[..last]) && Leads(exec, ops[..last], states[..|ops|])
    ensures IsSingle(parts, k + last, ops[last]) && exec(ops[last], states[last]) == Go(states[last + 1])
  {
    assert exec(ops[last], states[last]) == Go(states[last + 1]);
  }

  /** The same from the first machine of the list to the last. */
  lemma SinglesLead<S>(parts: seq<Part>, exec: Exec<S>, k: nat, ops: seq<Op>, states: seq<S>, s: S, n: nat, t: S)
    requires Singles(parts, k, ops) && Leads(exec, ops, states)
    requires s == states[0] && t == states[|ops|] && n == k + |ops|
    ensures Reaches(parts, exec, k, s, n, t)
  {
    SinglesReach(parts, exec, k, ops, states);
  }

  lemma Stays<S>(parts: seq<Part>, exec: Exec<S>, k: nat, s: S)
    requires k <= |parts|
    ensures Reaches(parts, exec, k, s, k, s)
  {
    assert Labels(parts, exec, At(|Items(parts, k)|, s), 0) == At(|Items(parts, k)|, s);
  }
}
