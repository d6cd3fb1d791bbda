/**
 * Read-through caches under nested checkpoints (src/state-manager.ts), the recording wrapped around
 * their writes (src/environment.ts:486-524), and the EVM as a well-nested program of reads, writes
 * and frames. Each of the three caches is a stack of layers: a checkpoint opens one on each, a
 * commit folds it into the one below, a revert throws it away.
 */
module ForkStates {
  import opened Options
  import opened Overlays
  import opened Environments

  // ---- one cache --------------------------------------------------------------------------------

  type Layers<K, V> = seq<map<K, V>>

  function Look<K, V>(layers: Layers<K, V>, k: K): Option<V> {
    if layers == [] then None
    else
      var top := layers[|layers| - 1];
      if k in top then Some(top[k]) else Look(layers[..|layers| - 1], k)
  }

  function PutTop<K, V>(layers: Layers<K, V>, k: K, v: V): Layers<K, V>
    requires layers != []
  {
    layers[|layers| - 1 := layers[|layers| - 1][k := v]]
  }

  function Folded<K, V>(layers: Layers<K, V>): Layers<K, V>
    requires |layers| >= 2
  {
    layers[..|layers| - 2] + [layers[|layers| - 2] + layers[|layers| - 1]]
  }

  function Dropped<K, V>(layers: Layers<K, V>): Layers<K, V>
    requires layers != []
  {
    layers[..|layers| - 1]
  }

  lemma LookPut<K, V>(layers: Layers<K, V>, k: K, v: V, q: K)
    requires layers != []
    ensures Look(PutTop(layers, k, v), q) == if q == k then Some(v) else Look(layers, q)
  {
    assert Dropped(PutTop(layers, k, v)) == Dropped(layers);
  }

  lemma LookPush<K, V>(layers: Layers<K, V>, q: K)
    ensures Look(layers + [map[]], q) == Look(layers, q)
  {
    assert Dropped(layers + [map[]]) == layers;
  }

  lemma LookFolded<K, V>(layers: Layers<K, V>, q: K)
    requires |layers| >= 2
    ensures Look(Folded(layers), q) == Look(layers, q)
  {
    assert Dropped(Folded(layers)) == Dropped(Dropped(layers));
    assert Look(Dropped(layers), q) ==
           if q in layers[|layers| - 2] then Some(layers[|layers| - 2][q]) else Look(Dropped(Dropped(layers)), q);
  }

  // ---- the three caches -------------------------------------------------------------------------

  datatype Numbers = Numbers(balance: nat, nonce: nat)
  type SlotKey = (string, string)

  /** What the parent chain answers at the block the environment is forked from. */
  datatype Upstream = Upstream(numbers: string -> Numbers, code: string -> string, slots: SlotKey -> string)

  datatype Cmd =
    | ReadAccount(a: string)
    | ReadCode(a: string)
    | ReadSlot(k: SlotKey)
    | WriteAccount(a: string, n: Numbers)
    | WriteCode(a: string, text: string)
    | WriteSlot(k: SlotKey, word: string)
    | Frame(body: seq<Cmd>, ok: bool)

  function Digit(n: nat): char
    requires n < 16
  {
    "0123456789abcdef"[n]
  }

  /** A number as prefixed hex text. */
  function Digits(n: nat): string {
    if n < 16 then [Digit(n)] else Digits(n / 16) + [Digit(n % 16)]
  }

  function Hex(n: nat): string { "0x" + Digits(n) }

  /** What a digit of such a text stands for, and the text. */
  function DigitValue(c: char): nat {
    if '0' <= c <= '9' then c as int - '0' as int else if 'a' <= c <= 'f' then c as int - 'a' as int + 10 else 0
  }

  function ValueOf(text: string): nat {
    if text == [] then 0 else 16 * ValueOf(text[..|text| - 1]) + DigitValue(text[|text| - 1])
  }

  lemma DigitIs(n: nat)
    requires n < 16
    ensures DigitValue(Digit(n)) == n && (Digit(n) == '0' ==> n == 0)
  {
    var digits := "0123456789abcdef";
    assert forall i | 0 <= i < 10 :: digits[i] as int == '0' as int + i;
    assert forall i | 10 <= i < 16 :: digits[i] as int == 'a' as int + i - 10;
  }

  lemma ValueOfLast(front: string, c: char)
    ensures ValueOf(front + [c]) == 16 * ValueOf(front) + DigitValue(c)
  {
    assert (front + [c])[..|front|] == front;
  }

  lemma {:induction false} DigitsRead(n: nat)
    ensures ValueOf(Digits(n)) == n && Digits(n) != [] && (Digits(n)[0] == '0' ==> n == 0)
  {
    DigitIs(n % 16);
    if n < 16 {
      ValueOfLast([], Digit(n));
      assert [] + [Digit(n)] == [Digit(n)];
    } else {
      DigitsRead(n / 16);
      ValueOfLast(Digits(n / 16), Digit(n % 16));
    }
  }

  /** A balance or nonce kept as text reads back as the number it was, and the text has no leading zero. */
  lemma HexReads(n: nat)
    ensures |Hex(n)| > 2 && Hex(n)[..2] == "0x" && ValueOf(Hex(n)[2..]) == n && (Hex(n)[2] == '0' ==> n == 0)
  {
    DigitsRead(n);
    assert Hex(n)[2..] == Digits(n);
  }

  datatype Machine = Machine(accounts: Layers<string, Numbers>, storage: Layers<SlotKey, string>,
                             code: Layers<string, string>, recording: bool, env: EnvState, version: nat)
  {
    predicate Ready() {
      accounts != [] && storage != [] && code != []
    }

    /** The three caches are at the same depth, which is what `commit` must keep. */
    predicate Aligned() {
      Ready() && |accounts| == |storage| == |code|
    }

    function NumbersAt(up: Upstream, a: string): Numbers {
      var n := Look(accounts, a);
      if n.Some? then n.value else up.numbers(a)
    }

    function CodeAt(up: Upstream, a: string): string {
      var c := Look(code, a);
      if c.Some? then c.value else up.code(a)
    }

    function SlotAt(up: Upstream, k: SlotKey): string {
      var v := Look(storage, k);
      if v.Some? then v.value else up.slots(k)
    }

    function Checkpoint(): Machine {
      this.(accounts := accounts + [map[]], storage := storage + [map[]], code := code + [map[]])
    }

    function Commit(): Machine
      requires |accounts| >= 2 && |storage| >= 2 && |code| >= 2
    {
      this.(accounts := Folded(accounts), storage := Folded(storage), code := Folded(code))
    }

    /** The commit this class inherited: the account cache alone. */
    function BaseCommit(): Machine
      requires |accounts| >= 2
    {
      this.(accounts := Folded(accounts))
    }

    function Revert(): Machine
      requires Ready()
    {
      this.(accounts := Dropped(accounts), storage := Dropped(storage), code := Dropped(code))
    }

    /** One read or write. A read that is not cached is filled into the top layer, unrecorded. */
    function Simple(up: Upstream, cmd: Cmd): Machine
      requires Ready() && !cmd.Frame?
    {
      match cmd
      case ReadAccount(a) => if Look(accounts, a).Some? then this else this.(accounts := PutTop(accounts, a, up.numbers(a)))
      case ReadCode(a) => if Look(code, a).Some? then this else this.(code := PutTop(code, a, up.code(a)))
      case ReadSlot(k) => if Look(storage, k).Some? then this else this.(storage := PutTop(storage, k, up.slots(k)))
      case WriteAccount(a, n) =>
        var s := if recording then this.(env := env.WriteAccount(a, Hex(n.balance), Hex(n.nonce)), version := version + 1) else this;
        s.(accounts := PutTop(accounts, a, n))
      case WriteCode(a, text) =>
        var s := if recording then this.(env := env.Record(Place(a, Field.Code), text), version := version + 1) else this;
        s.(code := PutTop(code, a, text))
      case WriteSlot(k, word) =>
        var s := if recording then this.(env := env.Record(Place(k.0, Field.Slot(k.1)), word), version := version + 1) else this;
        s.(storage := PutTop(storage, k, word))
    }
  }

  /** The EVM's run: frames checkpoint, and commit or revert as they end. */
  function Exec(up: Upstream, s: Machine, cmds: seq<Cmd>): (t: Machine)
    requires s.Ready()
    ensures |t.accounts| == |s.accounts| && |t.storage| == |s.storage| && |t.code| == |s.code|
    decreases cmds
  {
    if cmds == [] then s
    else
      var first := cmds[0];
      var s1 :=
        if first.Frame? then
          var inner := Exec(up, s.Checkpoint(), first.body);
          if first.ok then inner.Commit() else inner.Revert()
        else s.Simple(up, first);
      Exec(up, s1, cmds[1..])
  }
}
