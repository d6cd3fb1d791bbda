/**
 * What running a program on the layered caches means: it refines a flat state, a call leaves no
 * trace, and the overlay follows the live state as far as no reverted frame wrote.
 */
module Executions {
  import opened Options
  import opened Overlays
  import opened Environments
  import opened ForkStates

  // ---- the flat state the caches stand for --------------------------------------------------------

  datatype View = View(numbers: imap<string, Numbers>, code: imap<string, string>, slots: imap<SlotKey, string>)
  {
    ghost predicate Total() {
      (forall a: string :: a in numbers) && (forall a: string :: a in code) && (forall k: SlotKey :: k in slots)
    }
  }

  ghost function ViewOf(up: Upstream, s: Machine): (v: View)
    ensures v.Total()
  {
    View(imap a: string | true :: s.NumbersAt(up, a), imap a: string | true :: s.CodeAt(up, a),
         imap k: SlotKey | true :: s.SlotAt(up, k))
  }

  /** A write replaces a value, and a read does nothing. */
  ghost function Effect(v: View, cmd: Cmd): View {
    match cmd
    case WriteAccount(a, n) => v.(numbers := v.numbers[a := n])
    case WriteCode(a, text) => v.(code := v.code[a := text])
    case WriteSlot(k, word) => v.(slots := v.slots[k := word])
    case _ => v
  }

  /** A frame that fails never happened. */
  ghost function Apply(v: View, cmds: seq<Cmd>): View
    decreases cmds
  {
    if cmds == [] then v
    else
      var first := cmds[0];
      var v1 := if !first.Frame? then Effect(v, first) else if first.ok then Apply(v, first.body) else v;
      Apply(v1, cmds[1..])
  }

  lemma SameView(up: Upstream, s: Machine, t: Machine)
    requires forall a :: Look(s.accounts, a) == Look(t.accounts, a)
    requires forall a :: Look(s.code, a) == Look(t.code, a)
    requires forall k :: Look(s.storage, k) == Look(t.storage, k)
    ensures ViewOf(up, s) == ViewOf(up, t)
  {
    assert forall a :: s.NumbersAt(up, a) == t.NumbersAt(up, a);
    assert forall a :: s.CodeAt(up, a) == t.CodeAt(up, a);
    assert forall k :: s.SlotAt(up, k) == t.SlotAt(up, k);
  }

  lemma CheckpointView(up: Upstream, s: Machine)
    ensures ViewOf(up, s.Checkpoint()) == ViewOf(up, s)
  {
    forall a ensures Look(s.Checkpoint().accounts, a) == Look(s.accounts, a) { LookPush(s.accounts, a); }
    forall a ensures Look(s.Checkpoint().code, a) == Look(s.code, a) { LookPush(s.code, a); }
    forall k ensures Look(s.Checkpoint().storage, k) == Look(s.storage, k) { LookPush(s.storage, k); }
    SameView(up, s.Checkpoint(), s);
  }

  lemma CommitView(up: Upstream, s: Machine)
    requires |s.accounts| >= 2 && |s.storage| >= 2 && |s.code| >= 2
    ensures ViewOf(up, s.Commit()) == ViewOf(up, s)
  {
    forall a ensures Look(s.Commit().accounts, a) == Look(s.accounts, a) { LookFolded(s.accounts, a); }
    forall a ensures Look(s.Commit().code, a) == Look(s.code, a) { LookFolded(s.code, a); }
    forall k ensures Look(s.Commit().storage, k) == Look(s.storage, k) { LookFolded(s.storage, k); }
    SameView(up, s.Commit(), s);
  }

  lemma SimpleNumbers(up: Upstream, s: Machine, cmd: Cmd, a: string)
    requires s.Ready() && !cmd.Frame?
    ensures s.Simple(up, cmd).NumbersAt(up, a) == if cmd.WriteAccount? && cmd.a == a then cmd.n else s.NumbersAt(up, a)
  {
    if cmd.WriteAccount? { LookPut(s.accounts, cmd.a, cmd.n, a); }
    if cmd.ReadAccount? { LookPut(s.accounts, cmd.a, up.numbers(cmd.a), a); }
  }

  lemma SimpleCode(up: Upstream, s: Machine, cmd: Cmd, a: string)
    requires s.Ready() && !cmd.Frame?
    ensures s.Simple(up, cmd).CodeAt(up, a) == if cmd.WriteCode? && cmd.a == a then cmd.text else s.CodeAt(up, a)
  {
    if cmd.WriteCode? { LookPut(s.code, cmd.a, cmd.text, a); }
    if cmd.ReadCode? { LookPut(s.code, cmd.a, up.code(cmd.a), a); }
  }

  lemma SimpleSlot(up: Upstream, s: Machine, cmd: Cmd, k: SlotKey)
    requires s.Ready() && !cmd.Frame?
    ensures s.Simple(up, cmd).SlotAt(up, k) == if cmd.WriteSlot? && cmd.k == k then cmd.word else s.SlotAt(up, k)
  {
    if cmd.WriteSlot? { LookPut(s.storage, cmd.k, cmd.word, k); }
    if cmd.ReadSlot? { LookPut(s.storage, cmd.k, up.slots(cmd.k), k); }
  }

  lemma ViewIs(up: Upstream, t: Machine, v: View)
    requires v.Total()
    requires forall a :: t.NumbersAt(up, a) == v.numbers[a]
    requires forall a :: t.CodeAt(up, a) == v.code[a]
    requires forall k :: t.SlotAt(up, k) == v.slots[k]
    ensures ViewOf(up, t) == v
  {
    assert ViewOf(up, t).numbers == v.numbers;
    assert ViewOf(up, t).code == v.code;
    assert ViewOf(up, t).slots == v.slots;
  }

  lemma SimpleView(up: Upstream, s: Machine, cmd: Cmd)
    requires s.Ready() && !cmd.Frame?
    ensures ViewOf(up, s.Simple(up, cmd)) == Effect(ViewOf(up, s), cmd)
  {
    var v := Effect(ViewOf(up, s), cmd);
    var t := s.Simple(up, cmd);
    forall a ensures t.NumbersAt(up, a) == v.numbers[a] { SimpleNumbers(up, s, cmd, a); }
    forall a ensures t.CodeAt(up, a) == v.code[a] { SimpleCode(up, s, cmd, a); }
    forall k ensures t.SlotAt(up, k) == v.slots[k] { SimpleSlot(up, s, cmd, k); }
    ViewIs(up, t, v);
  }

  // ---- only the top layer moves -------------------------------------------------------------------

  /** All layers but the top ones, and what a run that does not record cannot reach. */
  ghost predicate SameBelow(s: Machine, t: Machine)
    requires s.Ready() && t.Ready()
  {
    && Dropped(t.accounts) == Dropped(s.accounts) && Dropped(t.storage) == Dropped(s.storage)
    && Dropped(t.code) == Dropped(s.code) && t.recording == s.recording
    && (!s.recording ==> t.env == s.env && t.version == s.version)
  }

  lemma {:induction false} OnlyTheTopMoves(up: Upstream, s: Machine, cmds: seq<Cmd>)
    requires s.Ready()
    ensures SameBelow(s, Exec(up, s, cmds))
    decreases cmds
  {
    if cmds != [] {
      var first := cmds[0];
      if first.Frame? {
        var pushed := s.Checkpoint();
        var inner := Exec(up, pushed, first.body);
        OnlyTheTopMoves(up, pushed, first.body);
        FrameEnd(s, inner, first.ok);
        OnlyTheTopMoves(up, if first.ok then inner.Commit() else inner.Revert(), cmds[1..]);
      } else {
        SimpleBelow(up, s, first);
        OnlyTheTopMoves(up, s.Simple(up, first), cmds[1..]);
      }
    }
  }

  /** How many writes a program makes, those of frames that fail included. */
  function Writes(cmds: seq<Cmd>): nat
    decreases cmds
  {
    if cmds == [] then 0
    else
      var first := cmds[0];
      var here :=
        match first
        case Frame(body, _) => Writes(body)
        case WriteAccount(_, _) => 1
        case WriteCode(_, _) => 1
        case WriteSlot(_, _) => 1
        case _ => 0;
      here + Writes(cmds[1..])
  }

  lemma WritesPeels(cmds: seq<Cmd>)
    requires cmds != [] && cmds[0].Frame?
    ensures Writes(cmds) == Writes(cmds[0].body) + Writes(cmds[1..])
  {}

  lemma VersionOfEnd(inner: Machine, ok: bool)
    requires |inner.accounts| >= 2 && |inner.storage| >= 2 && |inner.code| >= 2
    ensures var t := if ok then inner.Commit() else inner.Revert();
            t.version == inner.version && t.recording == inner.recording
  {}

  lemma SimpleCounts(up: Upstream, s: Machine, cmd: Cmd)
    requires s.Ready() && !cmd.Frame?
    ensures s.Simple(up, cmd).version ==
            s.version + if s.recording && (cmd.WriteAccount? || cmd.WriteCode? || cmd.WriteSlot?) then 1 else 0
  {}

  /**
   * The version moves by one for every write of a recorded run, so it stays where it was exactly when nothing was
   * written: what a copy is known to be clean by.
   */
  lemma {:induction false} VersionCountsWrites(up: Upstream, s: Machine, cmds: seq<Cmd>)
    requires s.Ready()
    ensures Exec(up, s, cmds).version == s.version + if s.recording then Writes(cmds) else 0
    decreases cmds
  {
    if cmds != [] {
      var first := cmds[0];
      if first.Frame? {
        var inner := Exec(up, s.Checkpoint(), first.body);
        var s1 := if first.ok then inner.Commit() else inner.Revert();
        VersionCountsWrites(up, s.Checkpoint(), first.body);
        OnlyTheTopMoves(up, s.Checkpoint(), first.body);
        VersionOfEnd(inner, first.ok);
        VersionCountsWrites(up, s1, cmds[1..]);
        FramePeels(up, s, cmds, s1);
        WritesPeels(cmds);
      } else {
        SimpleBelow(up, s, first);
        SimpleCounts(up, s, first);
        VersionCountsWrites(up, s.Simple(up, first), cmds[1..]);
      }
    }
  }

  lemma SimpleBelow(up: Upstream, s: Machine, cmd: Cmd)
    requires s.Ready() && !cmd.Frame?
    ensures SameBelow(s, s.Simple(up, cmd))
  {}

  /** A reverted frame leaves every layer as it was; a committed one only the top changed. */
  lemma FrameEnd(s: Machine, inner: Machine, ok: bool)
    requires s.Ready() && inner.Ready() && SameBelow(s.Checkpoint(), inner)
    requires |inner.accounts| == |s.accounts| + 1 && |inner.storage| == |s.storage| + 1 && |inner.code| == |s.code| + 1
    ensures inner.Revert().accounts == s.accounts && inner.Revert().storage == s.storage && inner.Revert().code == s.code
    ensures SameBelow(s, if ok then inner.Commit() else inner.Revert())
  {
    FoldKeepsBelow(s.accounts, inner.accounts);
    FoldKeepsBelow(s.storage, inner.storage);
    FoldKeepsBelow(s.code, inner.code);
  }

  lemma FoldKeepsBelow<K, V>(layers: Layers<K, V>, inner: Layers<K, V>)
    requires layers != [] && |inner| == |layers| + 1 && Dropped(inner) == Dropped(layers + [map[]])
    ensures Dropped(inner) == layers && Dropped(Folded(inner)) == Dropped(layers)
  {
    assert Dropped(layers + [map[]]) == layers;
  }

  // ---- the layered run refines the flat one ----------------------------------------------------------

  lemma FrameView(up: Upstream, s: Machine, inner: Machine, ok: bool)
    requires s.Ready() && inner.Ready() && SameBelow(s.Checkpoint(), inner)
    requires |inner.accounts| == |s.accounts| + 1 && |inner.storage| == |s.storage| + 1 && |inner.code| == |s.code| + 1
    ensures ViewOf(up, if ok then inner.Commit() else inner.Revert()) == if ok then ViewOf(up, inner) else ViewOf(up, s)
  {
    FrameEnd(s, inner, ok);
    if ok {
      CommitView(up, inner);
    } else {
      SameView(up, inner.Revert(), s);
    }
  }

  lemma FrameRefines(up: Upstream, s: Machine, body: seq<Cmd>, ok: bool)
    requires s.Ready()
    requires ViewOf(up, Exec(up, s.Checkpoint(), body)) == Apply(ViewOf(up, s.Checkpoint()), body)
    ensures var inner := Exec(up, s.Checkpoint(), body);
            ViewOf(up, if ok then inner.Commit() else inner.Revert()) == if ok then Apply(ViewOf(up, s), body) else ViewOf(up, s)
  {
    OnlyTheTopMoves(up, s.Checkpoint(), body);
    CheckpointView(up, s);
    FrameView(up, s, Exec(up, s.Checkpoint(), body), ok);
  }

  lemma FramePeels(up: Upstream, s: Machine, cmds: seq<Cmd>, s1: Machine)
    requires s.Ready() && cmds != [] && cmds[0].Frame?
    requires var inner := Exec(up, s.Checkpoint(), cmds[0].body); s1 == if cmds[0].ok then inner.Commit() else inner.Revert()
    ensures Exec(up, s, cmds) == Exec(up, s1, cmds[1..])
  {
  }

  lemma ApplyPeels(v: View, cmds: seq<Cmd>, v1: View)
    requires cmds != [] && cmds[0].Frame? && v1 == if cmds[0].ok then Apply(v, cmds[0].body) else v
    ensures Apply(v, cmds) == Apply(v1, cmds[1..])
  {
  }

  /** The three stacks of layers answer every read as one flat state would. */
  lemma {:induction false} LayersRefineFlat(up: Upstream, s: Machine, cmds: seq<Cmd>)
    requires s.Ready()
    ensures ViewOf(up, Exec(up, s, cmds)) == Apply(ViewOf(up, s), cmds)
    decreases cmds
  {
    if cmds != [] {
      var first := cmds[0];
      if !first.Frame? {
        SimpleView(up, s, first);
        LayersRefineFlat(up, s.Simple(up, first), cmds[1..]);
      } else {
        LayersRefineFlat(up, s.Checkpoint(), first.body);
        FrameRefines(up, s, first.body, first.ok);
        var inner := Exec(up, s.Checkpoint(), first.body);
        var s1 := if first.ok then inner.Commit() else inner.Revert();
        FramePeels(up, s, cmds, s1);
        ApplyPeels(ViewOf(up, s), cmds, ViewOf(up, s1));
        LayersRefineFlat(up, s1, cmds[1..]);
      }
    }
  }

  // ---- a call leaves no trace ---------------------------------------------------------------------

  /** `call`: overrides and the EVM's own frame, unrecorded, on layers that are dropped at the end. */
  function Call(up: Upstream, s: Machine, overrides: seq<Cmd>, body: seq<Cmd>, ok: bool): Machine
    requires s.Ready()
  {
    Exec(up, s.Checkpoint().(recording := false), overrides + [Frame(body, ok)]).(recording := true).Revert()
  }

  /** Whatever a call reads, writes, commits or reverts, the whole state is what it was. */
  lemma CallLeavesNoTrace(up: Upstream, s: Machine, overrides: seq<Cmd>, body: seq<Cmd>, ok: bool)
    requires s.Ready() && s.recording
    ensures Call(up, s, overrides, body, ok) == s
  {
    var pushed := s.Checkpoint().(recording := false);
    var cmds := overrides + [Frame(body, ok)];
    var t := Exec(up, pushed, cmds);
    OnlyTheTopMoves(up, pushed, cmds);
    FrameEnd(s.(recording := false), t, false);
  }

  // ---- why `commit` is overridden ---------------------------------------------------------------------

  /** The same run under the inherited commit, which folds the account cache alone. */
  function ExecBase(up: Upstream, s: Machine, cmds: seq<Cmd>): (t: Machine)
    requires s.Ready()
    ensures |t.accounts| == |s.accounts| && |t.storage| >= |s.storage| && |t.code| >= |s.code|
    decreases cmds
  {
    if cmds == [] then s
    else
      var first := cmds[0];
      var s1 :=
        if first.Frame? then
          var inner := ExecBase(up, s.Checkpoint(), first.body);
          if first.ok then inner.BaseCommit() else inner.Revert()
        else s.Simple(up, first);
      ExecBase(up, s1, cmds[1..])
  }

  function CallBase(up: Upstream, s: Machine, overrides: seq<Cmd>, body: seq<Cmd>, ok: bool): Machine
    requires s.Ready()
  {
    ExecBase(up, s.Checkpoint().(recording := false), overrides + [Frame(body, ok)]).(recording := true).Revert()
  }

  /** How many frames end well, at any depth, inside reverted ones too. */
  function Committed(cmds: seq<Cmd>): nat
    decreases cmds
  {
    if cmds == [] then 0
    else
      (if cmds[0].Frame? then Committed(cmds[0].body) + (if cmds[0].ok then 1 else 0) else 0) + Committed(cmds[1..])
  }

  lemma {:induction false} BaseDepth(up: Upstream, s: Machine, cmds: seq<Cmd>)
    requires s.Ready()
    ensures |ExecBase(up, s, cmds).storage| == |s.storage| + Committed(cmds)
    ensures |ExecBase(up, s, cmds).code| == |s.code| + Committed(cmds)
    decreases cmds
  {
    if cmds != [] {
      var first := cmds[0];
      if first.Frame? {
        var inner := ExecBase(up, s.Checkpoint(), first.body);
        BaseDepth(up, s.Checkpoint(), first.body);
        BaseDepth(up, if first.ok then inner.BaseCommit() else inner.Revert(), cmds[1..]);
      } else {
        BaseDepth(up, s.Simple(up, first), cmds[1..]);
      }
    }
  }

  lemma {:induction false} CommittedJoins(a: seq<Cmd>, b: seq<Cmd>)
    ensures Committed(a + b) == Committed(a) + Committed(b)
  {
    if a == [] {
      assert a + b == b;
    } else {
      assert (a + b)[1..] == a[1..] + b;
      CommittedJoins(a[1..], b);
    }
  }

  /** With the inherited commit the caches stay at one depth exactly when no frame ended well. */
  lemma BaseCommitDrifts(up: Upstream, s: Machine, overrides: seq<Cmd>, body: seq<Cmd>, ok: bool)
    requires s.Aligned()
    ensures CallBase(up, s, overrides, body, ok).Aligned() <==> Committed(overrides) + Committed(body) == 0 && !ok
  {
    var pushed := s.Checkpoint().(recording := false);
    BaseDepth(up, pushed, overrides + [Frame(body, ok)]);
    CommittedJoins(overrides, [Frame(body, ok)]);
    assert [Frame(body, ok)][1..] == [];
    assert Committed([Frame(body, ok)]) == Committed(body) + if ok then 1 else 0;
  }

  /** And then a call changes state: one inner frame writes a slot, and the next leaves that write behind. */
  lemma BaseCommitLeaksAWrite(up: Upstream, s: Machine, k: SlotKey, word: string)
    requires s.Aligned() && s.SlotAt(up, k) != word
    ensures CallBase(up, s, [], [Frame([WriteSlot(k, word)], true), Frame([], true)], true).SlotAt(up, k) == word
    ensures CallBase(up, s, [], [Frame([WriteSlot(k, word)], true), Frame([], true)], true).SlotAt(up, k) != s.SlotAt(up, k)
  {
    var first, second := Frame([WriteSlot(k, word)], true), Frame([], true);
    var s1 := s.Checkpoint().(recording := false);
    var s2 := s1.Checkpoint();
    var s3 := s2.Checkpoint().Simple(up, WriteSlot(k, word)).BaseCommit();
    var s4 := s3.Checkpoint().BaseCommit();
    assert ExecBase(up, s2.Checkpoint(), [WriteSlot(k, word)]) == s2.Checkpoint().Simple(up, WriteSlot(k, word)) by {
      assert [WriteSlot(k, word)][1..] == [];
    }
    assert ExecBase(up, s3, [second]) == s4 by {
      assert [second][1..] == [];
    }
    assert ExecBase(up, s2, [first, second]) == s4 by {
      assert [first, second][1..] == [second];
    }
    var outer := Frame([first, second], true);
    assert ExecBase(up, s1, [outer]) == s4.BaseCommit() by {
      assert [outer][1..] == [];
    }
    assert [] + [outer] == [outer];
    assert Dropped(s4.storage) == s3.storage;
  }

  // ---- the overlay and the live state ----------------------------------------------------------------

  /** A field of the flat state as the overlay spells it. */
  ghost function Text(v: View, p: Place): string
    requires v.Total()
  {
    match p.field
    case Balance => Hex(v.numbers[p.address].balance)
    case Nonce => Hex(v.numbers[p.address].nonce)
    case Code => v.code[p.address]
    case Slot(slot) => v.slots[(p.address, slot)]
  }

  /** The parent as the overlay's reads see it. */
  function AsParent(up: Upstream): Parent {
    (tag: int, p: Place) =>
      match p.field
      case Balance => Hex(up.numbers(p.address).balance)
      case Nonce => Hex(up.numbers(p.address).nonce)
      case Code => up.code(p.address)
      case Slot(slot) => up.slots((p.address, slot))
  }

  /** As `Apply`, except that what a failed frame wrote stays. */
  ghost function ApplyAll(v: View, cmds: seq<Cmd>): View
    decreases cmds
  {
    if cmds == [] then v
    else ApplyAll(if cmds[0].Frame? then ApplyAll(v, cmds[0].body) else Effect(v, cmds[0]), cmds[1..])
  }

  lemma {:induction false} ApplyAllTotal(v: View, cmds: seq<Cmd>)
    requires v.Total()
    ensures ApplyAll(v, cmds).Total()
    decreases cmds
  {
    if cmds != [] {
      if cmds[0].Frame? {
        ApplyAllTotal(v, cmds[0].body);
        ApplyAllTotal(ApplyAll(v, cmds[0].body), cmds[1..]);
      } else {
        ApplyAllTotal(Effect(v, cmds[0]), cmds[1..]);
      }
    }
  }

  lemma {:induction false} ApplyTotal(v: View, cmds: seq<Cmd>)
    requires v.Total()
    ensures Apply(v, cmds).Total()
    decreases cmds
  {
    if cmds != [] {
      if !cmds[0].Frame? {
        ApplyTotal(Effect(v, cmds[0]), cmds[1..]);
      } else if cmds[0].ok {
        ApplyTotal(v, cmds[0].body);
        ApplyTotal(Apply(v, cmds[0].body), cmds[1..]);
      } else {
        ApplyTotal(v, cmds[1..]);
      }
    }
  }

  /** What the overlay answers, place by place, is this flat state. */
  ghost predicate Follows(up: Upstream, env: EnvState, v: View)
    requires v.Total()
  {
    forall p :: env.Read(AsParent(up), p) == Text(v, p)
  }

  lemma RecordReads(env: EnvState, parent: Parent, p: Place, text: string, q: Place)
    ensures env.Record(p, text).Read(parent, q) == if q == p then text else env.Read(parent, q)
  {
    PutGet(env.accounts, p, text, q);
  }

  lemma SimpleFollowsAt(up: Upstream, s: Machine, cmd: Cmd, v: View, q: Place)
    requires s.Ready() && !cmd.Frame? && s.recording && v.Total() && s.env.Read(AsParent(up), q) == Text(v, q)
    ensures s.Simple(up, cmd).env.Read(AsParent(up), q) == Text(Effect(v, cmd), q)
  {
    match cmd
    case WriteAccount(a, n) =>
      var b := Place(a, Balance);
      RecordReads(s.env, AsParent(up), b, Hex(n.balance), q);
      RecordReads(s.env.Record(b, Hex(n.balance)), AsParent(up), Place(a, Nonce), Hex(n.nonce), q);
    case WriteCode(a, text) => RecordReads(s.env, AsParent(up), Place(a, Field.Code), text, q);
    case WriteSlot(k, word) => RecordReads(s.env, AsParent(up), Place(k.0, Field.Slot(k.1)), word, q);
    case _ =>
  }

  lemma SimpleFollows(up: Upstream, s: Machine, cmd: Cmd, v: View)
    requires s.Ready() && !cmd.Frame? && s.recording && v.Total() && Follows(up, s.env, v)
    ensures Follows(up, s.Simple(up, cmd).env, Effect(v, cmd))
  {
    forall q ensures s.Simple(up, cmd).env.Read(AsParent(up), q) == Text(Effect(v, cmd), q) {
      SimpleFollowsAt(up, s, cmd, v, q);
    }
  }

  /** The overlay records every write as it is made, and no frame that fails takes one back. */
  lemma {:induction false} OverlayKeepsEveryWrite(up: Upstream, s: Machine, cmds: seq<Cmd>, v: View)
    requires s.Ready() && s.recording && v.Total() && Follows(up, s.env, v)
    ensures ApplyAll(v, cmds).Total() && Follows(up, Exec(up, s, cmds).env, ApplyAll(v, cmds))
    decreases cmds
  {
    ApplyAllTotal(v, cmds);
    if cmds != [] {
      var first := cmds[0];
      if first.Frame? {
        var inner := Exec(up, s.Checkpoint(), first.body);
        OnlyTheTopMoves(up, s.Checkpoint(), first.body);
        OverlayKeepsEveryWrite(up, s.Checkpoint(), first.body, v);
        OverlayKeepsEveryWrite(up, if first.ok then inner.Commit() else inner.Revert(), cmds[1..], ApplyAll(v, first.body));
      } else {
        SimpleFollows(up, s, first, v);
        OverlayKeepsEveryWrite(up, s.Simple(up, first), cmds[1..], Effect(v, first));
      }
    }
  }

  /** Nothing in the program writes. */
  predicate OnlyReads(cmds: seq<Cmd>)
    decreases cmds
  {
    cmds == []
    || ((if cmds[0].Frame? then OnlyReads(cmds[0].body)
         else cmds[0].ReadAccount? || cmds[0].ReadCode? || cmds[0].ReadSlot?)
        && OnlyReads(cmds[1..]))
  }

  /** No frame that writes is reverted. */
  predicate WritesStand(cmds: seq<Cmd>)
    decreases cmds
  {
    cmds == []
    || ((cmds[0].Frame? ==> WritesStand(cmds[0].body) && (cmds[0].ok || OnlyReads(cmds[0].body)))
        && WritesStand(cmds[1..]))
  }

  lemma {:induction false} ReadsDoNothing(v: View, cmds: seq<Cmd>)
    requires OnlyReads(cmds)
    ensures ApplyAll(v, cmds) == v
    decreases cmds
  {
    if cmds != [] {
      if cmds[0].Frame? {
        ReadsDoNothing(v, cmds[0].body);
      }
      ReadsDoNothing(v, cmds[1..]);
    }
  }

  lemma {:induction false} StandingWrites(v: View, cmds: seq<Cmd>)
    requires WritesStand(cmds)
    ensures Apply(v, cmds) == ApplyAll(v, cmds)
    decreases cmds
  {
    if cmds != [] {
      var first := cmds[0];
      if first.Frame? {
        StandingWrites(v, first.body);
        if !first.ok {
          ReadsDoNothing(v, first.body);
        }
        StandingWrites(ApplyAll(v, first.body), cmds[1..]);
      } else {
        StandingWrites(Effect(v, first), cmds[1..]);
      }
    }
  }

  // ---- the last word on each place -----------------------------------------------------------------

  /** What a command writes at a place, as the overlay spells it. */
  function Written(cmd: Cmd, p: Place): Option<string> {
    match cmd
    case WriteAccount(a, n) =>
      if p == Place(a, Balance) then Some(Hex(n.balance)) else if p == Place(a, Nonce) then Some(Hex(n.nonce)) else None
    case WriteCode(a, text) => if p == Place(a, Field.Code) then Some(text) else None
    case WriteSlot(k, word) => if p == Place(k.0, Field.Slot(k.1)) then Some(word) else None
    case _ => None
  }

  /** The last thing the program writes at a place: in any frame, or only outside frames that failed. */
  function LastWritten(cmds: seq<Cmd>, p: Place, failedToo: bool): Option<string>
    decreases cmds
  {
    if cmds == [] then None
    else
      var later := LastWritten(cmds[1..], p, failedToo);
      if later.Some? then later
      else if !cmds[0].Frame? then Written(cmds[0], p)
      else if cmds[0].ok || failedToo then LastWritten(cmds[0].body, p, failedToo)
      else None
  }

  function Or(v: Option<string>, before: string): string { if v.Some? then v.value else before }

  lemma EffectText(v: View, cmd: Cmd, p: Place)
    requires v.Total() && !cmd.Frame?
    ensures Effect(v, cmd).Total() && Text(Effect(v, cmd), p) == Or(Written(cmd, p), Text(v, p))
  {
  }

  lemma {:induction false} ApplyText(v: View, cmds: seq<Cmd>, p: Place)
    requires v.Total()
    ensures Apply(v, cmds).Total() && Text(Apply(v, cmds), p) == Or(LastWritten(cmds, p, false), Text(v, p))
    decreases cmds
  {
    if cmds != [] {
      if !cmds[0].Frame? {
        EffectText(v, cmds[0], p);
        ApplyText(Effect(v, cmds[0]), cmds[1..], p);
      } else if cmds[0].ok {
        ApplyText(v, cmds[0].body, p);
        ApplyText(Apply(v, cmds[0].body), cmds[1..], p);
      } else {
        ApplyText(v, cmds[1..], p);
      }
    }
  }

  lemma {:induction false} ApplyAllText(v: View, cmds: seq<Cmd>, p: Place)
    requires v.Total()
    ensures ApplyAll(v, cmds).Total() && Text(ApplyAll(v, cmds), p) == Or(LastWritten(cmds, p, true), Text(v, p))
    decreases cmds
  {
    if cmds != [] {
      if cmds[0].Frame? {
        ApplyAllText(v, cmds[0].body, p);
        ApplyAllText(ApplyAll(v, cmds[0].body), cmds[1..], p);
      } else {
        EffectText(v, cmds[0], p);
        ApplyAllText(Effect(v, cmds[0]), cmds[1..], p);
      }
    }
  }

  lemma {:induction false} StoodIsWritten(cmds: seq<Cmd>, p: Place)
    requires LastWritten(cmds, p, false).Some?
    ensures LastWritten(cmds, p, true).Some?
    decreases cmds
  {
    if LastWritten(cmds[1..], p, false).Some? {
      StoodIsWritten(cmds[1..], p);
    } else if cmds[0].Frame? {
      StoodIsWritten(cmds[0].body, p);
    }
  }

  /** At every place written, the last word written is the last of a frame that stood, or what was there before. */
  ghost predicate LastWordsStand(v: View, cmds: seq<Cmd>)
    requires v.Total()
  {
    forall p | LastWritten(cmds, p, true).Some? ::
      LastWritten(cmds, p, true).value == Or(LastWritten(cmds, p, false), Text(v, p))
  }

  /** The two flat states spell every place alike. */
  ghost predicate SameTexts(v: View, w: View)
    requires v.Total() && w.Total()
  {
    forall p :: Text(v, p) == Text(w, p)
  }

  lemma LastWordsAre(v: View, cmds: seq<Cmd>)
    requires v.Total() && Apply(v, cmds).Total() && ApplyAll(v, cmds).Total()
    ensures LastWordsStand(v, cmds) <==> SameTexts(Apply(v, cmds), ApplyAll(v, cmds))
  {
    if LastWordsStand(v, cmds) {
      forall p ensures Text(Apply(v, cmds), p) == Text(ApplyAll(v, cmds), p) {
        TextsAre(v, cmds, p);
      }
    }
    if SameTexts(Apply(v, cmds), ApplyAll(v, cmds)) {
      forall p | LastWritten(cmds, p, true).Some?
        ensures LastWritten(cmds, p, true).value == Or(LastWritten(cmds, p, false), Text(v, p))
      {
        TextsAre(v, cmds, p);
        assert Text(Apply(v, cmds), p) == Text(ApplyAll(v, cmds), p);
      }
    }
  }

  lemma TextsAre(v: View, cmds: seq<Cmd>, p: Place)
    requires v.Total() && Apply(v, cmds).Total() && ApplyAll(v, cmds).Total()
    ensures Text(Apply(v, cmds), p) == Or(LastWritten(cmds, p, false), Text(v, p))
    ensures Text(ApplyAll(v, cmds), p) == Or(LastWritten(cmds, p, true), Text(v, p))
    ensures LastWritten(cmds, p, false).Some? ==> LastWritten(cmds, p, true).Some?
  {
    ApplyText(v, cmds, p);
    ApplyAllText(v, cmds, p);
    if LastWritten(cmds, p, false).Some? {
      StoodIsWritten(cmds, p);
    }
  }

  /**
   * After a recorded run the overlay answers what the live state answers exactly when, at every place the
   * program wrote, its last word there is that of a frame that stood, or what the place held before.
   */
  lemma OverlayFollowsLiveIff(up: Upstream, s: Machine, cmds: seq<Cmd>)
    requires s.Ready() && s.recording && Follows(up, s.env, ViewOf(up, s))
    ensures var t := Exec(up, s, cmds);
            Follows(up, t.env, ViewOf(up, t)) <==> LastWordsStand(ViewOf(up, s), cmds)
  {
    var v, t := ViewOf(up, s), Exec(up, s, cmds);
    ApplyTotal(v, cmds);
    OverlayKeepsEveryWrite(up, s, cmds, v);
    LayersRefineFlat(up, s, cmds);
    LastWordsAre(v, cmds);
  }

  /** So it does where no frame that wrote is reverted. */
  lemma OverlayFollowsLive(up: Upstream, s: Machine, cmds: seq<Cmd>)
    requires s.Ready() && s.recording && Follows(up, s.env, ViewOf(up, s)) && WritesStand(cmds)
    ensures Follows(up, Exec(up, s, cmds).env, ViewOf(up, Exec(up, s, cmds)))
  {
    var v := ViewOf(up, s);
    StandingWrites(v, cmds);
    ApplyTotal(v, cmds);
    LastWordsAre(v, cmds);
    OverlayFollowsLiveIff(up, s, cmds);
  }

  /** And it does not when one frame writes a new word to a slot and fails. */
  lemma RevertedFrameStaysInOverlay(up: Upstream, s: Machine, k: SlotKey, word: string)
    requires s.Ready() && s.recording && Follows(up, s.env, ViewOf(up, s)) && s.SlotAt(up, k) != word
    ensures var t := Exec(up, s, [Frame([WriteSlot(k, word)], false)]);
            && t.SlotAt(up, k) == s.SlotAt(up, k)
            && t.env.Read(AsParent(up), Place(k.0, Field.Slot(k.1))) == word
  {
    var v, inner, cmds := ViewOf(up, s), [WriteSlot(k, word)], [Frame([WriteSlot(k, word)], false)];
    var t := Exec(up, s, cmds);
    assert inner[1..] == [] && cmds[1..] == [];
    LayersRefineFlat(up, s, cmds);
    assert Apply(v, cmds) == v;
    assert ViewOf(up, t).slots[k] == t.SlotAt(up, k) && v.slots[k] == s.SlotAt(up, k);
    OverlayKeepsEveryWrite(up, s, cmds, v);
    assert ApplyAll(v, inner) == Effect(v, WriteSlot(k, word));
    assert ApplyAll(v, cmds) == Effect(v, WriteSlot(k, word));
    assert Text(ApplyAll(v, cmds), Place(k.0, Field.Slot(k.1))) == word;
  }
}
