/** A program of code fragments, labels and jumps, and the bytecode two passes make of it (src/oracle.ts:40-63). */
module Assemblers {
  import opened Options
  import opened HexNumbers
  import opened Bytecode

  datatype Part = Code(bytes: Bytes) | Label(name: string) | Jump(name: string)

  function Size(p: Part): nat {
    match p
    case Code(bytes) => |bytes|
    case Label(_) => 1
    case Jump(_) => 3
  }

  /** Where part `k` lands. */
  function Start(parts: seq<Part>, k: nat): nat
    requires k <= |parts|
  {
    if k == 0 then 0 else Start(parts, k - 1) + Size(parts[k - 1])
  }

  /** Where a label is, among the first `n` parts; a name used twice is where it was used last. */
  function AddressIn(parts: seq<Part>, name: string, n: nat): Option<nat>
    requires n <= |parts|
  {
    if n == 0 then None
    else if parts[n - 1] == Label(name) then Some(Start(parts, n - 1))
    else AddressIn(parts, name, n - 1)
  }

  function Address(parts: seq<Part>, name: string): Option<nat> {
    AddressIn(parts, name, |parts|)
  }

  predicate Resolves(parts: seq<Part>, k: nat)
    requires k < |parts|
  {
    parts[k].Jump? ==> Address(parts, parts[k].name).Some?
  }

  predicate Resolved(parts: seq<Part>) {
    forall k | 0 <= k < |parts| :: Resolves(parts, k)
  }

  // ---- the text it writes --------------------------------------------------------------------------

  function HexOf(bytes: Bytes): Hex {
    if bytes == [] then [] else [bytes[0] / 16, bytes[0] % 16] + HexOf(bytes[1..])
  }

  function TextOf(p: Part, address: nat): Hex {
    match p
    case Code(bytes) => HexOf(bytes)
    case Label(_) => [5, 11]
    case Jump(_) => [6, 1] + PadStart(Digits(address), 4)
  }

  function AddressFor(parts: seq<Part>, p: Part): nat {
    if p.Jump? && Address(parts, p.name).Some? then Address(parts, p.name).value else 0
  }

  function TextPieces(parts: seq<Part>): (pieces: seq<Hex>)
    ensures |pieces| == |parts|
  {
    seq(|parts|, k requires 0 <= k < |parts| => TextOf(parts[k], AddressFor(parts, parts[k])))
  }

  function Text(parts: seq<Part>, n: nat): Hex
    requires n <= |parts|
  {
    Concat(TextPieces(parts), n)
  }

  /** `assemble`; a jump to a label there is none of throws. */
  method Assemble(parts: seq<Part>) returns (r: Option<Hex>)
    ensures r == if Resolved(parts) then Some(Text(parts, |parts|)) else None
  {
    var at := PlaceLabels(parts);
    r := WriteParts(parts, at);
  }

  /** The first pass. */
  method PlaceLabels(parts: seq<Part>) returns (at: map<string, nat>)
    ensures forall name :: Lookup(at, name) == Address(parts, name)
  {
    var offset := 0;
    at := map[];
    for i := 0 to |parts|
      invariant offset == Start(parts, i)
      invariant forall name :: Lookup(at, name) == AddressIn(parts, name, i)
    {
      match parts[i]
      case Code(bytes) => offset := offset + |bytes|;
      case Label(name) =>
        at := at[name := offset];
        offset := offset + 1;
      case Jump(_) => offset := offset + 3;
    }
  }

  lemma AddressAt(parts: seq<Part>, at: map<string, nat>, p: Part)
    requires (forall name :: Lookup(at, name) == Address(parts, name)) && (p.Jump? ==> p.name in at)
    ensures AddressFor(parts, p) == if p.Jump? then at[p.name] else 0
    ensures p.Jump? ==> Address(parts, p.name).Some?
  {
    if p.Jump? {
      assert Lookup(at, p.name) == Address(parts, p.name);
    }
  }

  /** The second pass. */
  method WriteParts(parts: seq<Part>, at: map<string, nat>) returns (r: Option<Hex>)
    requires forall name :: Lookup(at, name) == Address(parts, name)
    ensures r == if Resolved(parts) then Some(Text(parts, |parts|)) else None
  {
    var out: Hex := [];
    for i := 0 to |parts|
      invariant forall k | 0 <= k < i :: Resolves(parts, k)
      invariant out == Text(parts, i)
    {
      var p := parts[i];
      if p.Jump? && p.name !in at {
        assert Lookup(at, p.name) == Address(parts, p.name) && !Resolves(parts, i);
        return None;
      }
      var address := if p.Jump? then at[p.name] else 0;
      AddressAt(parts, at, p);
      out := out + TextOf(p, address);
    }
    return Some(out);
  }

  // ---- the code that text is ------------------------------------------------------------------------

  function Emitted(parts: seq<Part>, k: nat): Bytes
    requires k < |parts|
  {
    match parts[k]
    case Code(bytes) => bytes
    case Label(_) => [JUMPDEST]
    case Jump(_) => var a := AddressFor(parts, parts[k]); [PUSH2, a / 256 % 256, a % 256]
  }

  function Pieces(parts: seq<Part>): (pieces: seq<Bytes>)
    ensures |pieces| == |parts|
  {
    seq(|parts|, k requires 0 <= k < |parts| => Emitted(parts, k))
  }

  function ByteCode(parts: seq<Part>, n: nat): Bytes
    requires n <= |parts|
  {
    Concat(Pieces(parts), n)
  }

  lemma {:induction false} CodeSize(parts: seq<Part>, n: nat)
    requires n <= |parts|
    ensures |ByteCode(parts, n)| == Start(parts, n)
  {
    if n > 0 {
      CodeSize(parts, n - 1);
    }
  }

  lemma {:induction false} StartGrows(parts: seq<Part>, j: nat, k: nat)
    requires j <= k <= |parts|
    ensures Start(parts, j) <= Start(parts, k)
    decreases k - j
  {
    if j < k {
      StartGrows(parts, j, k - 1);
    }
  }

  /** An address is where some label of that name stands. */
  lemma {:induction false} AddressIs(parts: seq<Part>, name: string, n: nat) returns (k: nat)
    requires n <= |parts| && AddressIn(parts, name, n).Some?
    ensures k < n && parts[k] == Label(name) && AddressIn(parts, name, n) == Some(Start(parts, k))
  {
    if parts[n - 1] == Label(name) {
      k := n - 1;
    } else {
      k := AddressIs(parts, name, n - 1);
    }
  }

  lemma AddressFits(parts: seq<Part>, k: nat)
    requires k < |parts| && Start(parts, |parts|) <= 0x1_0000
    ensures AddressFor(parts, parts[k]) < 0x1_0000
  {
    var p := parts[k];
    if p.Jump? && Address(parts, p.name).Some? {
      var j := AddressIs(parts, p.name, |parts|);
      StartGrows(parts, j + 1, |parts|);
    }
  }

  lemma {:induction false} HexJoins(a: Bytes, b: Bytes)
    ensures HexOf(a + b) == HexOf(a) + HexOf(b)
  {
    if a == [] {
      assert a + b == b;
    } else {
      assert (a + b)[1..] == a[1..] + b;
      HexJoins(a[1..], b);
    }
  }

  lemma SplitAddress(a: nat)
    requires a < 0x1_0000
    ensures ((a / 4096 * 16 + a / 256 % 16) * 16 + a / 16 % 16) * 16 + a % 16 == a
    ensures a / 256 % 256 / 16 == a / 4096 && a / 256 % 256 % 16 == a / 256 % 16
    ensures a % 256 / 16 == a / 16 % 16 && a % 256 % 16 == a % 16
  {}

  /** Four digits are two bytes. */
  lemma TwoBytes(a: nat)
    requires a < 0x1_0000
    ensures [6, 1] + PadStart(Digits(a), 4) == HexOf([PUSH2, a / 256 % 256, a % 256])
  {
    SplitAddress(a);
    var d0, d1, d2, d3 := a / 4096, a / 256 % 16, a / 16 % 16, a % 16;
    FourBack(a, d0, d1, d2, d3);
    HexOfThree(PUSH2, a / 256 % 256, a % 256);
  }

  lemma FourBack(a: nat, d0: Nibble, d1: Nibble, d2: Nibble, d3: Nibble)
    requires ((d0 * 16 + d1) * 16 + d2) * 16 + d3 == a
    ensures PadStart(Digits(a), 4) == [d0, d1, d2, d3]
  {
    FourDigits(d0, d1, d2, d3);
    PadRestores([d0, d1, d2, d3]);
  }

  lemma FourDigits(a: Nibble, b: Nibble, c: Nibble, d: Nibble)
    ensures ToNat([a, b, c, d]) == ((a * 16 + b) * 16 + c) * 16 + d
  {
    assert [a, b, c, d][..3] == [a, b, c] && [a, b, c][..2] == [a, b] && [a, b][..1] == [a] && [a][..0] == [];
    assert ToNat([a, b, c, d]) == ToNat([a, b, c]) * 16 + d;
    assert ToNat([a, b, c]) == ToNat([a, b]) * 16 + c;
    assert ToNat([a, b]) == ToNat([a]) * 16 + b;
    assert ToNat([a]) == a;
  }

  lemma HexOfThree(a: Byte, b: Byte, c: Byte)
    ensures HexOf([a, b, c]) == [a / 16, a % 16, b / 16, b % 16, c / 16, c % 16]
  {
    assert [a, b, c][1..] == [b, c] && [b, c][1..] == [c] && [c][1..] == [];
    assert HexOf([c]) == [c / 16, c % 16];
    assert HexOf([b, c]) == [b / 16, b % 16] + HexOf([c]);
  }

  /** What goes piece by piece may be done to the whole. */
  lemma {:induction false} ConcatMaps<S, T>(lists: seq<seq<S>>, images: seq<seq<T>>, f: seq<S> -> seq<T>, n: nat)
    requires n <= |lists| == |images| && f([]) == [] && forall a, b :: f(a + b) == f(a) + f(b)
    requires forall k | 0 <= k < |lists| :: images[k] == f(lists[k])
    ensures Concat(images, n) == f(Concat(lists, n))
  {
    if n > 0 {
      ConcatMaps(lists, images, f, n - 1);
    }
  }

  /** Below 65537 bytes the text is that of the bytecode. */
  lemma TextIsCode(parts: seq<Part>, n: nat)
    requires n <= |parts| && Start(parts, |parts|) <= 0x1_0000
    ensures Text(parts, n) == HexOf(ByteCode(parts, n))
  {
    forall k | 0 <= k < |parts| ensures TextPieces(parts)[k] == HexOf(Pieces(parts)[k]) { PartText(parts, k); }
    forall a, b ensures HexOf(a + b) == HexOf(a) + HexOf(b) { HexJoins(a, b); }
    ConcatMaps(Pieces(parts), TextPieces(parts), HexOf, n);
  }

  lemma PartText(parts: seq<Part>, k: nat)
    requires k < |parts| && Start(parts, |parts|) <= 0x1_0000
    ensures TextOf(parts[k], AddressFor(parts, parts[k])) == HexOf(Emitted(parts, k))
  {
    AddressFits(parts, k);
    match parts[k]
    case Code(_) =>
    case Label(_) => assert [JUMPDEST][1..] == [];
    case Jump(_) => TwoBytes(AddressFor(parts, parts[k]));
  }
}
