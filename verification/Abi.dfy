/**
 * The head and tail of an ABI-encoded tuple, and reading it back (src/bundler.ts:77-109), on the hex
 * digits after `0x`. Layout as in the Solidity Contract ABI Specification, section "Formal
 * Specification of the Encoding".
 */
module Abi {
  import opened Options
  import opened HexNumbers

  datatype Member = Word(word: Hex) | Bytes(bytes: Hex)

  function Uint(n: nat): Hex { PadStart(Digits(n), 64) }
  function U128(n: nat): Hex { PadStart(Digits(n), 32) }

  function PadRight(h: Hex): Hex {
    h + Zeros((64 - |h| % 64) % 64)
  }

  /** What a member puts in the tail: its length and its bytes, if it is dynamic. */
  function TailOf(m: Member): Hex {
    if m.Word? then [] else Uint(|m.bytes| / 2) + PadRight(m.bytes)
  }

  function TailParts(ms: seq<Member>): (parts: seq<Hex>)
    ensures |parts| == |ms|
  {
    seq(|ms|, j requires 0 <= j < |ms| => TailOf(ms[j]))
  }

  /** Where the tail of member `j` begins, in bytes from the start of the tuple. */
  function Offset(ms: seq<Member>, j: nat): nat
    requires j <= |ms|
  {
    |ms| * 32 + |Join(TailParts(ms), j)| / 2
  }

  function HeadOf(ms: seq<Member>, j: nat): Hex
    requires j < |ms|
  {
    if ms[j].Word? then ms[j].word else Uint(Offset(ms, j))
  }

  function HeadParts(ms: seq<Member>): (parts: seq<Hex>)
    ensures |parts| == |ms|
  {
    seq(|ms|, j requires 0 <= j < |ms| => HeadOf(ms, j))
  }

  function Encoded(ms: seq<Member>): Hex {
    Join(HeadParts(ms), |ms|) + Join(TailParts(ms), |ms|)
  }

  /** The bytes of a member are whole: half a byte would make its length no integer. */
  predicate Whole(m: Member) {
    m.Bytes? ==> |m.bytes| % 2 == 0
  }

  predicate WholeUpTo(ms: seq<Member>, n: nat) {
    n <= |ms| && forall j | 0 <= j < n :: Whole(ms[j])
  }

  predicate WholeBytes(ms: seq<Member>) {
    forall j | 0 <= j < |ms| :: Whole(ms[j])
  }

  lemma OneMoreWhole(ms: seq<Member>, n: nat)
    requires n < |ms| && WholeUpTo(ms, n)
    ensures WholeUpTo(ms, n + 1) <==> Whole(ms[n])
    ensures !Whole(ms[n]) ==> !WholeBytes(ms)
  {}

  /** `encodeTuple`; `BigInt` throws on the length of half a byte. */
  method EncodeTuple(ms: seq<Member>) returns (r: Option<Hex>)
    ensures r == if WholeBytes(ms) then Some(Encoded(ms)) else None
  {
    var head: Hex, tail: Hex := [], [];
    var headSize := |ms| * 32;
    for i := 0 to |ms|
      invariant head == Join(HeadParts(ms), i) && tail == Join(TailParts(ms), i)
      invariant WholeUpTo(ms, i)
    {
      OneMoreWhole(ms, i);
      if !Whole(ms[i]) {
        return None;
      }
      head, tail := WithMember(ms, i, head, tail, ms[i], headSize);
    }
    return Some(head + tail);
  }

  method WithMember(ghost ms: seq<Member>, ghost i: nat, head: Hex, tail: Hex, m: Member, headSize: nat)
    returns (head1: Hex, tail1: Hex)
    requires i < |ms| && ms[i] == m && headSize == |ms| * 32
    requires head == Join(HeadParts(ms), i) && tail == Join(TailParts(ms), i)
    ensures head1 == Join(HeadParts(ms), i + 1) && tail1 == Join(TailParts(ms), i + 1)
  {
    match m
    case Word(word) =>
      head1, tail1 := head + word, tail;
      assert HeadParts(ms)[i] == word && TailParts(ms)[i] == [];
    case Bytes(data) =>
      head1 := head + Uint(headSize + |tail| / 2);
      tail1 := tail + (Uint(|data| / 2) + PadRight(data));
      assert HeadParts(ms)[i] == Uint(headSize + |tail| / 2);
      assert TailParts(ms)[i] == Uint(|data| / 2) + PadRight(data);
  }

  // ---- reading ------------------------------------------------------------------------------------

  /** The digits of a range, as far as there are any. */
  function Slice(h: Hex, from: nat, until: nat): Hex {
    if from >= |h| || until <= from then [] else if until >= |h| then h[from..] else h[from..until]
  }

  function ReadWord(h: Hex, at: nat): nat {
    ToNat(Slice(h, at * 2, at * 2 + 64))
  }

  function ReadBytes(h: Hex, at: nat): Hex {
    Slice(h, (at + 32) * 2, (at + 32 + ReadWord(h, at)) * 2)
  }

  /** The `j`th word of a tuple at a place, and the bytes it leads to. */
  function WordAt(h: Hex, at: nat, j: nat): nat { ReadWord(h, at + 32 * j) }

  function BytesAt(h: Hex, at: nat, j: nat): Hex { ReadBytes(h, at + WordAt(h, at, j)) }

  // ---- the round trip ---------------------------------------------------------------------------------

  /** Members a struct can have: whole words and whole bytes. A length is a word too, as every length of a text is. */
  ghost predicate Encodable(ms: seq<Member>) {
    && WholeBytes(ms) && (forall j | 0 <= j < |ms| && ms[j].Word? :: |ms[j].word| == 64)
    && Fits(|Encoded(ms)|, 64)
  }

  lemma UintIs(n: nat)
    requires Fits(n, 64)
    ensures |Uint(n)| == 64 && ToNat(Uint(n)) == n
  {
    ToNatOfPadded(n, 64);
  }

  lemma UintAtLeast(n: nat)
    ensures |Uint(n)| >= 64
  {}

  lemma PadRightWhole(h: Hex)
    ensures |PadRight(h)| % 64 == 0 && h <= PadRight(h)
  {}

  lemma OffsetFits(ms: seq<Member>, j: nat)
    requires Encodable(ms) && j <= |ms|
    ensures Fits(Offset(ms, j), 64)
  {
    forall k | 0 <= k < |ms| ensures |HeadParts(ms)[k]| >= 64 {
      if ms[k].Bytes? {
        UintAtLeast(Offset(ms, k));
      }
    }
    JoinAtLeast(HeadParts(ms), 64, |ms|);
    JoinGrows(TailParts(ms), j, |ms|);
    SmallerFits(Offset(ms, j), |Encoded(ms)|, 64);
  }

  lemma HeadIs(ms: seq<Member>, j: nat)
    requires Encodable(ms) && j < |ms|
    ensures |HeadOf(ms, j)| == 64
    ensures ToNat(HeadOf(ms, j)) == if ms[j].Word? then ToNat(ms[j].word) else Offset(ms, j)
  {
    OffsetFits(ms, j);
    UintIs(Offset(ms, j));
  }

  lemma HeadsExact(ms: seq<Member>, i: nat)
    requires Encodable(ms) && i <= |ms|
    ensures |Join(HeadParts(ms), i)| == 64 * i
  {
    forall k | 0 <= k < |ms| ensures |HeadParts(ms)[k]| == 64 {
      HeadIs(ms, k);
    }
    JoinLength(HeadParts(ms), 64, i);
  }

  lemma LengthFits(ms: seq<Member>, j: nat)
    requires Encodable(ms) && j < |ms| && ms[j].Bytes?
    ensures Fits(|ms[j].bytes| / 2, 64)
  {
    JoinGrows(TailParts(ms), j + 1, |ms|);
    PadRightWhole(ms[j].bytes);
    assert |TailParts(ms)[j]| >= |ms[j].bytes|;
    SmallerFits(|ms[j].bytes| / 2, |Encoded(ms)|, 64);
  }

  lemma TailEven(m: Member)
    requires m.Bytes? ==> Fits(|m.bytes| / 2, 64)
    ensures |TailOf(m)| % 2 == 0
  {
    if m.Bytes? {
      UintIs(|m.bytes| / 2);
      PadRightWhole(m.bytes);
      EvenSize(|PadRight(m.bytes)|);
    }
  }

  lemma EvenSize(p: nat)
    requires p % 64 == 0
    ensures (64 + p) % 2 == 0
  {
    var rows := p / 64;
    assert p == 64 * rows;
    TwiceIsEven(64 + p, 32 + 32 * rows);
  }

  lemma TwiceIsEven(n: nat, half: nat)
    requires n == 2 * half
    ensures n % 2 == 0
  {}

  /** Tails are whole bytes, so the offsets that halve their lengths are exact. */
  lemma TailsWhole(ms: seq<Member>, i: nat)
    requires Encodable(ms) && i <= |ms|
    ensures |Join(TailParts(ms), i)| % 2 == 0
  {
    var parts := TailParts(ms);
    forall k | 0 <= k < |parts| ensures |parts[k]| % 2 == 0 {
      TailPartEven(ms, k);
    }
    JoinEven(parts, i);
  }

  lemma TailPartEven(ms: seq<Member>, k: nat)
    requires Encodable(ms) && k < |ms|
    ensures |TailParts(ms)[k]| % 2 == 0
  {
    if ms[k].Bytes? {
      LengthFits(ms, k);
    }
    TailEven(ms[k]);
  }

  lemma SliceIs(prefix: Hex, part: Hex, rest: Hex)
    ensures Slice(prefix + part + rest, |prefix|, |prefix| + |part|) == part
  {
    var h := prefix + part + rest;
    if part != [] {
      assert h[|prefix|..|prefix| + |part|] == part;
      assert rest == [] ==> h[|prefix|..] == part;
    }
  }

  lemma Regrouped2(p: Hex, a: Hex, b: Hex, x: Hex, c: Hex, r: Hex)
    ensures p + (a + (b + x + c)) + r == (p + a + b) + x + (c + r)
  {}

  lemma Regrouped(p: Hex, a: Hex, x: Hex, b: Hex, t: Hex, r: Hex)
    ensures p + ((a + x + b) + t) + r == (p + a) + x + (b + t + r)
  {}

  lemma HeadSplit(prefix: Hex, ms: seq<Member>, rest: Hex, j: nat) returns (after: Hex)
    requires j < |ms|
    ensures prefix + Encoded(ms) + rest == (prefix + Join(HeadParts(ms), j)) + HeadOf(ms, j) + after
  {
    var left := JoinAt(HeadParts(ms), j);
    var tails := Join(TailParts(ms), |ms|);
    after := left + tails + rest;
    Regrouped(prefix, Join(HeadParts(ms), j), HeadOf(ms, j), left, tails, rest);
  }

  lemma WordReads(before: Hex, word: Hex, rest: Hex, at: nat)
    requires |before| == 2 * at && |word| == 64
    ensures ReadWord(before + word + rest, at) == ToNat(word)
  {
    SliceIs(before, word, rest);
  }

  /** Wherever an encoded tuple stands, the word of each member's head reads back. */
  lemma HeadReads(prefix: Hex, ms: seq<Member>, rest: Hex, at: nat, j: nat)
    requires Encodable(ms) && |prefix| == 2 * at && j < |ms|
    ensures WordAt(prefix + Encoded(ms) + rest, at, j) == ToNat(HeadOf(ms, j))
  {
    HeadsExact(ms, j);
    HeadIs(ms, j);
    var after := HeadSplit(prefix, ms, rest, j);
    WordReads(prefix + Join(HeadParts(ms), j), HeadOf(ms, j), after, at + 32 * j);
  }

  /** The offset in a dynamic member's head is where its tail is. */
  lemma TailPlaced(prefix: Hex, ms: seq<Member>, at: nat, j: nat)
    requires Encodable(ms) && |prefix| == 2 * at && j < |ms|
    ensures |prefix + Join(HeadParts(ms), |ms|) + Join(TailParts(ms), j)| == 2 * (at + Offset(ms, j))
  {
    HeadsExact(ms, |ms|);
    TailsWhole(ms, j);
  }

  lemma EncodedAt(h: Hex, prefix: Hex, ms: seq<Member>, rest: Hex, at: nat, j: nat) returns (before: Hex, after: Hex)
    requires Encodable(ms) && |prefix| == 2 * at && j < |ms| && h == prefix + Encoded(ms) + rest
    ensures |before| == 2 * (at + Offset(ms, j)) && h == before + TailOf(ms[j]) + after
  {
    var left := JoinAt(TailParts(ms), j);
    before := prefix + Join(HeadParts(ms), |ms|) + Join(TailParts(ms), j);
    after := left + rest;
    TailPlaced(prefix, ms, at, j);
    Regrouped2(prefix, Join(HeadParts(ms), |ms|), Join(TailParts(ms), j), TailOf(ms[j]), left, rest);
  }

  lemma OffsetReads(prefix: Hex, ms: seq<Member>, rest: Hex, at: nat, j: nat)
    requires Encodable(ms) && |prefix| == 2 * at && j < |ms| && ms[j].Bytes?
    ensures WordAt(prefix + Encoded(ms) + rest, at, j) == Offset(ms, j)
  {
    HeadReads(prefix, ms, rest, at, j);
    HeadIs(ms, j);
  }

  lemma WholeAt(ms: seq<Member>, j: nat)
    requires WholeBytes(ms) && j < |ms| && ms[j].Bytes?
    ensures |ms[j].bytes| % 2 == 0
  {
    assert Whole(ms[j]);
  }

  lemma BytesFit(ms: seq<Member>, j: nat)
    requires Encodable(ms) && j < |ms| && ms[j].Bytes?
    ensures |ms[j].bytes| % 2 == 0 && Fits(|ms[j].bytes| / 2, 64)
  {
    LengthFits(ms, j);
    WholeAt(ms, j);
  }

  lemma TailReadsIn(h: Hex, before: Hex, m: Member, after: Hex, at: nat)
    requires h == before + TailOf(m) + after && |before| == 2 * at
    requires m.Bytes? && |m.bytes| % 2 == 0 && Fits(|m.bytes| / 2, 64)
    ensures ReadBytes(h, at) == m.bytes
  {
    TailReads(before, m.bytes, after, at);
  }

  lemma TailIsThere(h: Hex, prefix: Hex, ms: seq<Member>, rest: Hex, at: nat, j: nat, offset: nat)
    requires Encodable(ms) && |prefix| == 2 * at && j < |ms| && ms[j].Bytes? && h == prefix + Encoded(ms) + rest
    requires offset == Offset(ms, j)
    ensures ReadBytes(h, at + offset) == ms[j].bytes
  {
    var before, after := EncodedAt(h, prefix, ms, rest, at, j);
    BytesFit(ms, j);
    TailReadsIn(h, before, ms[j], after, at + offset);
  }

  /** And each dynamic member's bytes read back through its head. */
  lemma BytesRead(h: Hex, prefix: Hex, ms: seq<Member>, rest: Hex, at: nat, j: nat)
    requires Encodable(ms) && |prefix| == 2 * at && j < |ms| && ms[j].Bytes? && h == prefix + Encoded(ms) + rest
    ensures BytesAt(h, at, j) == ms[j].bytes
  {
    var offset := BytesFound(h, prefix, ms, rest, at, j);
    BytesByOffset(h, at, j, offset, ms[j].bytes);
  }

  lemma BytesFound(h: Hex, prefix: Hex, ms: seq<Member>, rest: Hex, at: nat, j: nat) returns (offset: nat)
    requires Encodable(ms) && |prefix| == 2 * at && j < |ms| && ms[j].Bytes? && h == prefix + Encoded(ms) + rest
    ensures WordAt(h, at, j) == offset && ReadBytes(h, at + offset) == ms[j].bytes
  {
    offset := Offset(ms, j);
    OffsetIsThere(h, prefix, ms, rest, at, j, offset);
    TailIsThere(h, prefix, ms, rest, at, j, offset);
  }

  lemma OffsetIsThere(h: Hex, prefix: Hex, ms: seq<Member>, rest: Hex, at: nat, j: nat, offset: nat)
    requires Encodable(ms) && |prefix| == 2 * at && j < |ms| && ms[j].Bytes? && h == prefix + Encoded(ms) + rest
    requires offset == Offset(ms, j)
    ensures WordAt(h, at, j) == offset
  {
    OffsetReads(prefix, ms, rest, at, j);
  }

  lemma BytesByOffset(h: Hex, at: nat, j: nat, offset: nat, bytes: Hex)
    requires WordAt(h, at, j) == offset && ReadBytes(h, at + offset) == bytes
    ensures BytesAt(h, at, j) == bytes
  {
  }

  lemma Regrouped3(before: Hex, size: Hex, data: Hex, padding: Hex, rest: Hex)
    ensures before + (size + (data + padding)) + rest == before + size + (data + padding + rest)
    ensures before + (size + (data + padding)) + rest == (before + size) + data + (padding + rest)
  {}

  lemma TailReads(before: Hex, data: Hex, rest: Hex, at: nat)
    requires |before| == 2 * at && |data| % 2 == 0 && Fits(|data| / 2, 64)
    ensures ReadBytes(before + (Uint(|data| / 2) + PadRight(data)) + rest, at) == data
  {
    var size, padding := Uint(|data| / 2), PadRight(data)[|data|..];
    UintIs(|data| / 2);
    PadRightWhole(data);
    assert PadRight(data) == data + padding;
    Regrouped3(before, size, data, padding, rest);
    SliceIs(before, size, data + padding + rest);
    SliceIs(before + size, data, padding + rest);
  }
}
