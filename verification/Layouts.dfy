/**
 * What stands where in the calldata of `handleOps` (src/bundler.ts:111-191), said of its digits and of the
 * operation's own fields: numbers as words, bytes as the Solidity Contract ABI Specification lays them out in
 * section "Formal Specification of the Encoding".
 */
module Layouts {
  import opened HexNumbers
  import opened Abi
  import opened Bundlers
  import opened UserOperations

  /** The number in the word at a byte offset, if the digits reach that far. */
  function NumberAt(h: Hex, at: nat): nat {
    if 2 * at + 64 <= |h| then ToNat(h[2 * at..2 * at + 64]) else 0
  }

  /** How many digits bytes take, rounded up to whole words. */
  function Rounded(digits: nat): nat { (digits + 63) / 64 * 64 }

  /** At a byte offset stand the length of some bytes, the bytes, and zeros up to a whole word. */
  ghost predicate BytesStand(h: Hex, at: nat, bytes: Hex) {
    var from := 2 * at + 64;
    && from + Rounded(|bytes|) <= |h|
    && NumberAt(h, at) == |bytes| / 2 && h[from..from + |bytes|] == bytes
    && AllZero(h[from + |bytes|..from + Rounded(|bytes|)])
  }

  // ---- one member -----------------------------------------------------------------------------------------

  lemma {:induction false} ZerosAreZero(k: nat)
    ensures AllZero(Zeros(k))
  {
    if k > 0 {
      ZerosAreZero(k - 1);
    }
  }

  lemma RoundedIs(digits: nat)
    ensures Rounded(digits) == digits + (64 - digits % 64) % 64
  {
    var rows, left := digits / 64, digits % 64;
    assert digits == 64 * rows + left;
    if left == 0 {
      assert (digits + 63) / 64 == rows;
    } else {
      assert (digits + 63) / 64 == rows + 1;
    }
  }

  lemma PaddedIs(bytes: Hex)
    ensures |PadRight(bytes)| == Rounded(|bytes|) && PadRight(bytes)[..|bytes|] == bytes
    ensures AllZero(PadRight(bytes)[|bytes|..])
  {
    RoundedIs(|bytes|);
    var k := (64 - |bytes| % 64) % 64;
    ZerosAreZero(k);
    assert PadRight(bytes)[|bytes|..] == Zeros(k);
  }

  lemma TailStands(h: Hex, before: Hex, bytes: Hex, after: Hex, at: nat)
    requires h == before + (Uint(|bytes| / 2) + PadRight(bytes)) + after && |before| == 2 * at
    requires Fits(|bytes| / 2, 64)
    ensures BytesStand(h, at, bytes)
  {
    UintIs(|bytes| / 2);
    PaddedIs(bytes);
    TailPieces(h, before, Uint(|bytes| / 2), PadRight(bytes), after, at, |bytes|);
  }

  lemma TailPieces(h: Hex, before: Hex, size: Hex, padded: Hex, after: Hex, at: nat, n: nat)
    requires h == before + (size + padded) + after && |before| == 2 * at && |size| == 64 && n <= |padded|
    ensures 2 * at + 64 + |padded| <= |h| && h[2 * at..2 * at + 64] == size
    ensures h[2 * at + 64..2 * at + 64 + n] == padded[..n]
    ensures h[2 * at + 64 + n..2 * at + 64 + |padded|] == padded[n..]
  {
  }

  lemma WordStands(h: Hex, at: nat)
    requires 2 * at + 64 <= |h|
    ensures ReadWord(h, at) == NumberAt(h, at)
  {
    assert Slice(h, at * 2, at * 2 + 64) == h[2 * at..2 * at + 64];
  }

  lemma HeadsFit(h: Hex, prefix: Hex, ms: seq<Member>, at: nat, j: nat)
    requires Encodable(ms) && |prefix| == 2 * at && j < |ms| && h == prefix + Encoded(ms)
    ensures 2 * (at + 32 * j) + 64 <= |h|
  {
    HeadsExact(ms, |ms|);
  }

  lemma HeadStands(h: Hex, prefix: Hex, ms: seq<Member>, at: nat, j: nat)
    requires Encodable(ms) && |prefix| == 2 * at && j < |ms| && h == prefix + Encoded(ms)
    ensures 2 * (at + 32 * j) + 64 <= |h| && NumberAt(h, at + 32 * j) == ToNat(HeadOf(ms, j))
  {
    HeadsFit(h, prefix, ms, at, j);
    WordStands(h, at + 32 * j);
    NothingAfter(h, prefix + Encoded(ms));
    HeadReads(prefix, ms, [], at, j);
  }

  /** The bytes of a dynamic member stand at its offset. */
  lemma BytesMemberStands(h: Hex, prefix: Hex, ms: seq<Member>, at: nat, j: nat, place: nat)
    requires Encodable(ms) && |prefix| == 2 * at && j < |ms| && h == prefix + Encoded(ms) && ms[j].Bytes?
    requires place == at + Offset(ms, j)
    ensures BytesStand(h, place, ms[j].bytes)
  {
    NothingAfter(h, prefix + Encoded(ms));
    var before, after := EncodedAt(h, prefix, ms, [], at, j);
    BytesFit(ms, j);
    MemberTailStands(h, before, ms[j], after, place);
  }

  lemma NothingAfter(h: Hex, g: Hex)
    requires h == g
    ensures h == g + []
  {}

  lemma MemberTailStands(h: Hex, before: Hex, m: Member, after: Hex, at: nat)
    requires h == before + TailOf(m) + after && |before| == 2 * at && m.Bytes? && Fits(|m.bytes| / 2, 64)
    ensures BytesStand(h, at, m.bytes)
  {
    TailStands(h, before, m.bytes, after, at);
  }

  /** Where the head of a dynamic member points. */
  lemma HeadPoints(h: Hex, prefix: Hex, ms: seq<Member>, at: nat, j: nat)
    requires Encodable(ms) && |prefix| == 2 * at && j < |ms| && h == prefix + Encoded(ms)
    ensures 2 * (at + 32 * j) + 64 <= |h|
    ensures NumberAt(h, at + 32 * j) == if ms[j].Word? then ToNat(ms[j].word) else Offset(ms, j)
  {
    HeadStands(h, prefix, ms, at, j);
    HeadIs(ms, j);
  }

  // ---- whole words ------------------------------------------------------------------------------------------

  lemma {:induction false} JoinWhole(parts: seq<Hex>, i: nat)
    requires i <= |parts| && forall k | 0 <= k < |parts| :: |parts[k]| % 64 == 0
    ensures |Join(parts, i)| % 64 == 0
  {
    if i > 0 {
      JoinWhole(parts, i - 1);
      SumOfWords(|Join(parts, i - 1)|, |parts[i - 1]|);
    }
  }

  lemma SumOfWords(a: nat, b: nat)
    requires a % 64 == 0 && b % 64 == 0
    ensures (a + b) % 64 == 0
  {
    assert a == 64 * (a / 64) && b == 64 * (b / 64);
    assert a + b == 64 * (a / 64 + b / 64);
  }

  lemma MemberTailWords(m: Member)
    requires m.Bytes? ==> Fits(|m.bytes| / 2, 64)
    ensures |TailOf(m)| % 64 == 0
  {
    if m.Bytes? {
      UintIs(|m.bytes| / 2);
      PadRightWhole(m.bytes);
      SumOfWords(64, |PadRight(m.bytes)|);
    }
  }

  lemma TailIsWords(ms: seq<Member>, k: nat)
    requires Encodable(ms) && k < |ms|
    ensures |TailParts(ms)[k]| % 64 == 0
  {
    if ms[k].Bytes? {
      LengthFits(ms, k);
    }
    MemberTailWords(ms[k]);
  }

  /** A tuple is whole words. */
  lemma TupleIsWords(ms: seq<Member>)
    requires Encodable(ms)
    ensures |Encoded(ms)| % 64 == 0
  {
    forall k | 0 <= k < |ms| ensures |TailParts(ms)[k]| % 64 == 0 { TailIsWords(ms, k); }
    JoinWhole(TailParts(ms), |ms|);
    HeadsExact(ms, |ms|);
    WordsAreWords(|ms|);
    SumOfWords(64 * |ms|, |Join(TailParts(ms), |ms|)|);
  }

  lemma WordsAreWords(n: nat)
    ensures (64 * n) % 64 == 0
  {}

  // ---- the calldata of one operation ------------------------------------------------------------------------

  /** The digits a client put in a field; none where there is no hex. */
  function TextOf(f: Field): Hex {
    match f
    case Text(hex) => hex
    case _ => []
  }

  function NumberOf(f: Field): nat { ToNat(TextOf(f)) }

  /** The init code: the factory and its data where one is given, or as given packed. */
  function InitCode(op: UserOp): Hex {
    if Given(op.factory) then TextOf(op.factory) + TextOf(op.factoryData) else TextOf(op.initCode)
  }

  /** The paymaster data: address, verification limit, post-operation limit and data where one is given. */
  function PaymasterData(op: UserOp): Hex {
    if Given(op.paymaster) then
      TextOf(op.paymaster)
      + PadStart(Digits(NumberOf(op.paymasterVerificationGasLimit)), 32)
      + PadStart(Digits(NumberOf(op.paymasterPostOpGasLimit)), 32)
      + TextOf(op.paymasterData)
    else TextOf(op.paymasterAndData)
  }

  /** The word of member `j` of a struct that stands at byte 128. */
  function FieldAt(h: Hex, j: nat): nat { NumberAt(h, 128 + 32 * j) }

  ghost predicate BytesAtField(h: Hex, j: nat, bytes: Hex) {
    BytesStand(h, 128 + FieldAt(h, j), bytes)
  }

  /** Eleven members: one field in each. */
  ghost predicate Struct06(op: UserOp, h: Hex) {
    && 256 + 64 * 11 <= |h|
    && FieldAt(h, 0) == NumberOf(op.sender) && FieldAt(h, 1) == NumberOf(op.nonce)
    && FieldAt(h, 4) == NumberOf(op.callGasLimit) && FieldAt(h, 5) == NumberOf(op.verificationGasLimit)
    && FieldAt(h, 6) == NumberOf(op.preVerificationGas) && FieldAt(h, 7) == NumberOf(op.maxFeePerGas)
    && FieldAt(h, 8) == NumberOf(op.maxPriorityFeePerGas)
    && BytesAtField(h, 2, InitCode(op)) && BytesAtField(h, 3, TextOf(op.callData))
    && BytesAtField(h, 9, PaymasterData(op)) && BytesAtField(h, 10, TextOf(op.signature))
  }

  /** A word of two halves, sixteen bytes each. */
  predicate Packs(word: nat, high: nat, low: nat) {
    word == high * 0x1_0000_0000_0000_0000_0000_0000_0000_0000 + low
  }

  /** Nine members, two of which hold two numbers each. */
  ghost predicate Struct07(op: UserOp, h: Hex) {
    && 256 + 64 * 9 <= |h|
    && FieldAt(h, 0) == NumberOf(op.sender) && FieldAt(h, 1) == NumberOf(op.nonce)
    && Packs(FieldAt(h, 4), NumberOf(op.verificationGasLimit), NumberOf(op.callGasLimit))
    && FieldAt(h, 5) == NumberOf(op.preVerificationGas)
    && Packs(FieldAt(h, 6), NumberOf(op.maxPriorityFeePerGas), NumberOf(op.maxFeePerGas))
    && BytesAtField(h, 2, InitCode(op)) && BytesAtField(h, 3, TextOf(op.callData))
    && BytesAtField(h, 7, PaymasterData(op)) && BytesAtField(h, 8, TextOf(op.signature))
  }

  /** The words before the struct: where the operations are, who is paid, how many there are, and where the first is. */
  ghost predicate Opens(h: Hex) {
    && 256 <= |h| && NumberAt(h, 0) == 0x40 && NumberAt(h, 32) == 0x4337000000000000000000000000000000004337
    && NumberAt(h, 64) == 1 && NumberAt(h, 96) == 0x20
  }

  lemma BundlerIs()
    ensures |Pad(BUNDLER)| == 64 && ToNat(Pad(BUNDLER)) == 0x4337000000000000000000000000000000004337
  {
    var end: Hex := [4, 3, 3, 7];
    ToNatOfZeros(24, BUNDLER);
    FourDigitsAre();
    ToNatOfJoin(end + Zeros(32), end);
    ToNatOfJoin(end, Zeros(32));
    ToNatOfZeros(32, []);
    assert Zeros(32) + [] == Zeros(32);
    Powers();
  }

  lemma FourDigitsAre()
    ensures ToNat([4, 3, 3, 7]) == 0x4337
  {
    var h: Hex := [4, 3, 3, 7];
    assert h[..3] == [4, 3, 3] && [4, 3, 3][..2] == [4, 3] && [4, 3][..1] == [4] && [4][..0] == [];
    assert ToNat([4, 3, 3]) == ToNat([4, 3]) * 16 + 3 && ToNat([4, 3]) == ToNat([4]) * 16 + 3;
  }

  lemma {:induction false} PowerSum(a: nat, b: nat)
    ensures Pow16(a + b) == Pow16(a) * Pow16(b)
  {
    if a > 0 {
      PowerSum(a - 1, b);
      assert Pow16(a + b) == 16 * Pow16(a - 1 + b);
    }
  }

  lemma Powers()
    ensures Pow16(4) == 0x1_0000 && Pow16(32) == 0x1_0000_0000_0000_0000_0000_0000_0000_0000
  {
    assert Pow16(4) == 16 * Pow16(3) && Pow16(3) == 16 * Pow16(2) && Pow16(2) == 16 * Pow16(1) && Pow16(1) == 16 * Pow16(0);
    PowerSum(4, 4);
    PowerSum(8, 8);
    PowerSum(16, 16);
  }

  lemma WordsOfFour(a: Hex, b: Hex, c: Hex, d: Hex, rest: Hex)
    requires |a| == |b| == |c| == |d| == 64
    ensures var h := a + b + c + d + rest;
            256 <= |h| && h[0..64] == a && h[64..128] == b && h[128..192] == c && h[192..256] == d
  {}

  lemma PreambleOpens(tuple: Hex)
    ensures |Preamble()| == 256 && Opens(Preamble() + tuple)
  {
    SmallUint(0x40);
    SmallUint(1);
    SmallUint(0x20);
    BundlerIs();
    WordsOfFour(Uint(0x40), Pad(BUNDLER), Uint(1), Uint(0x20), tuple);
  }

  /** Every member of a struct that stands at byte 128 is in its place. */
  ghost predicate Stand(h: Hex, ms: seq<Member>) {
    && 256 + 64 * |ms| <= |h|
    && (forall j | 0 <= j < |ms| && ms[j].Word? :: FieldAt(h, j) == ToNat(ms[j].word))
    && (forall j | 0 <= j < |ms| && ms[j].Bytes? :: BytesAtField(h, j, ms[j].bytes))
  }

  lemma FieldPoints(h: Hex, prefix: Hex, ms: seq<Member>, j: nat)
    requires Encodable(ms) && h == prefix + Encoded(ms) && |prefix| == 256 && j < |ms|
    ensures 256 + 64 * j + 64 <= |h|
    ensures FieldAt(h, j) == if ms[j].Word? then ToNat(ms[j].word) else Offset(ms, j)
  {
    HeadPoints(h, prefix, ms, 128, j);
  }

  lemma FieldStands(h: Hex, prefix: Hex, ms: seq<Member>, j: nat)
    requires Encodable(ms) && h == prefix + Encoded(ms) && |prefix| == 256 && j < |ms|
    ensures 256 + 64 * j + 64 <= |h|
    ensures ms[j].Word? ==> FieldAt(h, j) == ToNat(ms[j].word)
    ensures ms[j].Bytes? ==> BytesAtField(h, j, ms[j].bytes)
  {
    FieldPoints(h, prefix, ms, j);
    if ms[j].Bytes? {
      BytesFieldStands(h, prefix, ms, j, ms[j].bytes);
    }
  }

  lemma BytesFieldStands(h: Hex, prefix: Hex, ms: seq<Member>, j: nat, bytes: Hex)
    requires Encodable(ms) && h == prefix + Encoded(ms) && |prefix| == 256 && j < |ms| && ms[j] == Bytes(bytes)
    requires FieldAt(h, j) == Offset(ms, j)
    ensures BytesAtField(h, j, bytes)
  {
    BytesMemberStands(h, prefix, ms, 128, j, 128 + Offset(ms, j));
    BytesAtTheirField(h, j, bytes, 128 + Offset(ms, j));
  }

  lemma BytesAtTheirField(h: Hex, j: nat, bytes: Hex, place: nat)
    requires BytesStand(h, place, bytes) && place == 128 + FieldAt(h, j)
    ensures BytesAtField(h, j, bytes)
  {
  }

  lemma AllStand(h: Hex, prefix: Hex, ms: seq<Member>)
    requires Encodable(ms) && h == prefix + Encoded(ms) && |prefix| == 256 && ms != []
    ensures Stand(h, ms)
  {
    FieldStands(h, prefix, ms, |ms| - 1);
    forall j | 0 <= j < |ms| && ms[j].Word? ensures FieldAt(h, j) == ToNat(ms[j].word) { FieldStands(h, prefix, ms, j); }
    forall j | 0 <= j < |ms| && ms[j].Bytes? ensures BytesAtField(h, j, ms[j].bytes) { FieldStands(h, prefix, ms, j); }
  }

  lemma SenderField(h: Hex, ms: seq<Member>, sender: Hex)
    requires Stand(h, ms) && ms != [] && ms[0] == Word(Pad(sender)) && |sender| == 40
    ensures FieldAt(h, 0) == ToNat(sender)
  {
    ToNatOfZeros(24, sender);
  }

  lemma NumberField(h: Hex, ms: seq<Member>, j: nat, n: nat)
    requires Stand(h, ms) && j < |ms| && ms[j] == Word(Uint(n)) && Fits(n, 64)
    ensures FieldAt(h, j) == n
  {
    UintBack(n);
  }

  lemma PackedField(h: Hex, ms: seq<Member>, j: nat, high: nat, low: nat)
    requires Stand(h, ms) && j < |ms| && ms[j] == Word(U128(high) + U128(low)) && Fits(high, 32) && Fits(low, 32)
    ensures Packs(FieldAt(h, j), high, low)
  {
    Powers();
    ToNatOfPadded(high, 32);
    ToNatOfPadded(low, 32);
    ToNatOfJoin(U128(high), U128(low));
  }

  lemma BytesField(h: Hex, ms: seq<Member>, j: nat, bytes: Hex)
    requires Stand(h, ms) && j < |ms| && ms[j] == Bytes(bytes)
    ensures BytesAtField(h, j, bytes)
  {
  }

  /** The values of a version 0.6 struct, in their places. */
  ghost predicate Numbers06(p: Parts, h: Hex) {
    && FieldAt(h, 0) == ToNat(p.sender) && FieldAt(h, 1) == p.nonce
    && FieldAt(h, 4) == p.callGasLimit && FieldAt(h, 5) == p.verificationGasLimit && FieldAt(h, 6) == p.preVerificationGas
    && FieldAt(h, 7) == p.maxFeePerGas && FieldAt(h, 8) == p.maxPriorityFeePerGas
  }

  ghost predicate Bytes06(p: Parts, h: Hex) {
    && BytesAtField(h, 2, p.initCode) && BytesAtField(h, 3, p.callData)
    && BytesAtField(h, 9, p.paymasterAndData) && BytesAtField(h, 10, p.signature)
  }

  ghost predicate Numbers07(p: Parts, h: Hex) {
    && FieldAt(h, 0) == ToNat(p.sender) && FieldAt(h, 1) == p.nonce
    && Packs(FieldAt(h, 4), p.verificationGasLimit, p.callGasLimit) && FieldAt(h, 5) == p.preVerificationGas
    && Packs(FieldAt(h, 6), p.maxPriorityFeePerGas, p.maxFeePerGas)
  }

  ghost predicate Bytes07(p: Parts, h: Hex) {
    && BytesAtField(h, 2, p.initCode) && BytesAtField(h, 3, p.callData)
    && BytesAtField(h, 7, p.paymasterAndData) && BytesAtField(h, 8, p.signature)
  }

  lemma NumbersStand06(p: Parts, h: Hex, ms: seq<Member>)
    requires ms == Members(V06, p) && Stand(h, ms) && |p.sender| == 40 && InRange(V06, p)
    ensures Numbers06(p, h)
  {
    var ns := [p.callGasLimit, p.verificationGasLimit, p.preVerificationGas, p.maxFeePerGas, p.maxPriorityFeePerGas];
    SenderField(h, ms, p.sender);
    NonceField(h, ms, p);
    FiveAre(p, ms, ns);
    FiveNumbers(h, ms, ns);
  }

  lemma NonceField(h: Hex, ms: seq<Member>, p: Parts)
    requires ms == Members(V06, p) && Stand(h, ms) && InRange(V06, p)
    ensures FieldAt(h, 1) == p.nonce
  {
    NumberField(h, ms, 1, p.nonce);
  }

  lemma FiveAre(p: Parts, ms: seq<Member>, ns: seq<nat>)
    requires ms == Members(V06, p) && InRange(V06, p)
    requires ns == [p.callGasLimit, p.verificationGasLimit, p.preVerificationGas, p.maxFeePerGas, p.maxPriorityFeePerGas]
    ensures |ms| > 8 && (forall i | 0 <= i < 5 :: Fits(ns[i], 64)) && forall i | 0 <= i < 5 :: ms[4..][i] == Word(Uint(ns[i]))
  {
    RangesApply(V06, p);
  }

  lemma FiveNumbers(h: Hex, ms: seq<Member>, ns: seq<nat>)
    requires Stand(h, ms) && |ms| > 8 && |ns| == 5 && forall i | 0 <= i < 5 :: Fits(ns[i], 64)
    requires forall i | 0 <= i < 5 :: ms[4..][i] == Word(Uint(ns[i]))
    ensures FieldAt(h, 4) == ns[0] && FieldAt(h, 5) == ns[1] && FieldAt(h, 6) == ns[2]
    ensures FieldAt(h, 7) == ns[3] && FieldAt(h, 8) == ns[4]
  {
    forall i | 0 <= i < 5 ensures FieldAt(h, 4 + i) == ns[i] {
      assert ms[4..][i] == ms[4 + i];
      NumberField(h, ms, 4 + i, ns[i]);
    }
  }

  lemma BytesStand06(p: Parts, h: Hex, ms: seq<Member>)
    requires ms == Members(V06, p) && Stand(h, ms)
    ensures Bytes06(p, h)
  {
    BytesField(h, ms, 2, p.initCode);
    BytesField(h, ms, 3, p.callData);
    BytesField(h, ms, 9, p.paymasterAndData);
    BytesField(h, ms, 10, p.signature);
  }

  lemma NumbersStand07(version: Version, p: Parts, h: Hex, ms: seq<Member>)
    requires !version.V06? && ms == Members(version, p) && Stand(h, ms) && |p.sender| == 40 && InRange(version, p)
    ensures Numbers07(p, h)
  {
    RangesApply(version, p);
    SenderField(h, ms, p.sender);
    NumberField(h, ms, 1, p.nonce);
    PackedField(h, ms, 4, p.verificationGasLimit, p.callGasLimit);
    NumberField(h, ms, 5, p.preVerificationGas);
    PackedField(h, ms, 6, p.maxPriorityFeePerGas, p.maxFeePerGas);
  }

  lemma BytesStand07(version: Version, p: Parts, h: Hex, ms: seq<Member>)
    requires !version.V06? && ms == Members(version, p) && Stand(h, ms)
    ensures Bytes07(p, h)
  {
    BytesField(h, ms, 2, p.initCode);
    BytesField(h, ms, 3, p.callData);
    BytesField(h, ms, 7, p.paymasterAndData);
    BytesField(h, ms, 8, p.signature);
  }

  /** Which field of the operation each value is. */
  lemma PartsAre(op: UserOp)
    requires PartsOf(op).Ok?
    ensures var p := PartsOf(op).value;
            && p.sender == TextOf(op.sender) && |p.sender| == 40 && p.nonce == NumberOf(op.nonce)
            && p.initCode == InitCode(op) && p.callData == TextOf(op.callData)
            && p.callGasLimit == NumberOf(op.callGasLimit) && p.verificationGasLimit == NumberOf(op.verificationGasLimit)
            && p.preVerificationGas == NumberOf(op.preVerificationGas) && p.maxFeePerGas == NumberOf(op.maxFeePerGas)
            && p.maxPriorityFeePerGas == NumberOf(op.maxPriorityFeePerGas)
            && p.paymasterAndData == PaymasterData(op) && p.signature == TextOf(op.signature)
  {
  }

  lemma StructStands(version: Version, op: UserOp, h: Hex, ms: seq<Member>, p: Parts)
    requires PartsOf(op).Ok? && p == PartsOf(op).value && ms == Members(version, p) && Stand(h, ms) && InRange(version, p)
    ensures if version.V06? then Struct06(op, h) else Struct07(op, h)
  {
    PartsAre(op);
    if version.V06? {
      NumbersStand06(p, h, ms);
      BytesStand06(p, h, ms);
    } else {
      NumbersStand07(version, p, h, ms);
      BytesStand07(version, p, h, ms);
    }
  }

  lemma SelectorIs(version: Version)
    ensures |Selector(version)| == 8 && ToNat(Selector(version)) == if version.V06? then 0x1fad948c else 0x765e827f
  {
    if version.V06? {
      EightDigits(1, 15, 10, 13, 9, 4, 8, 12);
    } else {
      EightDigits(7, 6, 5, 14, 8, 2, 7, 15);
    }
  }

  lemma EightDigits(a: Nibble, b: Nibble, c: Nibble, d: Nibble, e: Nibble, f: Nibble, g: Nibble, h: Nibble)
    ensures ToNat([a, b, c, d, e, f, g, h]) ==
            ((((((a * 16 + b) * 16 + c) * 16 + d) * 16 + e) * 16 + f) * 16 + g) * 16 + h
  {
    var w: Hex := [a, b, c, d, e, f, g, h];
    assert w[..7] == [a, b, c, d, e, f, g] && w[..7][..6] == [a, b, c, d, e, f] && w[..7][..6][..5] == [a, b, c, d, e];
    assert [a, b, c, d, e][..4] == [a, b, c, d] && [a, b, c, d][..3] == [a, b, c] && [a, b, c][..2] == [a, b];
    assert [a, b][..1] == [a] && [a][..0] == [];
    assert ToNat([a, b, c, d, e]) == (((a * 16 + b) * 16 + c) * 16 + d) * 16 + e by {
      assert ToNat([a, b]) == ToNat([a]) * 16 + b && ToNat([a, b, c]) == ToNat([a, b]) * 16 + c;
      assert ToNat([a, b, c, d]) == ToNat([a, b, c]) * 16 + d;
    }
    assert ToNat([a, b, c, d, e, f]) == ToNat([a, b, c, d, e]) * 16 + f;
    assert ToNat([a, b, c, d, e, f, g]) == ToNat([a, b, c, d, e, f]) * 16 + g;
  }

  /** The calldata of one operation: the selector of its version, the words before the struct, and the struct. */
  ghost predicate Laid(version: Version, op: UserOp, data: Hex) {
    && |data| >= 8 && (|data| - 8) % 64 == 0
    && ToNat(data[..8]) == (if version.V06? then 0x1fad948c else 0x765e827f)
    && Opens(data[8..]) && if version.V06? then Struct06(op, data[8..]) else Struct07(op, data[8..])
  }

  lemma LaidIs(version: Version, op: UserOp, data: Hex, selector: Hex, h: Hex)
    requires |data| == 8 + |h| && data[..8] == selector && data[8..] == h && ToNat(selector) == (if version.V06? then 0x1fad948c else 0x765e827f)
    requires |h| % 64 == 0 && Opens(h) && if version.V06? then Struct06(op, h) else Struct07(op, h)
    ensures Laid(version, op, data)
  {
  }

  /**
   * Where everything stands. For every operation in range, its calldata is the selector of its version, then whole
   * words: the offset of the operations, the address that is paid, one operation and its offset, and the struct
   * with each of the operation's own fields in its place.
   */
  lemma HandleOpsLayout(version: Version, op: UserOp)
    requires HandleOpsData(version, op).Ok? && InRange(version, PartsOf(op).value)
    ensures Laid(version, op, HandleOpsData(version, op).value)
  {
    var p := PartsOf(op).value;
    var ms := Members(version, p);
    DataIs(version, op, p, ms);
    SelectorIs(version);
    BodyStands(version, op, p, ms, Preamble() + Encoded(ms));
    CutAt8(Selector(version), Preamble() + Encoded(ms));
    LaidIs(version, op, HandleOpsData(version, op).value, Selector(version), Preamble() + Encoded(ms));
  }

  lemma CalldataIs(version: Version, op: UserOp)
    requires HandleOpsData(version, op).Ok?
    ensures var p := PartsOf(op).value;
            WholeBytes(Members(version, p)) && HandleOpsData(version, op).value == Calldata(version, p)
  {
  }

  lemma JoinedRight(a: Hex, b: Hex, c: Hex)
    ensures a + b + c == a + (b + c)
  {}

  lemma DataIs(version: Version, op: UserOp, p: Parts, ms: seq<Member>)
    requires HandleOpsData(version, op).Ok? && p == PartsOf(op).value && ms == Members(version, p)
    ensures WholeBytes(ms) && HandleOpsData(version, op).value == Selector(version) + (Preamble() + Encoded(ms))
  {
    CalldataIs(version, op);
    JoinedRight(Selector(version), Preamble(), Encoded(ms));
  }

  lemma CutAt8(selector: Hex, h: Hex)
    requires |selector| == 8
    ensures var data := selector + h; data[..8] == selector && data[8..] == h && |data| - 8 == |h|
  {}

  lemma BodyStands(version: Version, op: UserOp, p: Parts, ms: seq<Member>, h: Hex)
    requires PartsOf(op).Ok? && p == PartsOf(op).value && ms == Members(version, p) && InRange(version, p) && WholeBytes(ms)
    requires h == Preamble() + Encoded(ms)
    ensures |h| % 64 == 0 && Opens(h) && if version.V06? then Struct06(op, h) else Struct07(op, h)
  {
    PartsAre(op);
    CanEncode(version, p, ms);
    PreambleOpens(Encoded(ms));
    BodyIs(h, Preamble(), ms);
    StructStands(version, op, h, ms, p);
  }

  lemma BodyIs(h: Hex, prefix: Hex, ms: seq<Member>)
    requires Encodable(ms) && ms != [] && |prefix| == 256 && h == prefix + Encoded(ms)
    ensures |h| % 64 == 0 && Stand(h, ms)
  {
    AllStand(h, prefix, ms);
    TupleIsWords(ms);
    SumOfWords(256, |Encoded(ms)|);
  }

  lemma CanEncode(version: Version, p: Parts, ms: seq<Member>)
    requires |p.sender| == 40 && InRange(version, p) && ms == Members(version, p) && WholeBytes(ms)
    ensures Encodable(ms)
  {
    RangesApply(version, p);
    if version.V06? {
      Sized06(p);
    } else {
      Sized07(version, p);
    }
  }

  // ---- which operations can be encoded ----------------------------------------------------------------------

  /** Hex, or nothing given. */
  predicate Readable(f: Field) { f.Absent? || f.Text? }

  predicate IsAddress(f: Field) { f.Text? && |f.hex| == 40 }

  /** The fields the struct takes are readable, and the addresses it takes are addresses. */
  predicate FieldsRead(op: UserOp) {
    && IsAddress(op.sender) && Readable(op.nonce) && Readable(op.callData) && Readable(op.signature)
    && Readable(op.callGasLimit) && Readable(op.verificationGasLimit) && Readable(op.preVerificationGas)
    && Readable(op.maxFeePerGas) && Readable(op.maxPriorityFeePerGas)
    && (if Given(op.factory) then IsAddress(op.factory) && Readable(op.factoryData) else Readable(op.initCode))
    && (if Given(op.paymaster) then
          && IsAddress(op.paymaster) && Readable(op.paymasterVerificationGasLimit)
          && Readable(op.paymasterPostOpGasLimit) && Readable(op.paymasterData)
        else Readable(op.paymasterAndData))
  }

  lemma ReadsIff(f: Field)
    ensures HexOf(f).Ok? <==> Readable(f)
    ensures Quantity(f).Ok? <==> Readable(f)
    ensures AddressOf(f).Ok? <==> IsAddress(f)
  {
  }

  lemma InitCodeIff(op: UserOp)
    ensures InitCodeOf(op).Ok? <==>
            if Given(op.factory) then IsAddress(op.factory) && Readable(op.factoryData) else Readable(op.initCode)
  {
    ReadsIff(op.factory);
    ReadsIff(op.factoryData);
    ReadsIff(op.initCode);
  }

  lemma PaymasterIff(op: UserOp)
    ensures PaymasterAndDataOf(op).Ok? <==>
            if Given(op.paymaster) then
              && IsAddress(op.paymaster) && Readable(op.paymasterVerificationGasLimit)
              && Readable(op.paymasterPostOpGasLimit) && Readable(op.paymasterData)
            else Readable(op.paymasterAndData)
  {
    ReadsIff(op.paymaster);
    ReadsIff(op.paymasterVerificationGasLimit);
    ReadsIff(op.paymasterPostOpGasLimit);
    ReadsIff(op.paymasterData);
    ReadsIff(op.paymasterAndData);
  }

  lemma PartsNeed(op: UserOp)
    ensures PartsOf(op).Ok? <==>
            && AddressOf(op.sender).Ok? && Quantity(op.nonce).Ok? && HexOf(op.callData).Ok? && HexOf(op.signature).Ok?
            && InitCodeOf(op).Ok? && Quantity(op.callGasLimit).Ok? && Quantity(op.verificationGasLimit).Ok?
            && Quantity(op.preVerificationGas).Ok? && Quantity(op.maxFeePerGas).Ok? && Quantity(op.maxPriorityFeePerGas).Ok?
            && PaymasterAndDataOf(op).Ok?
  {
  }

  lemma PartsIff(op: UserOp)
    ensures PartsOf(op).Ok? <==> FieldsRead(op)
  {
    PartsNeed(op);
    ReadsIff(op.sender);
    ReadsIff(op.nonce);
    ReadsIff(op.callData);
    ReadsIff(op.signature);
    ReadsIff(op.callGasLimit);
    ReadsIff(op.verificationGasLimit);
    ReadsIff(op.preVerificationGas);
    ReadsIff(op.maxFeePerGas);
    ReadsIff(op.maxPriorityFeePerGas);
    InitCodeIff(op);
    PaymasterIff(op);
  }

  /**
   * An operation can be encoded exactly when the fields its struct takes are readable, its addresses are twenty
   * bytes, and none of its byte strings ends on half a byte.
   */
  lemma EncodesIff(version: Version, op: UserOp)
    ensures HandleOpsData(version, op).Ok? <==>
            && FieldsRead(op)
            && |InitCode(op)| % 2 == 0 && |TextOf(op.callData)| % 2 == 0
            && |PaymasterData(op)| % 2 == 0 && |TextOf(op.signature)| % 2 == 0
  {
    PartsIff(op);
    if PartsOf(op).Ok? {
      PartsAre(op);
      WholeMembers(version, PartsOf(op).value);
    }
  }

  lemma WholeMembers(version: Version, p: Parts)
    ensures WholeBytes(Members(version, p)) <==>
            |p.initCode| % 2 == 0 && |p.callData| % 2 == 0 && |p.paymasterAndData| % 2 == 0 && |p.signature| % 2 == 0
  {
    var ms := Members(version, p);
    if version.V06? {
      assert Whole(ms[2]) && Whole(ms[3]) && Whole(ms[9]) && Whole(ms[10]) <==>
             |p.initCode| % 2 == 0 && |p.callData| % 2 == 0 && |p.paymasterAndData| % 2 == 0 && |p.signature| % 2 == 0;
    } else {
      assert Whole(ms[2]) && Whole(ms[3]) && Whole(ms[7]) && Whole(ms[8]) <==>
             |p.initCode| % 2 == 0 && |p.callData| % 2 == 0 && |p.paymasterAndData| % 2 == 0 && |p.signature| % 2 == 0;
    }
  }
}
