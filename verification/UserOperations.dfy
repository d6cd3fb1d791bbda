/** A user operation survives its calldata, and when its decoded form makes the same calldata again. */
module UserOperations {
  import opened Options
  import opened HexNumbers
  import opened Abi
  import opened Bundlers

  /** The struct's own numbers fit the words, or the halves of words, they are put in; and the whole has a length. */
  ghost predicate InRange(version: Version, p: Parts) {
    && Fits(p.nonce, 64) && Fits(p.preVerificationGas, 64)
    && (forall n | n in [p.callGasLimit, p.verificationGasLimit, p.maxFeePerGas, p.maxPriorityFeePerGas] ::
          Fits(n, if version.V06? then 64 else 32))
    && Fits(|Encoded(Members(version, p))|, 64)
  }

  /** What a decoder shows of a struct's parts: no leading zeros, packed fields taken apart where they are cut. */
  function Unpacked(version: Version, p: Parts): UserOp {
    var shared := NO_FIELDS.(
      sender := Text(p.sender), nonce := QuantityText(p.nonce), callData := Text(p.callData),
      callGasLimit := QuantityText(p.callGasLimit), verificationGasLimit := QuantityText(p.verificationGasLimit),
      preVerificationGas := QuantityText(p.preVerificationGas), maxFeePerGas := QuantityText(p.maxFeePerGas),
      maxPriorityFeePerGas := QuantityText(p.maxPriorityFeePerGas), signature := Text(p.signature));
    if version.V06? then shared.(initCode := Text(p.initCode), paymasterAndData := Text(p.paymasterAndData))
    else WithPaymaster(WithInitCode(shared, p.initCode), p.paymasterAndData)
  }

  lemma SenderReads(sender: Hex)
    requires |sender| == 40
    ensures |Pad(sender)| == 64 && PadStart(Digits(ToNat(Pad(sender))), 40) == sender
  {
    ToNatOfZeros(24, sender);
    PadRestores(sender);
  }

  lemma PackedReads(high: nat, low: nat)
    requires Fits(high, 32) && Fits(low, 32)
    ensures |U128(high) + U128(low)| == 64
    ensures High(ToNat(U128(high) + U128(low)), 32) == high && Low(ToNat(U128(high) + U128(low)), 32) == low
  {
    ToNatOfPadded(high, 32);
    ToNatOfPadded(low, 32);
    HalvesOfJoin(U128(high), U128(low));
  }

  /** The words of a version 0.6 struct are its numbers. */
  ghost predicate Words06(p: Parts, w: seq<nat>, b: seq<Hex>)
    requires |w| == |b| == 11
  {
    && PadStart(Digits(w[0]), 40) == p.sender && w[1] == p.nonce && b[2] == p.initCode && b[3] == p.callData
    && w[4] == p.callGasLimit && w[5] == p.verificationGasLimit && w[6] == p.preVerificationGas
    && w[7] == p.maxFeePerGas && w[8] == p.maxPriorityFeePerGas && b[9] == p.paymasterAndData && b[10] == p.signature
  }

  /** Those of a packed struct hold two numbers each in two places. */
  ghost predicate Words07(p: Parts, w: seq<nat>, b: seq<Hex>)
    requires |w| == |b| == 9
  {
    && PadStart(Digits(w[0]), 40) == p.sender && w[1] == p.nonce && b[2] == p.initCode && b[3] == p.callData
    && High(w[4], 32) == p.verificationGasLimit && Low(w[4], 32) == p.callGasLimit
    && w[5] == p.preVerificationGas
    && High(w[6], 32) == p.maxPriorityFeePerGas && Low(w[6], 32) == p.maxFeePerGas
    && b[7] == p.paymasterAndData && b[8] == p.signature
  }

  lemma FromWords07(version: Version, p: Parts, w: seq<nat>, b: seq<Hex>)
    requires !version.V06? && |w| == |b| == 9 && Words07(p, w, b)
    ensures FromWords(version, w, b) == Unpacked(version, p)
  {}

  // ---- where the tuple stands ------------------------------------------------------------------------

  lemma FourWords(a: Hex, b: Hex, c: Hex, d: Hex, rest: Hex)
    requires |a| == |b| == |c| == |d| == 64
    ensures |a + b + c + d| == 256
    ensures var h := a + b + c + d + rest;
            ReadWord(h, 0) == ToNat(a) && ReadWord(h, 64) == ToNat(c) && ReadWord(h, 96) == ToNat(d)
  {
    var h := a + b + c + d + rest;
    assert h == [] + a + (b + c + d + rest) == (a + b) + c + (d + rest) == (a + b + c) + d + rest;
    WordReads([], a, b + c + d + rest, 0);
    WordReads(a + b, c, d + rest, 64);
    WordReads(a + b + c, d, rest, 96);
  }

  lemma PreambleReads(tuple: Hex)
    ensures |Preamble()| == 256
    ensures var h := Preamble() + tuple; ReadWord(h, 0) == 64 && ReadWord(h, 64) == 1 && ReadWord(h, 96) == 32
  {
    SmallUint(0x40);
    SmallUint(1);
    SmallUint(0x20);
    FourWords(Uint(0x40), Pad(BUNDLER), Uint(1), Uint(0x20), tuple);
  }

  lemma SmallUint(n: nat)
    requires n < 256
    ensures |Uint(n)| == 64 && ToNat(Uint(n)) == n
  {
    UintIs(n);
  }

  lemma SelectorDropped(version: Version, rest: Hex)
    ensures Slice(Selector(version) + rest, 8, |Selector(version) + rest|) == rest
  {}

  /** The calldata is one operation, whose struct follows the preamble. */
  lemma OneOperation(version: Version, p: Parts)
    ensures DecodedOps(version, Calldata(version, p)) ==
            [Decoded(version, Preamble() + Encoded(Members(version, p)), 128)]
  {
    var tuple := Encoded(Members(version, p));
    assert Calldata(version, p) == Selector(version) + (Preamble() + tuple);
    SelectorDropped(version, Preamble() + tuple);
    PreambleReads(tuple);
    ReadOnce(Reader(version, Preamble() + tuple, 64));
  }

  lemma ReadOnce<T>(read: nat -> T)
    ensures FirstN(read, 1) == [read(0)]
  {
    assert FirstN(read, 0) == [];
  }

  // ---- what the tuple's words read as -----------------------------------------------------------------

  lemma WordIs(h: Hex, prefix: Hex, ms: seq<Member>, j: nat)
    requires Encodable(ms) && |prefix| == 256 && j < |ms| && ms[j].Word? && h == prefix + Encoded(ms) + []
    ensures WordAt(h, 128, j) == ToNat(ms[j].word)
  {
    HeadReads(prefix, ms, [], 128, j);
    HeadIs(ms, j);
  }

  /** Every struct reads back, member by member, where the preamble leaves it. */
  lemma StructReads(h: Hex, prefix: Hex, ms: seq<Member>)
    requires Encodable(ms) && |prefix| == 256 && h == prefix + Encoded(ms)
    ensures forall j | 0 <= j < |ms| && ms[j].Word? :: WordAt(h, 128, j) == ToNat(ms[j].word)
    ensures forall j | 0 <= j < |ms| && ms[j].Bytes? :: BytesAt(h, 128, j) == ms[j].bytes
  {
    forall j | 0 <= j < |ms| && ms[j].Word? ensures WordAt(h, 128, j) == ToNat(ms[j].word) {
      WordIs(h, prefix, ms, j);
    }
    forall j | 0 <= j < |ms| && ms[j].Bytes? ensures BytesAt(h, 128, j) == ms[j].bytes {
      BytesRead(h, prefix, ms, [], 128, j);
    }
  }

  // ---- the round trip -----------------------------------------------------------------------------

  lemma PartsHaveASender(op: UserOp)
    requires PartsOf(op).Ok?
    ensures |PartsOf(op).value.sender| == 40
  {}

  lemma UintSize(n: nat)
    requires Fits(n, 64)
    ensures |Uint(n)| == 64
  {
    UintIs(n);
  }

  lemma UintBack(n: nat)
    requires Fits(n, 64)
    ensures ToNat(Uint(n)) == n
  {
    UintIs(n);
  }

  predicate WordsSized(ms: seq<Member>) {
    forall j | 0 <= j < |ms| && ms[j].Word? :: |ms[j].word| == 64
  }

  lemma Sized06(p: Parts)
    requires |p.sender| == 40 && Fits(p.nonce, 64) && Fits(p.callGasLimit, 64) && Fits(p.verificationGasLimit, 64)
    requires Fits(p.preVerificationGas, 64) && Fits(p.maxFeePerGas, 64) && Fits(p.maxPriorityFeePerGas, 64)
    ensures WordsSized(Members(V06, p))
  {
    var ms := Members(V06, p);
    assert |ms[0].word| == 64 by { SenderReads(p.sender); }
    assert |ms[1].word| == 64 by { UintSize(p.nonce); }
    assert |ms[4].word| == 64 by { UintSize(p.callGasLimit); }
    assert |ms[5].word| == 64 by { UintSize(p.verificationGasLimit); }
    assert |ms[6].word| == 64 by { UintSize(p.preVerificationGas); }
    assert |ms[7].word| == 64 by { UintSize(p.maxFeePerGas); }
    assert |ms[8].word| == 64 by { UintSize(p.maxPriorityFeePerGas); }
  }

  lemma Sized07(version: Version, p: Parts)
    requires !version.V06? && |p.sender| == 40 && Fits(p.nonce, 64) && Fits(p.preVerificationGas, 64)
    requires Fits(p.callGasLimit, 32) && Fits(p.verificationGasLimit, 32)
    requires Fits(p.maxFeePerGas, 32) && Fits(p.maxPriorityFeePerGas, 32)
    ensures WordsSized(Members(version, p))
  {
    var ms := Members(version, p);
    assert |ms[0].word| == 64 by { SenderReads(p.sender); }
    assert |ms[1].word| == 64 by { UintSize(p.nonce); }
    assert |ms[4].word| == 64 by { PackedReads(p.verificationGasLimit, p.callGasLimit); }
    assert |ms[5].word| == 64 by { UintSize(p.preVerificationGas); }
    assert |ms[6].word| == 64 by { PackedReads(p.maxPriorityFeePerGas, p.maxFeePerGas); }
  }

  /** The struct's words and bytes, read at a place. */
  ghost predicate ReadsAs(w: seq<nat>, b: seq<Hex>, ms: seq<Member>) {
    && |w| == |b| == |ms|
    && (forall j | 0 <= j < |ms| && ms[j].Word? :: w[j] == ToNat(ms[j].word))
    && (forall j | 0 <= j < |ms| && ms[j].Bytes? :: b[j] == ms[j].bytes)
  }

  lemma Meaning06(p: Parts, w: seq<nat>, b: seq<Hex>)
    requires |p.sender| == 40 && Fits(p.nonce, 64) && Fits(p.callGasLimit, 64) && Fits(p.verificationGasLimit, 64)
    requires Fits(p.preVerificationGas, 64) && Fits(p.maxFeePerGas, 64) && Fits(p.maxPriorityFeePerGas, 64)
    requires ReadsAs(w, b, Members(V06, p))
    ensures |w| == |b| == 11 && Words06(p, w, b)
  {
    var ms := Members(V06, p);
    assert b[2] == ms[2].bytes && b[3] == ms[3].bytes && b[9] == ms[9].bytes && b[10] == ms[10].bytes;
    assert PadStart(Digits(w[0]), 40) == p.sender by { assert w[0] == ToNat(ms[0].word); SenderReads(p.sender); }
    assert w[1] == p.nonce by { assert w[1] == ToNat(ms[1].word); UintBack(p.nonce); }
    assert w[4] == p.callGasLimit by { assert w[4] == ToNat(ms[4].word); UintBack(p.callGasLimit); }
    assert w[5] == p.verificationGasLimit by { assert w[5] == ToNat(ms[5].word); UintBack(p.verificationGasLimit); }
    assert w[6] == p.preVerificationGas by { assert w[6] == ToNat(ms[6].word); UintBack(p.preVerificationGas); }
    assert w[7] == p.maxFeePerGas by { assert w[7] == ToNat(ms[7].word); UintBack(p.maxFeePerGas); }
    assert w[8] == p.maxPriorityFeePerGas by { assert w[8] == ToNat(ms[8].word); UintBack(p.maxPriorityFeePerGas); }
  }

  lemma Meaning07(version: Version, p: Parts, w: seq<nat>, b: seq<Hex>)
    requires !version.V06? && |p.sender| == 40 && Fits(p.nonce, 64) && Fits(p.preVerificationGas, 64)
    requires Fits(p.callGasLimit, 32) && Fits(p.verificationGasLimit, 32)
    requires Fits(p.maxFeePerGas, 32) && Fits(p.maxPriorityFeePerGas, 32)
    requires ReadsAs(w, b, Members(version, p))
    ensures |w| == |b| == 9 && Words07(p, w, b)
  {
    var ms := Members(version, p);
    assert b[2] == ms[2].bytes && b[3] == ms[3].bytes && b[7] == ms[7].bytes && b[8] == ms[8].bytes;
    assert PadStart(Digits(w[0]), 40) == p.sender by { assert w[0] == ToNat(ms[0].word); SenderReads(p.sender); }
    assert w[1] == p.nonce by { assert w[1] == ToNat(ms[1].word); UintBack(p.nonce); }
    assert High(w[4], 32) == p.verificationGasLimit && Low(w[4], 32) == p.callGasLimit by {
      assert w[4] == ToNat(ms[4].word);
      PackedReads(p.verificationGasLimit, p.callGasLimit);
    }
    assert w[5] == p.preVerificationGas by { assert w[5] == ToNat(ms[5].word); UintBack(p.preVerificationGas); }
    assert High(w[6], 32) == p.maxPriorityFeePerGas && Low(w[6], 32) == p.maxFeePerGas by {
      assert w[6] == ToNat(ms[6].word);
      PackedReads(p.maxPriorityFeePerGas, p.maxFeePerGas);
    }
  }

  /** A struct that stands after the preamble decodes to what it was made of. */
  lemma StructDecodes(version: Version, p: Parts)
    requires |p.sender| == 40 && InRange(version, p) && WholeBytes(Members(version, p))
    ensures Decoded(version, Preamble() + Encoded(Members(version, p)), 128) == Unpacked(version, p)
  {
    var ms := Members(version, p);
    var h := Preamble() + Encoded(ms);
    var w := seq(Size(version), j requires j >= 0 => WordAt(h, 128, j));
    var b := seq(Size(version), j requires j >= 0 => BytesAt(h, 128, j));
    PreambleReads([]);
    RangesApply(version, p);
    if version.V06? {
      Sized06(p);
      StructReads(h, Preamble(), ms);
      Meaning06(p, w, b);
    } else {
      Sized07(version, p);
      StructReads(h, Preamble(), ms);
      Meaning07(version, p, w, b);
      FromWords07(version, p, w, b);
    }
  }

  lemma RangesApply(version: Version, p: Parts)
    requires InRange(version, p)
    ensures var width := if version.V06? then 64 else 32;
            && Fits(p.callGasLimit, width) && Fits(p.verificationGasLimit, width)
            && Fits(p.maxFeePerGas, width) && Fits(p.maxPriorityFeePerGas, width)
  {
    var all := [p.callGasLimit, p.verificationGasLimit, p.maxFeePerGas, p.maxPriorityFeePerGas];
    assert all[0] in all && all[1] in all && all[2] in all && all[3] in all;
  }

  /** The calldata decodes to one operation: what its struct's parts show. */
  lemma DecodesToParts(version: Version, op: UserOp)
    requires HandleOpsData(version, op).Ok? && InRange(version, PartsOf(op).value)
    ensures DecodedOps(version, HandleOpsData(version, op).value) == [Unpacked(version, PartsOf(op).value)]
  {
    PartsHaveASender(op);
    OneOperation(version, PartsOf(op).value);
    StructDecodes(version, PartsOf(op).value);
  }

  // ---- the operation itself ---------------------------------------------------------------------------

  /** A text field as given, and nothing given as no digits. */
  function Shown(f: Field): Field
    requires HexOf(f).Ok?
  {
    Text(HexOf(f).value)
  }

  /** A number field as given, without leading zeros. */
  function Plain(f: Field): Field
    requires Quantity(f).Ok?
  {
    QuantityText(Quantity(f).value)
  }

  /** The fields every version has one by one. */
  function SharedFields(op: UserOp): UserOp
    requires PartsOf(op).Ok?
  {
    NO_FIELDS.(sender := Shown(op.sender), nonce := Plain(op.nonce), callData := Shown(op.callData),
               callGasLimit := Plain(op.callGasLimit), verificationGasLimit := Plain(op.verificationGasLimit),
               preVerificationGas := Plain(op.preVerificationGas), maxFeePerGas := Plain(op.maxFeePerGas),
               maxPriorityFeePerGas := Plain(op.maxPriorityFeePerGas), signature := Shown(op.signature))
  }

  /** The factory and its data as given; init code given packed is cut after the address. */
  function WithFactory(op: UserOp, shown: UserOp): UserOp
    requires PartsOf(op).Ok?
  {
    if Given(op.factory) then shown.(factory := Shown(op.factory), factoryData := Shown(op.factoryData))
    else WithInitCode(shown, HexOf(op.initCode).value)
  }

  /** The paymaster, its two gas limits and its data as given; data given packed is cut where they stand. */
  function WithGivenPaymaster(op: UserOp, shown: UserOp): UserOp
    requires PartsOf(op).Ok?
  {
    if Given(op.paymaster) then
      shown.(paymaster := Shown(op.paymaster),
             paymasterVerificationGasLimit := Plain(op.paymasterVerificationGasLimit),
             paymasterPostOpGasLimit := Plain(op.paymasterPostOpGasLimit),
             paymasterData := Shown(op.paymasterData))
    else WithPaymaster(shown, HexOf(op.paymasterAndData).value)
  }

  /** The operation in canonical form, field by field from what the client gave; version 0.6 keeps two of them packed. */
  function Canonical(version: Version, op: UserOp): UserOp
    requires PartsOf(op).Ok?
  {
    if version.V06? then
      SharedFields(op).(initCode := Text(InitCodeOf(op).value), paymasterAndData := Text(PaymasterAndDataOf(op).value))
    else
      WithGivenPaymaster(op, WithFactory(op, SharedFields(op)))
  }

  /** Both limits of a given paymaster fit the halves of a word they are packed in. */
  predicate LimitsFit(op: UserOp)
    requires PartsOf(op).Ok?
  {
    Given(op.paymaster) ==>
      && Fits(Quantity(op.paymasterVerificationGasLimit).value, 32)
      && Fits(Quantity(op.paymasterPostOpGasLimit).value, 32)
  }

  lemma FactoryComesBack(op: UserOp, shown: UserOp)
    requires PartsOf(op).Ok?
    ensures WithInitCode(shown, InitCodeOf(op).value) == WithFactory(op, shown)
  {
    if Given(op.factory) {
      var factory, data := HexOf(op.factory).value, HexOf(op.factoryData).value;
      assert InitCodeOf(op).value == factory + data && |factory| == 40;
      SliceIs([], factory, data);
      SliceIs(factory, data, []);
      assert [] + factory + data == factory + data && factory + data + [] == factory + data;
    }
  }

  /** A number that does not fit is not what any of its digits' first thirty-two say. */
  lemma CutShort(n: nat, h: Hex)
    requires !Fits(n, 32) && |h| == 32
    ensures QuantityText(ToNat(h)) != QuantityText(n)
  {
    ToNatBound(h);
    FitsIs(ToNat(h), 32);
  }

  /** Packed paymaster data, cut where a decoder cuts it. */
  lemma PackedSlices(a: Hex, v: Hex, p: Hex, d: Hex, packed: Hex)
    requires packed == a + v + p + d && |a| == 40 && |v| >= 32 && |p| >= 32
    ensures Slice(packed, 0, 40) == a && Slice(packed, 40, 72) == v[..32]
    ensures |v| == 32 ==> Slice(packed, 72, 104) == p[..32]
    ensures |v| == 32 && |p| == 32 ==> Slice(packed, 104, |packed|) == d
  {
    SliceIs([], a, v + p + d);
    assert packed == [] + a + (v + p + d);
    SliceIs(a, v[..32], v[32..] + p + d);
    assert packed == a + v[..32] + (v[32..] + p + d);
    if |v| == 32 {
      SliceIs(a + v, p[..32], p[32..] + d);
      assert packed == (a + v) + p[..32] + (p[32..] + d);
      if |p| == 32 {
        SliceIs(a + v + p, d, []);
        assert packed == (a + v + p) + d + [];
      }
    }
  }

  lemma HalfSize(n: nat)
    ensures |U128(n)| >= 32 && (|U128(n)| == 32 <==> Fits(n, 32))
    ensures Fits(n, 32) ==> ToNat(U128(n)) == n
  {
    if Fits(n, 32) {
      ToNatOfPadded(n, 32);
    }
  }

  /** Four fields packed, and shown cut apart, are the four fields exactly when both numbers fit. */
  lemma PackedShows(shown: UserOp, a: Hex, v: nat, p: nat, d: Hex, packed: Hex)
    requires packed == a + U128(v) + U128(p) + d && |a| == 40
    ensures WithPaymaster(shown, packed) ==
            shown.(paymaster := Text(a), paymasterVerificationGasLimit := QuantityText(v),
                   paymasterPostOpGasLimit := QuantityText(p), paymasterData := Text(d))
            <==> Fits(v, 32) && Fits(p, 32)
  {
    HalfSize(v);
    HalfSize(p);
    PackedSlices(a, U128(v), U128(p), d, packed);
    var cut := WithPaymaster(shown, packed);
    assert packed != [];
    assert cut.paymasterVerificationGasLimit == QuantityText(ToNat(U128(v)[..32]));
    if !Fits(v, 32) {
      CutShort(v, U128(v)[..32]);
    } else {
      assert U128(v)[..32] == U128(v);
      assert cut.paymasterPostOpGasLimit == QuantityText(ToNat(U128(p)[..32]));
      if !Fits(p, 32) {
        CutShort(p, U128(p)[..32]);
      } else {
        assert U128(p)[..32] == U128(p);
      }
    }
  }

  /** A given paymaster comes back with its data and both its limits exactly when the limits fit. */
  lemma PaymasterComesBackIff(op: UserOp, shown: UserOp)
    requires PartsOf(op).Ok?
    ensures WithPaymaster(shown, PaymasterAndDataOf(op).value) == WithGivenPaymaster(op, shown) <==> LimitsFit(op)
  {
    if Given(op.paymaster) {
      PackedShows(shown, HexOf(op.paymaster).value, Quantity(op.paymasterVerificationGasLimit).value,
                  Quantity(op.paymasterPostOpGasLimit).value, HexOf(op.paymasterData).value, PaymasterAndDataOf(op).value);
    }
  }

  lemma UnpackedIsCanonicalIff(version: Version, op: UserOp)
    requires PartsOf(op).Ok?
    ensures Unpacked(version, PartsOf(op).value) == Canonical(version, op) <==> version.V06? || LimitsFit(op)
  {
    if !version.V06? {
      var p := PartsOf(op).value;
      FactoryComesBack(op, SharedFields(op));
      PaymasterComesBackIff(op, WithFactory(op, SharedFields(op)));
      assert Unpacked(version, p) == WithPaymaster(WithInitCode(SharedFields(op), p.initCode), p.paymasterAndData);
    }
  }

  /**
   * For every operation in range, in every version, the calldata decodes to that one operation in
   * canonical form, exactly when it is version 0.6's or the limits of a paymaster it gives fit.
   */
  lemma OperationSurvivesCalldata(version: Version, op: UserOp)
    requires HandleOpsData(version, op).Ok? && InRange(version, PartsOf(op).value)
    ensures DecodedOps(version, HandleOpsData(version, op).value) == [Canonical(version, op)] <==>
            version.V06? || LimitsFit(op)
  {
    DecodesToParts(version, op);
    UnpackedIsCanonicalIff(version, op);
  }
}
