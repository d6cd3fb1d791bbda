/** When the decoded form of a user operation makes the calldata it was read from. */
module Reencodings {
  import opened Options
  import opened HexNumbers
  import opened Abi
  import opened Bundlers
  import opened UserOperations

  lemma QuantityAgain(n: nat)
    ensures Quantity(QuantityText(n)) == Ok(n)
  {
    ToNatOfDigits(n);
  }

  lemma SliceParts(h: Hex, at: nat)
    requires at <= |h|
    ensures Slice(h, 0, at) == h[..at] && Slice(h, at, |h|) == h[at..]
  {}

  /** The init code a decoded operation makes: none, if its factory reads as the zero address. */
  function InitCodeAgain(h: Hex): Result<Hex> {
    if h == [] then Ok([])
    else if |h| < 40 then Err(MustBeAddress)
    else if AllZero(h[..40]) then Ok([])
    else Ok(h)
  }

  lemma InitCodeReads(op: UserOp, h: Hex)
    requires op.factory.Absent? && op.initCode.Absent?
    ensures InitCodeOf(WithInitCode(op, h)) == InitCodeAgain(h)
  {
    if |h| >= 40 {
      SliceParts(h, 40);
      assert h[..40] + h[40..] == h;
    } else {
      assert Slice(h, 0, 40) == h;
    }
  }

  /** The paymaster data a decoded operation makes: its two gas limits always take their full width. */
  function PaymasterAgain(h: Hex): Result<Hex> {
    if h == [] then Ok([])
    else if |h| < 40 then Err(MustBeAddress)
    else if AllZero(h[..40]) then Ok([])
    else Ok(h[..40] + U128(ToNat(Slice(h, 40, 72))) + U128(ToNat(Slice(h, 72, 104))) + Slice(h, 104, |h|))
  }

  lemma PaymasterReads(op: UserOp, h: Hex)
    requires op.paymaster.Absent? && op.paymasterAndData.Absent?
    ensures PaymasterAndDataOf(WithPaymaster(op, h)) == PaymasterAgain(h)
  {
    QuantityAgain(ToNat(Slice(h, 40, 72)));
    QuantityAgain(ToNat(Slice(h, 72, 104)));
    if |h| >= 40 {
      SliceParts(h, 40);
    } else {
      assert Slice(h, 0, 40) == h;
    }
  }

  lemma LimitFits(h: Hex)
    requires |h| <= 32
    ensures |U128(ToNat(h))| == 32 && (|h| == 32 ==> U128(ToNat(h)) == h)
  {
    ToNatBound(h);
    FitsIs(ToNat(h), 32);
    PowGrows(|h|, 32);
    ToNatOfPadded(ToNat(h), 32);
    if |h| == 32 {
      PadRestores(h);
    }
  }

  lemma {:induction false} PowGrows(a: nat, b: nat)
    requires a <= b
    ensures Pow16(a) <= Pow16(b)
    decreases b - a
  {
    if a < b {
      PowGrows(a, b - 1);
    }
  }

  /** Which init code and paymaster data come back as they were. */
  predicate InitCodeStands(h: Hex) { h == [] || (|h| >= 40 && !AllZero(h[..40])) }

  predicate PaymasterStands(h: Hex) { h == [] || (|h| >= 104 && !AllZero(h[..40])) }

  lemma PaymasterStandsIff(h: Hex)
    ensures PaymasterAgain(h) == Ok(h) <==> PaymasterStands(h)
  {
    if |h| >= 40 && !AllZero(h[..40]) {
      var v, p := Slice(h, 40, 72), Slice(h, 72, 104);
      LimitFits(v);
      LimitFits(p);
      if |h| >= 104 {
        assert v == h[40..72] && p == h[72..104] && Slice(h, 104, |h|) == h[104..];
        assert h == h[..40] + h[40..72] + h[72..104] + h[104..];
      } else {
        assert |h[..40] + U128(ToNat(v)) + U128(ToNat(p)) + Slice(h, 104, |h|)| == 104;
      }
    }
  }

  // ---- the parts of a decoded operation -----------------------------------------------------------

  lemma PartsAgain06(p: Parts)
    requires |p.sender| == 40
    ensures PartsOf(Unpacked(V06, p)) == Ok(p)
  {
    QuantityAgain(p.nonce);
    QuantityAgain(p.callGasLimit);
    QuantityAgain(p.verificationGasLimit);
    QuantityAgain(p.preVerificationGas);
    QuantityAgain(p.maxFeePerGas);
    QuantityAgain(p.maxPriorityFeePerGas);
  }

  lemma PartsAgain07(version: Version, p: Parts)
    requires !version.V06? && |p.sender| == 40
    ensures var i, m := InitCodeAgain(p.initCode), PaymasterAgain(p.paymasterAndData);
            PartsOf(Unpacked(version, p)) ==
            if i.Err? then Err(i.problem) else if m.Err? then Err(m.problem)
            else Ok(p.(initCode := i.value, paymasterAndData := m.value))
  {
    QuantityAgain(p.nonce);
    QuantityAgain(p.callGasLimit);
    QuantityAgain(p.verificationGasLimit);
    QuantityAgain(p.preVerificationGas);
    QuantityAgain(p.maxFeePerGas);
    QuantityAgain(p.maxPriorityFeePerGas);
    var shared := NO_FIELDS.(
      sender := Text(p.sender), nonce := QuantityText(p.nonce), callData := Text(p.callData),
      callGasLimit := QuantityText(p.callGasLimit), verificationGasLimit := QuantityText(p.verificationGasLimit),
      preVerificationGas := QuantityText(p.preVerificationGas), maxFeePerGas := QuantityText(p.maxFeePerGas),
      maxPriorityFeePerGas := QuantityText(p.maxPriorityFeePerGas), signature := Text(p.signature));
    InitCodeReads(shared, p.initCode);
    PaymasterReads(WithInitCode(shared, p.initCode), p.paymasterAndData);
    assert InitCodeOf(WithPaymaster(WithInitCode(shared, p.initCode), p.paymasterAndData)) == InitCodeOf(WithInitCode(shared, p.initCode));
  }

  // ---- the same calldata ----------------------------------------------------------------------------

  lemma EncodableParts(version: Version, p: Parts)
    requires !version.V06? && |p.sender| == 40 && InRange(version, p) && WholeBytes(Members(version, p))
    ensures Encodable(Members(version, p))
  {
    RangesApply(version, p);
    Sized07(version, p);
  }

  lemma SameEncoding(version: Version, p: Parts, q: Parts)
    requires Calldata(version, p) == Calldata(version, q)
    ensures Encoded(Members(version, p)) == Encoded(Members(version, q))
  {
    var prefix := Selector(version) + Preamble();
    assert Calldata(version, p)[|prefix|..] == Encoded(Members(version, p));
    assert Calldata(version, q)[|prefix|..] == Encoded(Members(version, q));
  }

  /** Equal calldata holds equal init code and paymaster data. */
  lemma CalldataTellsApart(version: Version, p: Parts, q: Parts)
    requires !version.V06? && |p.sender| == 40 && InRange(version, p)
    requires q == p.(initCode := q.initCode, paymasterAndData := q.paymasterAndData)
    requires WholeBytes(Members(version, p)) && WholeBytes(Members(version, q))
    requires Calldata(version, p) == Calldata(version, q)
    ensures p == q
  {
    SameEncoding(version, p, q);
    EncodableParts(version, p);
    EncodableParts(version, q);
    PreambleReads([]);
    var h := Preamble() + Encoded(Members(version, p));
    StructReads(h, Preamble(), Members(version, p));
    StructReads(h, Preamble(), Members(version, q));
    BytesOfStruct(version, p, h);
    BytesOfStruct(version, q, h);
  }

  lemma BytesOfStruct(version: Version, p: Parts, h: Hex)
    requires !version.V06?
    requires forall j | 0 <= j < 9 && Members(version, p)[j].Bytes? :: BytesAt(h, 128, j) == Members(version, p)[j].bytes
    ensures p.initCode == BytesAt(h, 128, 2) && p.paymasterAndData == BytesAt(h, 128, 7)
  {
    var ms := Members(version, p);
    assert ms[2].Bytes? && ms[7].Bytes?;
  }

  /**
   * The decoded form makes the same calldata again exactly when the struct is version 0.6's, or its init
   * code is empty or begins with a non-zero factory, and its paymaster data is empty or begins with a
   * non-zero paymaster and both its gas limits.
   */
  lemma SameCalldataAgainIff(version: Version, op: UserOp)
    requires HandleOpsData(version, op).Ok? && InRange(version, PartsOf(op).value)
    ensures var p, calldata := PartsOf(op).value, HandleOpsData(version, op);
            && |DecodedOps(version, calldata.value)| == 1
            && (HandleOpsData(version, DecodedOps(version, calldata.value)[0]) == calldata <==>
                version.V06? || (InitCodeStands(p.initCode) && PaymasterStands(p.paymasterAndData)))
  {
    DecodesToParts(version, op);
    SameCalldataFromParts(version, op);
  }

  lemma SameCalldataFromParts(version: Version, op: UserOp)
    requires HandleOpsData(version, op).Ok? && InRange(version, PartsOf(op).value)
    ensures var p := PartsOf(op).value;
            HandleOpsData(version, Unpacked(version, p)) == HandleOpsData(version, op) <==>
            version.V06? || (InitCodeStands(p.initCode) && PaymasterStands(p.paymasterAndData))
  {
    var p := PartsOf(op).value;
    PartsHaveASender(op);
    if version.V06? {
      PartsAgain06(p);
    } else {
      PartsAgain07(version, p);
      PaymasterStandsIff(p.paymasterAndData);
      var again := PartsOf(Unpacked(version, p));
      if again.Ok? {
        AgainIff(version, p, again.value);
      }
    }
  }

  lemma AgainIff(version: Version, p: Parts, q: Parts)
    requires !version.V06? && |p.sender| == 40 && InRange(version, p) && WholeBytes(Members(version, p))
    requires q == p.(initCode := q.initCode, paymasterAndData := q.paymasterAndData)
    ensures WholeBytes(Members(version, q)) && Calldata(version, q) == Calldata(version, p) <==> q == p
  {
    if WholeBytes(Members(version, q)) && Calldata(version, q) == Calldata(version, p) {
      CalldataTellsApart(version, p, q);
    }
  }
}
