/**
 * User operations to EntryPoint calldata and back (src/bundler.ts:111-227). A text field is its hex
 * digits, lower case; a quantity is read from them.
 */
module Bundlers {
  import opened Options
  import opened HexNumbers
  import opened Abi

  datatype Version = V06 | V07 | V08

  /**
   * What a client put in a field: nothing, something that is no text, text that is no hex (which may be
   * the zero address spelled `0X`), or hex.
   */
  datatype Field = Absent | NotText | NotHex(zeroAddress: bool) | Text(hex: Hex)

  datatype UserOp = UserOp(
    sender: Field, nonce: Field, initCode: Field, factory: Field, factoryData: Field, callData: Field,
    callGasLimit: Field, verificationGasLimit: Field, preVerificationGas: Field, maxFeePerGas: Field,
    maxPriorityFeePerGas: Field, paymasterAndData: Field, paymaster: Field, paymasterVerificationGasLimit: Field,
    paymasterPostOpGasLimit: Field, paymasterData: Field, signature: Field)

  const NO_FIELDS := UserOp(Absent, Absent, Absent, Absent, Absent, Absent, Absent, Absent, Absent, Absent, Absent,
                            Absent, Absent, Absent, Absent, Absent, Absent)

  datatype Problem =
    | MustBeHex        // a field that is not hex text
    | MustBeAddress    // a field that is not twenty bytes of hex
    | HalfAByte        // a length that would not be a whole number of bytes

  datatype Result<+T> = Ok(value: T) | Err(problem: Problem)
  {
    predicate IsFailure() { Err? }
    function PropagateFailure<U>(): Result<U>
      requires Err?
    {
      Err(problem)
    }
    function Extract(): T
      requires Ok?
    {
      value
    }
  }

  /** A hex field that may be absent, and is then no digits at all. */
  function HexOf(f: Field): Result<Hex> {
    match f
    case Absent => Ok([])
    case Text(hex) => Ok(hex)
    case _ => Err(MustBeHex)
  }

  function Quantity(f: Field): Result<nat> {
    var hex :- HexOf(f);
    Ok(ToNat(hex))
  }

  /** An address field, which has to be there. */
  function AddressOf(f: Field): Result<Hex> {
    if f.Absent? then Err(MustBeHex)
    else
      var hex :- HexOf(f);
      if |hex| != 40 then Err(MustBeAddress) else Ok(hex)
  }

  predicate AllZero(h: Hex) {
    forall i | 0 <= i < |h| :: h[i] == 0
  }

  /** A factory or paymaster that is given: text, not `0x`, and not the zero address. */
  predicate Given(f: Field) {
    match f
    case NotHex(zeroAddress) => !zeroAddress
    case Text(hex) => hex != [] && !(|hex| == 40 && AllZero(hex))
    case _ => false
  }

  function InitCodeOf(op: UserOp): Result<Hex> {
    if Given(op.factory) then
      var factory :- AddressOf(op.factory);
      var data :- HexOf(op.factoryData);
      Ok(factory + data)
    else HexOf(op.initCode)
  }

  function PaymasterAndDataOf(op: UserOp): Result<Hex> {
    if Given(op.paymaster) then
      var paymaster :- AddressOf(op.paymaster);
      var verification :- Quantity(op.paymasterVerificationGasLimit);
      var postOp :- Quantity(op.paymasterPostOpGasLimit);
      var data :- HexOf(op.paymasterData);
      Ok(paymaster + U128(verification) + U128(postOp) + data)
    else HexOf(op.paymasterAndData)
  }

  /** The values a struct is made of. */
  datatype Parts = Parts(sender: Hex, nonce: nat, initCode: Hex, callData: Hex, callGasLimit: nat,
                         verificationGasLimit: nat, preVerificationGas: nat, maxFeePerGas: nat,
                         maxPriorityFeePerGas: nat, paymasterAndData: Hex, signature: Hex)

  function PartsOf(op: UserOp): Result<Parts> {
    var sender :- AddressOf(op.sender);
    var nonce :- Quantity(op.nonce);
    var callData :- HexOf(op.callData);
    var signature :- HexOf(op.signature);
    var initCode :- InitCodeOf(op);
    var callGasLimit :- Quantity(op.callGasLimit);
    var verificationGasLimit :- Quantity(op.verificationGasLimit);
    var preVerificationGas :- Quantity(op.preVerificationGas);
    var maxFeePerGas :- Quantity(op.maxFeePerGas);
    var maxPriorityFeePerGas :- Quantity(op.maxPriorityFeePerGas);
    var paymasterAndData :- PaymasterAndDataOf(op);
    Ok(Parts(sender, nonce, initCode, callData, callGasLimit, verificationGasLimit, preVerificationGas,
             maxFeePerGas, maxPriorityFeePerGas, paymasterAndData, signature))
  }

  function Pad(h: Hex): Hex { PadStart(h, 64) }

  /** The members of the calldata tuple: eleven in version 0.6, nine packed ones in 0.7. */
  function Members(version: Version, p: Parts): (ms: seq<Member>)
    ensures |ms| == if version.V06? then 11 else 9
  {
    if version.V06? then
      [Word(Pad(p.sender)), Word(Uint(p.nonce)), Bytes(p.initCode), Bytes(p.callData),
       Word(Uint(p.callGasLimit)), Word(Uint(p.verificationGasLimit)), Word(Uint(p.preVerificationGas)),
       Word(Uint(p.maxFeePerGas)), Word(Uint(p.maxPriorityFeePerGas)), Bytes(p.paymasterAndData), Bytes(p.signature)]
    else
      [Word(Pad(p.sender)), Word(Uint(p.nonce)), Bytes(p.initCode), Bytes(p.callData),
       Word(U128(p.verificationGasLimit) + U128(p.callGasLimit)), Word(Uint(p.preVerificationGas)),
       Word(U128(p.maxPriorityFeePerGas) + U128(p.maxFeePerGas)), Bytes(p.paymasterAndData), Bytes(p.signature)]
  }

  function Selector(version: Version): Hex {
    if version.V06? then [1, 15, 10, 13, 9, 4, 8, 12] else [7, 6, 5, 14, 8, 2, 7, 15]
  }

  const BUNDLER: Hex := [4, 3, 3, 7] + Zeros(32) + [4, 3, 3, 7]

  /** The offset of the operations, the beneficiary, their number, and the offset of the first. */
  function Preamble(): Hex { Uint(0x40) + Pad(BUNDLER) + Uint(1) + Uint(0x20) }

  /** The calldata of a call with one operation, made of its parts. */
  function Calldata(version: Version, p: Parts): Hex {
    Selector(version) + Preamble() + Encoded(Members(version, p))
  }

  function HandleOpsData(version: Version, op: UserOp): Result<Hex> {
    var parts :- PartsOf(op);
    if WholeBytes(Members(version, parts)) then Ok(Calldata(version, parts)) else Err(HalfAByte)
  }

  // ---- decoding ------------------------------------------------------------------------------------

  function QuantityText(n: nat): Field { Text(Digits(n)) }

  /** `factory` and `factoryData`, when there is any init code. */
  function WithInitCode(op: UserOp, initCode: Hex): UserOp {
    if initCode == [] then op
    else op.(factory := Text(Slice(initCode, 0, 40)), factoryData := Text(Slice(initCode, 40, |initCode|)))
  }

  function WithPaymaster(op: UserOp, data: Hex): UserOp {
    if data == [] then op
    else op.(paymaster := Text(Slice(data, 0, 40)),
             paymasterVerificationGasLimit := QuantityText(ToNat(Slice(data, 40, 72))),
             paymasterPostOpGasLimit := QuantityText(ToNat(Slice(data, 72, 104))),
             paymasterData := Text(Slice(data, 104, |data|)))
  }

  /** The operation a struct's words and bytes stand for, in the client's form. */
  function FromWords(version: Version, w: seq<nat>, b: seq<Hex>): UserOp
    requires |w| == |b| == if version.V06? then 11 else 9
  {
    var sender := Text(PadStart(Digits(w[0]), 40));
    if version.V06? then
      NO_FIELDS.(sender := sender, nonce := QuantityText(w[1]), initCode := Text(b[2]), callData := Text(b[3]),
                 callGasLimit := QuantityText(w[4]), verificationGasLimit := QuantityText(w[5]),
                 preVerificationGas := QuantityText(w[6]), maxFeePerGas := QuantityText(w[7]),
                 maxPriorityFeePerGas := QuantityText(w[8]), paymasterAndData := Text(b[9]), signature := Text(b[10]))
    else
      WithPaymaster(
        WithInitCode(
          NO_FIELDS.(sender := sender, nonce := QuantityText(w[1]), callData := Text(b[3]),
                     verificationGasLimit := QuantityText(High(w[4], 32)), callGasLimit := QuantityText(Low(w[4], 32)),
                     preVerificationGas := QuantityText(w[5]),
                     maxPriorityFeePerGas := QuantityText(High(w[6], 32)), maxFeePerGas := QuantityText(Low(w[6], 32)),
                     signature := Text(b[8])),
          b[2]),
        b[7])
  }

  function Size(version: Version): nat { if version.V06? then 11 else 9 }

  /** What the operation at `at` reads as. */
  function Decoded(version: Version, h: Hex, at: nat): UserOp {
    FromWords(version, seq(Size(version), j requires j >= 0 => WordAt(h, at, j)),
              seq(Size(version), j requires j >= 0 => BytesAt(h, at, j)))
  }

  /** The first `n` things a reader reads. */
  function FirstN<T>(read: nat -> T, n: nat): (out: seq<T>)
    ensures |out| == n
  {
    if n == 0 then [] else FirstN(read, n - 1) + [read(n - 1)]
  }

  /** Where the `i`th operation of an array at `start` begins: its offset counts from past the number of them. */
  function PlaceOf(h: Hex, start: nat, i: nat): nat { start + 32 + ReadWord(h, start + 32 + i * 32) }

  function Reader(version: Version, h: Hex, start: nat): nat -> UserOp {
    (i: nat) => Decoded(version, h, PlaceOf(h, start, i))
  }

  function DecodedOps(version: Version, input: Hex): seq<UserOp> {
    var h := Slice(input, 8, |input|);
    var start := ReadWord(h, 0);
    FirstN(Reader(version, h, start), ReadWord(h, start))
  }

  /** `decodeOps`. */
  method DecodeOps(version: Version, input: Hex) returns (out: seq<UserOp>)
    ensures out == DecodedOps(version, input)
  {
    var h := Slice(input, 8, |input|);
    var start := ReadWord(h, 0);
    out := ReadAll(Reader(version, h, start), ReadWord(h, start));
  }

  method ReadAll<T>(read: nat -> T, count: nat) returns (out: seq<T>)
    ensures out == FirstN(read, count)
  {
    out := [];
    for i := 0 to count
      invariant out == FirstN(read, i)
    {
      out := out + [read(i)];
    }
  }
}
