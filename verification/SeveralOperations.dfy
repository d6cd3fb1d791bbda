/**
 * Calldata with any number of operations (src/bundler.ts:194-227): wherever each of them stands, the decoder finds
 * it through its offset.
 */
module SeveralOperations {
  import opened HexNumbers
  import opened Abi
  import opened Bundlers
  import opened UserOperations
  import opened Layouts

  lemma StructReadsAt(h: Hex, prefix: Hex, ms: seq<Member>, rest: Hex, at: nat)
    requires Encodable(ms) && |prefix| == 2 * at && h == prefix + Encoded(ms) + rest
    ensures forall j | 0 <= j < |ms| && ms[j].Word? :: WordAt(h, at, j) == ToNat(ms[j].word)
    ensures forall j | 0 <= j < |ms| && ms[j].Bytes? :: BytesAt(h, at, j) == ms[j].bytes
  {
    forall j | 0 <= j < |ms| && ms[j].Word? ensures WordAt(h, at, j) == ToNat(ms[j].word) {
      WordReadsAt(h, prefix, ms, rest, at, j);
    }
    forall j | 0 <= j < |ms| && ms[j].Bytes? ensures BytesAt(h, at, j) == ms[j].bytes {
      BytesRead(h, prefix, ms, rest, at, j);
    }
  }

  lemma WordReadsAt(h: Hex, prefix: Hex, ms: seq<Member>, rest: Hex, at: nat, j: nat)
    requires Encodable(ms) && |prefix| == 2 * at && h == prefix + Encoded(ms) + rest && j < |ms| && ms[j].Word?
    ensures WordAt(h, at, j) == ToNat(ms[j].word)
  {
    HeadReads(prefix, ms, rest, at, j);
    HeadIs(ms, j);
  }

  /** A struct that stands anywhere decodes to what it was made of. */
  lemma StructDecodesAt(version: Version, p: Parts, h: Hex, prefix: Hex, rest: Hex, at: nat)
    requires |p.sender| == 40 && InRange(version, p) && WholeBytes(Members(version, p))
    requires |prefix| == 2 * at && h == prefix + Encoded(Members(version, p)) + rest
    ensures Decoded(version, h, at) == Unpacked(version, p)
  {
    var ms := Members(version, p);
    CanEncode(version, p, ms);
    StructReadsAt(h, prefix, ms, rest, at);
    WordsDecode(version, p, ms, h, at);
  }

  lemma WordsDecode(version: Version, p: Parts, ms: seq<Member>, h: Hex, at: nat)
    requires |p.sender| == 40 && InRange(version, p) && ms == Members(version, p)
    requires forall j | 0 <= j < |ms| && ms[j].Word? :: WordAt(h, at, j) == ToNat(ms[j].word)
    requires forall j | 0 <= j < |ms| && ms[j].Bytes? :: BytesAt(h, at, j) == ms[j].bytes
    ensures Decoded(version, h, at) == Unpacked(version, p)
  {
    var w := seq(Size(version), j requires j >= 0 => WordAt(h, at, j));
    var b := seq(Size(version), j requires j >= 0 => BytesAt(h, at, j));
    RangesApply(version, p);
    if version.V06? {
      Meaning06(p, w, b);
    } else {
      Meaning07(version, p, w, b);
      FromWords07(version, p, w, b);
    }
  }

  lemma {:induction false} FirstNIs<T>(read: nat -> T, n: nat, i: nat)
    requires i < n
    ensures FirstN(read, n)[i] == read(i)
  {
    if i < n - 1 {
      FirstNIs(read, n - 1, i);
    }
  }

  /** The struct of these values stands at a byte offset, whatever is around it. */
  ghost predicate Stands(version: Version, p: Parts, h: Hex, at: nat) {
    var tuple := Encoded(Members(version, p));
    && |p.sender| == 40 && InRange(version, p) && WholeBytes(Members(version, p))
    && 2 * at + |tuple| <= |h| && h[2 * at..2 * at + |tuple|] == tuple
  }

  lemma StandingDecodes(version: Version, p: Parts, h: Hex, at: nat)
    requires Stands(version, p, h, at)
    ensures Decoded(version, h, at) == Unpacked(version, p)
  {
    var n := |Encoded(Members(version, p))|;
    Around(h, 2 * at, 2 * at + n);
    StructDecodesAt(version, p, h, h[..2 * at], h[2 * at + n..], at);
  }

  lemma Around(h: Hex, from: nat, until: nat)
    requires from <= until <= |h|
    ensures h == h[..from] + h[from..until] + h[until..]
  {}

  lemma ReadsFrom(version: Version, input: Hex, h: Hex, start: nat, n: nat)
    requires |input| >= 8 && h == input[8..] && 64 <= |h| && NumberAt(h, 0) == start
    requires 2 * start + 64 <= |h| && NumberAt(h, start) == n
    ensures DecodedOps(version, input) == FirstN(Reader(version, h, start), n)
  {
    assert Slice(input, 8, |input|) == h;
    WordStands(h, 0);
    WordStands(h, start);
  }

  lemma PlaceIs(h: Hex, start: nat, i: nat, at: nat)
    requires 2 * (start + 32 + 32 * i) + 64 <= |h| && at == start + 32 + NumberAt(h, start + 32 + 32 * i)
    ensures PlaceOf(h, start, i) == at
  {
    WordStands(h, start + 32 + 32 * i);
  }

  lemma ReaderIs(version: Version, h: Hex, start: nat, i: nat, op: UserOp)
    requires Decoded(version, h, PlaceOf(h, start, i)) == op
    ensures Reader(version, h, start)(i) == op
  {
  }

  lemma FoundThere(version: Version, p: Parts, h: Hex, start: nat, i: nat, at: nat)
    requires 2 * (start + 32 + 32 * i) + 64 <= |h| && at == start + 32 + NumberAt(h, start + 32 + 32 * i)
    requires Stands(version, p, h, at)
    ensures Reader(version, h, start)(i) == Unpacked(version, p)
  {
    PlaceIs(h, start, i, at);
    StandingDecodes(version, p, h, at);
    ReaderIs(version, h, start, i, Unpacked(version, p));
  }

  lemma OneOfThem<T>(ops: seq<T>, read: nat -> T, n: nat, i: nat, op: T)
    requires ops == FirstN(read, n) && i < n && read(i) == op
    ensures |ops| == n && ops[i] == op
  {
    FirstNIs(read, n, i);
  }

  /**
   * The decoder reads every operation, each through its own offset: if the operations begin where the first word
   * says, with their number and then one offset for each, and a struct stands at each offset, then it reads as
   * many operations, and each as that struct's.
   */
  lemma SeveralDecode(version: Version, input: Hex, h: Hex, start: nat, ps: seq<Parts>, i: nat)
    requires |input| >= 8 && h == input[8..] && 64 <= |h| && NumberAt(h, 0) == start
    requires 2 * start + 64 + 64 * |ps| <= |h| && NumberAt(h, start) == |ps| && i < |ps|
    requires Stands(version, ps[i], h, start + 32 + NumberAt(h, start + 32 + 32 * i))
    ensures |DecodedOps(version, input)| == |ps| && DecodedOps(version, input)[i] == Unpacked(version, ps[i])
  {
    FoundThere(version, ps[i], h, start, i, start + 32 + NumberAt(h, start + 32 + 32 * i));
    ReadsFrom(version, input, h, start, |ps|);
    OneOfThem(DecodedOps(version, input), Reader(version, h, start), |ps|, i, Unpacked(version, ps[i]));
  }
}
