/** Where each field of a verifier set stands in the bytes that are hashed (contracts/multisig/src/verifier_set.rs
    and ampd/src/mvx/mod.rs). */
module SetLayouts {
  import opened Ints
  import opened ByteStrings
  import opened Sorting
  import opened MultisigTypes
  import opened VerifierSetHash
  import opened MvxSigners

  /** The bytes `x` stand in `b` at this place. */
  predicate Stands(b: Bytes, at: nat, x: Bytes) {
    at + |x| <= |b| && b[at..at + |x|] == x
  }

  /** The number stands in `b` at this place, big-endian in `width` bytes. */
  predicate StandsNumber(b: Bytes, at: nat, width: nat, n: nat) {
    at + width <= |b| && FromBigEndian(b[at..at + width]) == n
  }

  lemma {:induction false} StandsBetween(a: Bytes, x: Bytes, c: Bytes)
    ensures Stands(a + (x + c), |a|, x)
  {
  }

  lemma {:induction false} StandsLater(a: Bytes, b: Bytes, at: nat, x: Bytes)
    requires Stands(b, at, x)
    ensures Stands(a + b, |a| + at, x)
  {
    assert (a + b)[|a| + at..|a| + at + |x|] == b[at..at + |x|];
  }

  lemma {:induction false} StandsBefore(b: Bytes, at: nat, x: Bytes, c: Bytes)
    requires Stands(b, at, x)
    ensures Stands(b + c, at, x)
  {
    assert (b + c)[at..at + |x|] == b[at..at + |x|];
  }

  lemma {:induction false} NumberStands(b: Bytes, at: nat, width: nat, n: nat)
    requires n < Pow256(width) && Stands(b, at, BigEndian(n, width))
    ensures StandsNumber(b, at, width, n)
  {
    BigEndianRoundTrip(n, width);
  }

  // ---------------------------------------------------------------- the hash input

  /** Where the i-th signer begins: behind the length prefix and the signers before, with 16 bytes for each weight. */
  function RecordStart(width: nat, signers: seq<Signer>, i: nat): nat
    requires i <= |signers|
  {
    if i == 0 then width
    else RecordStart(width, signers, i - 1) + |signers[i - 1].address| + |signers[i - 1].pubKey.bytes| + 16
  }

  lemma {:induction false} RecordSize(s: Signer)
    ensures |Record(s)| == |s.address| + |s.pubKey.bytes| + 16
  {
  }

  lemma {:induction false} RecordStartIsLength(width: nat, signers: seq<Signer>, i: nat)
    requires i <= |signers|
    ensures RecordStart(width, signers, i) == width + |Records(signers[..i])|
  {
    if i > 0 {
      RecordStartIsLength(width, signers, i - 1);
      assert signers[..i] == signers[..i - 1] + [signers[i - 1]];
      RecordsSnoc(signers[..i - 1], signers[i - 1]);
      RecordSize(signers[i - 1]);
    }
  }

  lemma {:induction false} Associative(a: Bytes, b: Bytes, c: Bytes)
    ensures (a + b) + c == a + (b + c)
  {
  }

  lemma {:induction false} RecordsSplit(signers: seq<Signer>, i: nat)
    requires i < |signers|
    ensures Records(signers) == Records(signers[..i]) + (Record(signers[i]) + Records(signers[i + 1..]))
    decreases i
  {
    if i == 0 {
      assert signers[..0] == [];
    } else {
      var first, rest, front := Record(signers[0]), signers[1..], signers[..i];
      RecordsSplit(rest, i - 1);
      assert front[0] == signers[0] && front[1..] == rest[..i - 1] && rest[i..] == signers[i + 1..];
      Associative(first, Records(front[1..]), Record(signers[i]) + Records(signers[i + 1..]));
    }
  }

  lemma {:induction false} RecordInPreimage(width: nat, signers: seq<Signer>, threshold: u128, createdAt: u64, i: nat)
    requires i < |signers|
    ensures Stands(Preimage(width, signers, threshold, createdAt), RecordStart(width, signers, i), Record(signers[i]))
  {
    RecordsSplit(signers, i);
    RecordStartIsLength(width, signers, i);
    InsidePart(BigEndian(|signers|, width), Records(signers[..i]), Record(signers[i]), Records(signers[i + 1..]),
               BigEndian(threshold, 16) + BigEndian(createdAt, 8));
  }

  lemma {:induction false} InsidePart(n: Bytes, before: Bytes, one: Bytes, rest: Bytes, tail: Bytes)
    ensures Stands(n + ((before + (one + rest)) + tail), |n| + |before|, one)
  {
    StandsBetween(before, one, rest);
    StandsBefore(before + (one + rest), |before|, one, tail);
    StandsLater(n, (before + (one + rest)) + tail, |before|, one);
  }

  lemma {:induction false} PartOfPart(b: Bytes, at: nat, x: Bytes, inner: nat, y: Bytes)
    requires Stands(b, at, x) && Stands(x, inner, y)
    ensures Stands(b, at + inner, y)
  {
    var part := b[at + inner..at + inner + |y|];
    forall k | 0 <= k < |y| ensures part[k] == y[k] {
      assert b[at..at + |x|][inner + k] == x[inner..inner + |y|][k];
    }
  }

  /** Each signer stands in the hash input as its address, its public key and its weight in 16 bytes. */
  lemma {:induction false} SignerInPreimage(width: nat, signers: seq<Signer>, threshold: u128, createdAt: u64, i: nat)
    requires i < |signers|
    ensures var b, at, s := Preimage(width, signers, threshold, createdAt), RecordStart(width, signers, i), signers[i];
            && Stands(b, at, s.address)
            && Stands(b, at + |s.address|, s.pubKey.bytes)
            && StandsNumber(b, at + |s.address| + |s.pubKey.bytes|, 16, s.weight)
  {
    RecordInPreimage(width, signers, threshold, createdAt, i);
    RecordFields(Preimage(width, signers, threshold, createdAt), RecordStart(width, signers, i), signers[i]);
  }

  lemma {:induction false} ThreeParts(b: Bytes, at: nat, x: Bytes, y: Bytes, z: Bytes)
    requires Stands(b, at, x + y + z)
    ensures Stands(b, at, x) && Stands(b, at + |x|, y) && Stands(b, at + |x| + |y|, z)
  {
    var all := x + y + z;
    assert Stands(all, 0, x) && Stands(all, |x|, y) && Stands(all, |x| + |y|, z);
    PartOfPart(b, at, all, 0, x);
    PartOfPart(b, at, all, |x|, y);
    PartOfPart(b, at, all, |x| + |y|, z);
  }

  lemma {:induction false} RecordFields(b: Bytes, at: nat, s: Signer)
    requires Stands(b, at, Record(s))
    ensures Stands(b, at, s.address) && Stands(b, at + |s.address|, s.pubKey.bytes)
    ensures StandsNumber(b, at + |s.address| + |s.pubKey.bytes|, 16, s.weight)
  {
    ThreeParts(b, at, s.address, s.pubKey.bytes, BigEndian(s.weight, 16));
    WidthsOfIntegers();
    NumberStands(b, at + |s.address| + |s.pubKey.bytes|, 16, s.weight);
  }

  lemma {:induction false} FourParts(n: Bytes, r: Bytes, t: Bytes, c: Bytes)
    ensures var b := n + (r + (t + c));
            && |b| == |n| + |r| + |t| + |c|
            && Stands(b, 0, n) && Stands(b, |n| + |r|, t) && Stands(b, |n| + |r| + |t|, c)
  {
    var b := n + (r + (t + c));
    assert b == n + r + (t + c);
    StandsBetween(n + r, t, c);
    assert b == n + r + t + (c + []);
    StandsBetween(n + r + t, c, []);
    assert b == [] + (n + (r + (t + c)));
    StandsBetween([], n, r + (t + c));
  }

  lemma {:induction false} PreimageParts(width: nat, signers: seq<Signer>, threshold: u128, createdAt: u64)
    ensures var b, end := Preimage(width, signers, threshold, createdAt), RecordStart(width, signers, |signers|);
            && |b| == end + 24
            && Stands(b, 0, BigEndian(|signers|, width))
            && Stands(b, end, BigEndian(threshold, 16))
            && Stands(b, end + 16, BigEndian(createdAt, 8))
  {
    assert signers[..|signers|] == signers;
    RecordStartIsLength(width, signers, |signers|);
    FourParts(BigEndian(|signers|, width), Records(signers), BigEndian(threshold, 16), BigEndian(createdAt, 8));
  }

  /** The number of signers comes first; the threshold, in 16 bytes, and the creation height, in 8, come last. */
  lemma {:induction false} NumbersInPreimage(width: nat, signers: seq<Signer>, threshold: u128, createdAt: u64)
    requires |signers| < Pow256(width)
    ensures var b, end := Preimage(width, signers, threshold, createdAt), RecordStart(width, signers, |signers|);
            && |b| == end + 24
            && StandsNumber(b, 0, width, |signers|)
            && StandsNumber(b, end, 16, threshold)
            && StandsNumber(b, end + 16, 8, createdAt)
  {
    var b, end := Preimage(width, signers, threshold, createdAt), RecordStart(width, signers, |signers|);
    PreimageParts(width, signers, threshold, createdAt);
    WidthsOfIntegers();
    NumberStands(b, 0, width, |signers|);
    NumberStands(b, end, 16, threshold);
    NumberStands(b, end + 16, 8, createdAt);
  }

  // ---------------------------------------------------------------- the MultiversX encoding

  /** Where the i-th signer begins: behind the four-byte count and the signers before, with a four-byte length for
      each weight. */
  function SignerStart(signers: seq<WeightedSigner>, i: nat): nat
    requires i <= |signers|
  {
    if i == 0 then 4 else SignerStart(signers, i - 1) + |signers[i - 1].signer| + 4 + |signers[i - 1].weight|
  }

  lemma {:induction false} SignerStands(s: WeightedSigner)
    ensures |EncodeSigner(s)| == |s.signer| + 4 + |s.weight|
    ensures Stands(EncodeSigner(s), 0, s.signer)
    ensures Stands(EncodeSigner(s), |s.signer|, BigEndian(|s.weight|, 4))
    ensures Stands(EncodeSigner(s), |s.signer| + 4, s.weight)
  {
  }

  lemma {:induction false} SignerStartIsLength(signers: seq<WeightedSigner>, i: nat)
    requires i <= |signers|
    ensures SignerStart(signers, i) == 4 + |EncodeSigners(signers[..i])|
  {
    if i > 0 {
      SignerStartIsLength(signers, i - 1);
      assert signers[..i] == signers[..i - 1] + [signers[i - 1]];
      EncodeSignersSnoc(signers[..i - 1], signers[i - 1]);
      SignerStands(signers[i - 1]);
    }
  }

  lemma {:induction false} SignersSplit(signers: seq<WeightedSigner>, i: nat)
    requires i < |signers|
    ensures EncodeSigners(signers) ==
              EncodeSigners(signers[..i]) + (EncodeSigner(signers[i]) + EncodeSigners(signers[i + 1..]))
    decreases i
  {
    if i == 0 {
      assert signers[..0] == [];
    } else {
      var first, rest, front := EncodeSigner(signers[0]), signers[1..], signers[..i];
      SignersSplit(rest, i - 1);
      assert front[0] == signers[0] && front[1..] == rest[..i - 1] && rest[i..] == signers[i + 1..];
      Associative(first, EncodeSigners(front[1..]), EncodeSigner(signers[i]) + EncodeSigners(signers[i + 1..]));
    }
  }

  lemma {:induction false} SignerInEncoding(s: WeightedSigners, i: nat)
    requires i < |s.signers|
    ensures Stands(Encode(s), SignerStart(s.signers, i), EncodeSigner(s.signers[i]))
  {
    SignersSplit(s.signers, i);
    SignerStartIsLength(s.signers, i);
    InsidePart(Length(|s.signers|), EncodeSigners(s.signers[..i]), EncodeSigner(s.signers[i]),
               EncodeSigners(s.signers[i + 1..]), Length(|s.threshold|) + (s.threshold + s.nonce));
  }

  /** Each signer stands in the encoding as its key, the length of its weight in four bytes, and its weight. */
  lemma {:induction false} SignerFieldsInEncoding(s: WeightedSigners, i: nat)
    requires i < |s.signers| && |s.signers[i].weight| < Pow256(4)
    ensures var b, at, x := Encode(s), SignerStart(s.signers, i), s.signers[i];
            && Stands(b, at, x.signer)
            && StandsNumber(b, at + |x.signer|, 4, |x.weight|)
            && Stands(b, at + |x.signer| + 4, x.weight)
  {
    var b, at, x := Encode(s), SignerStart(s.signers, i), s.signers[i];
    SignerInEncoding(s, i);
    SignerStands(x);
    PartOfPart(b, at, EncodeSigner(x), 0, x.signer);
    PartOfPart(b, at, EncodeSigner(x), |x.signer|, BigEndian(|x.weight|, 4));
    PartOfPart(b, at, EncodeSigner(x), |x.signer| + 4, x.weight);
    NumberStands(b, at + |x.signer|, 4, |x.weight|);
  }

  lemma {:induction false} FiveParts(n: Bytes, r: Bytes, l: Bytes, t: Bytes, x: Bytes)
    ensures var b := n + (r + (l + (t + x)));
            && |b| == |n| + |r| + |l| + |t| + |x|
            && Stands(b, 0, n) && Stands(b, |n| + |r|, l) && Stands(b, |n| + |r| + |l|, t)
            && Stands(b, |n| + |r| + |l| + |t|, x)
  {
    var b := n + (r + (l + (t + x)));
    FourParts(n, r, l, t + x);
    FourParts(n + r, l, t, x);
    assert b == (n + r) + (l + (t + x));
  }

  /** The number of signers comes first, in four bytes; behind the signers come the length of the threshold in four
      bytes, the threshold, and the nonce. */
  lemma {:induction false} NumbersInEncoding(s: WeightedSigners)
    requires |s.signers| < Pow256(4) && |s.threshold| < Pow256(4)
    ensures var b, end := Encode(s), SignerStart(s.signers, |s.signers|);
            && |b| == end + 4 + |s.threshold| + |s.nonce|
            && StandsNumber(b, 0, 4, |s.signers|)
            && StandsNumber(b, end, 4, |s.threshold|)
            && Stands(b, end + 4, s.threshold)
            && Stands(b, end + 4 + |s.threshold|, s.nonce)
  {
    var b, end := Encode(s), SignerStart(s.signers, |s.signers|);
    assert s.signers[..|s.signers|] == s.signers;
    SignerStartIsLength(s.signers, |s.signers|);
    FiveParts(Length(|s.signers|), EncodeSigners(s.signers), Length(|s.threshold|), s.threshold, s.nonce);
    NumberStands(b, 0, 4, |s.signers|);
    NumberStands(b, end, 4, |s.threshold|);
  }

  lemma {:induction false} ThresholdField(n: u128)
    ensures |Compact(n)| <= 16 < Pow256(4) && FromBigEndian(Compact(n)) == n && (n > 0 ==> Compact(n) != [] && Compact(n)[0] != 0)
  {
    IntegersFit(n);
    CompactLength(n, 16);
    CompactRoundTrip(n);
    Pow256Monotone(1, 4);
    assert Pow256(1) == 256;
  }

  lemma {:induction false} NonceField(n: u64)
    ensures FromBigEndian(BigEndian(n, 32)) == n
  {
    IntegersFit(n);
    BigEndianRoundTrip(n, 32);
  }

  /** The fields encoded for a verifier set: one signer per signer of the set, the threshold without leading zeros,
      and a nonce of 32 bytes that read as the creation height. */
  lemma {:induction false} FieldsOfSet(vs: VerifierSet, order: seq<Address>)
    requires Lists(order, vs)
    ensures var s := FromSet(vs, order);
            && |s.signers| == |order|
            && |s.threshold| <= 16 && FromBigEndian(s.threshold) == vs.threshold
            && (vs.threshold > 0 ==> s.threshold != [] && s.threshold[0] != 0)
            && |s.nonce| == 32 && FromBigEndian(s.nonce) == vs.createdAt
  {
    ThresholdField(vs.threshold);
    NonceField(vs.createdAt);
  }
}
