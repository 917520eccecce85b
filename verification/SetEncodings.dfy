/** The bytes hashed to name a verifier set (contracts/multisig/src/verifier_set.rs). */
module VerifierSetHash {
  import opened Ints
  import opened Sums
  import opened ByteStrings
  import opened Sorting
  import opened WeightedKeys
  import opened MultisigTypes

  function Record(s: Signer): Bytes {
    s.address + s.pubKey.bytes + BigEndian(s.weight, 16)
  }

  function Records(s: seq<Signer>): Bytes {
    if s == [] then [] else Record(s[0]) + Records(s[1..])
  }

  /** The hash input. `width` is the size of a `usize`: 4 bytes in the contract, 8 on a 64-bit host. */
  function Preimage(width: nat, signers: seq<Signer>, threshold: u128, createdAt: u64): Bytes {
    BigEndian(|signers|, width) + (Records(signers) + (BigEndian(threshold, 16) + BigEndian(createdAt, 8)))
  }

  /** The values of the ordered map, in the order of its keys. */
  function InOrder(vs: VerifierSet, order: seq<Address>): (r: seq<Signer>)
    requires forall a :: a in order ==> a in vs.signers
    ensures |r| == |order| && forall i :: 0 <= i < |r| ==> r[i] == vs.signers[order[i]]
  {
    seq(|order|, i requires 0 <= i < |order| => vs.signers[order[i]])
  }

  ghost predicate Lists(order: seq<Address>, vs: VerifierSet) {
    Distinct(order) && Elements(order) == vs.signers.Keys && forall a :: a in order ==> a in vs.signers
  }

  /** The listing of an ordered map: by address, bytewise. */
  ghost predicate ListsInOrder(order: seq<Address>, vs: VerifierSet) {
    Lists(order, vs) && SortedBy(LexLe, order)
  }

  lemma OrderIsUnique(vs: VerifierSet, one: seq<Address>, other: seq<Address>)
    requires ListsInOrder(one, vs) && ListsInOrder(other, vs)
    ensures one == other
  {
    ListingsPermute(one, other);
    forall x, y | x in one && y in one && LexLe(x, y) && LexLe(y, x) ensures x == y { LexAntisymmetric(x, y); }
    SortedUnique(LexLe, one, other);
  }

  lemma {:induction false} RecordsSnoc(s: seq<Signer>, x: Signer)
    ensures Records(s + [x]) == Records(s) + Record(x)
  {
    if s == [] {
      assert [] + [x] == [x];
    } else {
      assert (s + [x])[1..] == s[1..] + [x];
      RecordsSnoc(s[1..], x);
    }
  }

  lemma RecordsPrefix(s: seq<Signer>, i: nat)
    requires i < |s|
    ensures Records(s[..i + 1]) == Records(s[..i]) + Record(s[i])
  {
    PrefixSnoc(s, i);
    RecordsSnoc(s[..i], s[i]);
  }

  /** One signer fed to the hasher, field by field. */
  method FeedSigner(fed: Bytes, signer: Signer) returns (r: Bytes)
    ensures r == fed + Record(signer)
  {
    r := fed + signer.address;
    r := r + signer.pubKey.bytes;
    r := r + BigEndian(signer.weight, 16);
  }

  /** `hash` up to the final digest. */
  method HasherInput(width: nat, vs: VerifierSet, order: seq<Address>) returns (fed: Bytes)
    requires Lists(order, vs)
    ensures fed == Preimage(width, InOrder(vs, order), vs.threshold, vs.createdAt)
  {
    ghost var signers := InOrder(vs, order);
    fed := BigEndian(|order|, width);
    var i := 0;
    while i < |order|
      invariant 0 <= i <= |order|
      invariant fed == BigEndian(|order|, width) + Records(signers[..i])
    {
      RecordsPrefix(signers, i);
      fed := FeedSigner(fed, vs.signers[order[i]]);
      i := i + 1;
    }
    assert signers[..|order|] == signers;
    fed := fed + BigEndian(vs.threshold, 16);
    fed := fed + BigEndian(vs.createdAt, 8);
  }

  // ---------------------------------------------------------------- when the input determines the set

  ghost predicate WellFormedKeys(signers: seq<Signer>) {
    forall i :: 0 <= i < |signers| ==> signers[i].pubKey.WellFormed()
  }

  /** Two lists agree on the lengths of their fields. */
  ghost predicate SameLengths(a: seq<Signer>, b: seq<Signer>) {
    && |a| == |b|
    && forall i :: 0 <= i < |a| ==>
         |a[i].address| == |b[i].address| && |a[i].pubKey.bytes| == |b[i].pubKey.bytes|
  }

  lemma RecordInjective(a: Signer, x: Bytes, b: Signer, y: Bytes)
    requires Record(a) + x == Record(b) + y
    requires |a.address| == |b.address| && |a.pubKey.bytes| == |b.pubKey.bytes|
    requires a.pubKey.WellFormed() && b.pubKey.WellFormed()
    ensures a == b && x == y
  {
    SplitEqual(Record(a), x, Record(b), y);
    SplitEqual(a.address + a.pubKey.bytes, BigEndian(a.weight, 16), b.address + b.pubKey.bytes, BigEndian(b.weight, 16));
    SplitEqual(a.address, a.pubKey.bytes, b.address, b.pubKey.bytes);
    WidthsOfIntegers();
    BigEndianInjective(a.weight, b.weight, 16);
  }

  lemma WidthsOfIntegers()
    ensures Pow256(8) == U64_MAX + 1 && Pow256(16) == U128_MAX + 1
  {
    assert Pow256(1) == 256 && Pow256(2) == 0x1_0000;
    Pow256Sum(2, 2);
    Pow256Sum(4, 4);
    Pow256Sum(8, 8);
  }

  lemma {:induction false} RecordsInjective(a: seq<Signer>, x: Bytes, b: seq<Signer>, y: Bytes)
    requires SameLengths(a, b) && WellFormedKeys(a) && WellFormedKeys(b)
    requires Records(a) + x == Records(b) + y
    ensures a == b && x == y
  {
    if a == [] {
      assert Records(a) + x == x && Records(b) + y == y;
    } else {
      assert Records(a) + x == Record(a[0]) + (Records(a[1..]) + x);
      assert Records(b) + y == Record(b[0]) + (Records(b[1..]) + y);
      RecordInjective(a[0], Records(a[1..]) + x, b[0], Records(b[1..]) + y);
      RecordsInjective(a[1..], x, b[1..], y);
      assert a == [a[0]] + a[1..] && b == [b[0]] + b[1..];
    }
  }

  lemma SameNumbers(ta: u128, ca: u64, tb: u128, cb: u64)
    requires BigEndian(ta, 16) + BigEndian(ca, 8) == BigEndian(tb, 16) + BigEndian(cb, 8)
    ensures ta == tb && ca == cb
  {
    SplitEqual(BigEndian(ta, 16), BigEndian(ca, 8), BigEndian(tb, 16), BigEndian(cb, 8));
    WidthsOfIntegers();
    BigEndianInjective(ta, tb, 16);
    BigEndianInjective(ca, cb, 8);
  }

  /** Exactly when equal inputs come from equal contents: the lists agree on the lengths of their fields. */
  lemma InputDeterminesIff(width: nat, a: seq<Signer>, ta: u128, ca: u64, b: seq<Signer>, tb: u128, cb: u64)
    requires WellFormedKeys(a) && WellFormedKeys(b)
    requires Preimage(width, a, ta, ca) == Preimage(width, b, tb, cb)
    ensures a == b && ta == tb && ca == cb <==> SameLengths(a, b)
  {
    if SameLengths(a, b) {
      var x, y := BigEndian(ta, 16) + BigEndian(ca, 8), BigEndian(tb, 16) + BigEndian(cb, 8);
      SplitEqual(BigEndian(|a|, width), Records(a) + x, BigEndian(|b|, width), Records(b) + y);
      RecordsInjective(a, x, b, y);
      SameNumbers(ta, ca, tb, cb);
    }
  }

  // ---------------------------------------------------------------- sets of one address length and one key type

  /** All addresses have one length, all keys another, and keys are of the admitted formats. */
  ghost predicate Uniform(signers: seq<Signer>, addressLength: nat, keyLength: nat) {
    forall i :: 0 <= i < |signers| ==>
      && |signers[i].address| == addressLength
      && |signers[i].pubKey.bytes| == keyLength
      && signers[i].pubKey.WellFormed()
  }

  lemma {:induction false} RecordsLength(s: seq<Signer>, addressLength: nat, keyLength: nat)
    requires Uniform(s, addressLength, keyLength)
    ensures |Records(s)| == |s| * (addressLength + keyLength + 16)
  {
    if s != [] { RecordsLength(s[1..], addressLength, keyLength); }
  }

  lemma PreimageInjective(
    width: nat, a: seq<Signer>, ta: u128, ca: u64, b: seq<Signer>, tb: u128, cb: u64, al: nat, ka: nat, kb: nat)
    requires |a| < Pow256(width) && |b| < Pow256(width)
    requires Uniform(a, al, ka) && Uniform(b, al, kb)
    requires Preimage(width, a, ta, ca) == Preimage(width, b, tb, cb)
    ensures SameLengths(a, b) && a == b && ta == tb && ca == cb
  {
    var x, y := BigEndian(ta, 16) + BigEndian(ca, 8), BigEndian(tb, 16) + BigEndian(cb, 8);
    SplitEqual(BigEndian(|a|, width), Records(a) + x, BigEndian(|b|, width), Records(b) + y);
    BigEndianInjective(|a|, |b|, width);
    RecordsLength(a, al, ka);
    RecordsLength(b, al, kb);
    assert |Records(a) + x| == |Records(b) + y|;
    SameRecordLength(|a|, al + 16, ka, kb);
    InputDeterminesIff(width, a, ta, ca, b, tb, cb);
  }

  lemma SameRecordLength(n: nat, fixed: nat, ka: nat, kb: nat)
    requires n * (fixed + ka) == n * (fixed + kb)
    ensures n == 0 || ka == kb
  {
    if ka < kb {
      assert n * (fixed + kb) - n * (fixed + ka) == n * (kb - ka);
    } else if kb < ka {
      assert n * (fixed + ka) - n * (fixed + kb) == n * (ka - kb);
    }
  }

  /** Signers are stored under their own address. */
  ghost predicate WellKeyed(vs: VerifierSet) {
    forall a :: a in vs.signers ==> vs.signers[a].address == a
  }

  lemma SameListingSameSet(a: VerifierSet, b: VerifierSet, order: seq<Address>)
    requires Lists(order, a) && Lists(order, b) && InOrder(a, order) == InOrder(b, order)
    ensures a.signers == b.signers
  {
    var sa, sb := InOrder(a, order), InOrder(b, order);
    forall k | k in a.signers ensures a.signers[k] == b.signers[k] {
      assert k in Elements(order);
      var i :| 0 <= i < |order| && order[i] == k;
      assert sa[i] == sb[i];
    }
  }

  /** A set that stores its signers under their own addresses is listed by what its signers say. */
  lemma WellKeyedOrder(a: VerifierSet, oa: seq<Address>, b: VerifierSet, ob: seq<Address>)
    requires WellKeyed(a) && WellKeyed(b) && Lists(oa, a) && Lists(ob, b)
    requires InOrder(a, oa) == InOrder(b, ob)
    ensures oa == ob
  {
    var sa, sb := InOrder(a, oa), InOrder(b, ob);
    forall i | 0 <= i < |oa| ensures oa[i] == ob[i] {
      assert sa[i].address == oa[i] && sb[i].address == ob[i];
    }
  }

  /** Two sets with equal inputs are the same set, in map keys, addresses, public keys, weights, threshold and
      creation height, exactly when they are stored under the same map keys and their listings agree on the
      lengths of addresses and public keys. */
  lemma EqualInputsEqualSetsIff(width: nat, a: VerifierSet, oa: seq<Address>, b: VerifierSet, ob: seq<Address>)
    requires ListsInOrder(oa, a) && ListsInOrder(ob, b)
    requires WellFormedKeys(InOrder(a, oa)) && WellFormedKeys(InOrder(b, ob))
    requires Preimage(width, InOrder(a, oa), a.threshold, a.createdAt)
          == Preimage(width, InOrder(b, ob), b.threshold, b.createdAt)
    ensures a == b <==> oa == ob && SameLengths(InOrder(a, oa), InOrder(b, ob))
  {
    InputDeterminesIff(width, InOrder(a, oa), a.threshold, a.createdAt, InOrder(b, ob), b.threshold, b.createdAt);
    if a == b { OrderIsUnique(a, oa, ob); }
    if oa == ob && SameLengths(InOrder(a, oa), InOrder(b, ob)) { SameListingSameSet(a, b, oa); }
  }

  /** Among sets that store their signers under their own addresses, the lengths alone decide. */
  lemma WellKeyedInputsEqualSetsIff(width: nat, a: VerifierSet, oa: seq<Address>, b: VerifierSet, ob: seq<Address>)
    requires WellKeyed(a) && WellKeyed(b) && ListsInOrder(oa, a) && ListsInOrder(ob, b)
    requires WellFormedKeys(InOrder(a, oa)) && WellFormedKeys(InOrder(b, ob))
    requires Preimage(width, InOrder(a, oa), a.threshold, a.createdAt)
          == Preimage(width, InOrder(b, ob), b.threshold, b.createdAt)
    ensures a == b <==> SameLengths(InOrder(a, oa), InOrder(b, ob))
  {
    InputDeterminesIff(width, InOrder(a, oa), a.threshold, a.createdAt, InOrder(b, ob), b.threshold, b.createdAt);
    EqualInputsEqualSetsIff(width, a, oa, b, ob);
    if SameLengths(InOrder(a, oa), InOrder(b, ob)) { WellKeyedOrder(a, oa, b, ob); }
  }

  /** Among sets whose addresses share one length and whose public keys are uniform within each set, whatever
      these key lengths are, the map keys alone decide; nothing is left to decide if both sets store their
      signers under their own addresses. */
  lemma EqualInputsEqualSets(
    width: nat, a: VerifierSet, oa: seq<Address>, b: VerifierSet, ob: seq<Address>, al: nat, ka: nat, kb: nat)
    requires ListsInOrder(oa, a) && ListsInOrder(ob, b)
    requires |oa| < Pow256(width) && |ob| < Pow256(width)
    requires Uniform(InOrder(a, oa), al, ka) && Uniform(InOrder(b, ob), al, kb)
    requires Preimage(width, InOrder(a, oa), a.threshold, a.createdAt)
          == Preimage(width, InOrder(b, ob), b.threshold, b.createdAt)
    ensures a == b <==> oa == ob
    ensures WellKeyed(a) && WellKeyed(b) ==> a == b
  {
    PreimageInjective(width, InOrder(a, oa), a.threshold, a.createdAt, InOrder(b, ob), b.threshold, b.createdAt, al, ka, kb);
    EqualInputsEqualSetsIff(width, a, oa, b, ob);
    if WellKeyed(a) && WellKeyed(b) { WellKeyedOrder(a, oa, b, ob); }
  }

  // ---------------------------------------------------------------- and when it does not

  function Singleton(s: Signer, threshold: u128, createdAt: u64): VerifierSet {
    VerifierSet(map[s.address := s], threshold, createdAt)
  }

  /** A set of one signer, stored under some map key. */
  function Keyed(k: Address, s: Signer, threshold: u128, createdAt: u64): VerifierSet {
    VerifierSet(map[k := s], threshold, createdAt)
  }

  lemma KeyedListed(k: Address, s: Signer, threshold: u128, createdAt: u64)
    ensures var vs := Keyed(k, s, threshold, createdAt); ListsInOrder([k], vs) && InOrder(vs, [k]) == [s]
  {
    ElementsSnoc([k], [], k);
    assert Elements<Address>([]) == {};
  }

  /** The map keys are not part of the input: the same signer under two map keys makes two sets with one input,
      and no address or public key differs in length. */
  lemma MapKeysCollide(k: Address, other: Address, s: Signer, threshold: u128, createdAt: u64, width: nat)
    requires k != other
    ensures var a, b := Keyed(k, s, threshold, createdAt), Keyed(other, s, threshold, createdAt);
            && ListsInOrder([k], a) && ListsInOrder([other], b)
            && a != b
            && SameLengths(InOrder(a, [k]), InOrder(b, [other]))
            && Preimage(width, InOrder(a, [k]), threshold, createdAt) == Preimage(width, InOrder(b, [other]), threshold, createdAt)
  {
    KeyedListed(k, s, threshold, createdAt);
    KeyedListed(other, s, threshold, createdAt);
    assert k in Keyed(k, s, threshold, createdAt).signers && k !in Keyed(other, s, threshold, createdAt).signers;
  }

  /** Without a common address length the input is ambiguous: moving the first byte of a 33-byte ECDSA
      key into the address leaves a 32-byte Ed25519 key and the same input. */
  lemma AddressLengthsCollide(address: Address, c: byte, key: Bytes, weight: u128, threshold: u128, createdAt: u64, width: nat)
    requires |key| == 32
    ensures var a := Signer(address, weight, EcdsaKey([c] + key));
            var b := Signer(address + [c], weight, Ed25519Key(key));
            && a.pubKey.WellFormed() && b.pubKey.WellFormed()
            && Singleton(a, threshold, createdAt) != Singleton(b, threshold, createdAt)
            && Preimage(width, [a], threshold, createdAt) == Preimage(width, [b], threshold, createdAt)
  {
    var a := Signer(address, weight, EcdsaKey([c] + key));
    var b := Signer(address + [c], weight, Ed25519Key(key));
    assert Record(a) == Record(b);
    OneRecord(a);
    OneRecord(b);
    assert address in Singleton(a, threshold, createdAt).signers;
    assert address !in Singleton(b, threshold, createdAt).signers;
  }

  function Pair(s: Signer, t: Signer, threshold: u128, createdAt: u64): VerifierSet {
    VerifierSet(map[s.address := s, t.address := t], threshold, createdAt)
  }

  function Weight(b: Bytes): u128
    requires |b| == 16
  {
    WidthsOfIntegers();
    FromBigEndian(b)
  }

  /** Two ways to read the same bytes as two signers: the field borders between the first key and the second
      one are one byte apart. */
  datatype Shift = Shift(first: Address, middle: Bytes, p: byte, q: byte, key: Bytes, spare: byte, high: Bytes,
                         low: byte, otherKey: Bytes, weight: u128)
  {
    /** Addresses of one length in ascending order either way, positive weights, and ECDSA keys that start
        with 2 or 3 as compressed keys do. */
    predicate Ok() {
      && |first| == |middle| + 1 && |key| == 31 && |otherKey| == 32 && |high| == 15
      && p in {2, 3} && q in {2, 3} && 0 < spare && 0 < low && 0 < weight
      && first != middle + [q] && first != [low] + middle && middle + [q] != [low] + middle
      && LexLe(first, middle + [q]) && LexLe(first, [low] + middle)
    }

    function A(): (Signer, Signer)
      requires Ok()
    {
      (Signer(first, Weight(high + [low]), EcdsaKey([p] + key + [spare])),
       Signer(middle + [q], weight, Ed25519Key(otherKey)))
    }

    function B(): (Signer, Signer)
      requires Ok()
    {
      (Signer(first, Weight([spare] + high), Ed25519Key([p] + key)),
       Signer([low] + middle, weight, EcdsaKey([q] + otherKey)))
    }
  }

  lemma ShiftKeepsRecords(x: Shift)
    requires x.Ok()
    ensures Record(x.A().0) + Record(x.A().1) == Record(x.B().0) + Record(x.B().1)
  {
    FromBigEndianRoundTrip(x.high + [x.low]);
    FromBigEndianRoundTrip([x.spare] + x.high);
    Regroup(x.first, [x.p] + x.key, [x.spare], x.high, [x.low], x.middle, [x.q], x.otherKey, BigEndian(x.weight, 16));
  }

  lemma ShiftIsRegular(x: Shift)
    requires x.Ok()
    ensures forall s :: s in [x.A().0, x.A().1, x.B().0, x.B().1] ==>
              s.weight > 0 && s.pubKey.WellFormed() && |s.address| == |x.first|
  {
    LeadingByte(x.spare, x.high);
    TrailingByte(x.high, x.low);
  }

  /** Nor is a common address length enough when a set mixes key types: both readings are sets of two signers
      with positive weights and addresses of one length, and their inputs are equal. */
  lemma MixedKeysCollide(x: Shift, width: nat, threshold: u128, createdAt: u64)
    requires x.Ok()
    ensures var (a0, a1), (b0, b1) := x.A(), x.B();
            var a, b := Pair(a0, a1, threshold, createdAt), Pair(b0, b1, threshold, createdAt);
            var oa, ob := [a0.address, a1.address], [b0.address, b1.address];
            && (forall s :: s in [a0, a1, b0, b1] ==> s.weight > 0 && s.pubKey.WellFormed() && |s.address| == |x.first|)
            && WellKeyed(a) && WellKeyed(b) && ListsInOrder(oa, a) && ListsInOrder(ob, b)
            && a != b
            && Preimage(width, InOrder(a, oa), threshold, createdAt) == Preimage(width, InOrder(b, ob), threshold, createdAt)
  {
    var (a0, a1) := x.A();
    var (b0, b1) := x.B();
    ShiftIsRegular(x);
    PairListed(a0, a1, threshold, createdAt);
    PairListed(b0, b1, threshold, createdAt);
    assert a1.address in Pair(a0, a1, threshold, createdAt).signers;
    assert a1.address !in Pair(b0, b1, threshold, createdAt).signers;
    ShiftKeepsRecords(x);
    TwoRecords(a0, a1);
    TwoRecords(b0, b1);
  }

  /** There are such sets, already with addresses of one byte. */
  lemma ShiftExists()
    ensures exists x: Shift :: x.Ok()
  {
    var x := Shift([0], [], 2, 2, seq(31, _ => 0), 1, seq(15, _ => 0), 3, seq(32, _ => 0), 1);
    assert LexLe([0], [2]) && LexLe([0], [3]);
    assert [] + [x.q] == [2] && [x.low] + [] == [3];
    assert x.Ok();
  }

  lemma PairListed(s: Signer, t: Signer, threshold: u128, createdAt: u64)
    requires s.address != t.address && LexLe(s.address, t.address)
    ensures var vs := Pair(s, t, threshold, createdAt);
            && WellKeyed(vs) && ListsInOrder([s.address, t.address], vs)
            && InOrder(vs, [s.address, t.address]) == [s, t]
  {
    var order := [s.address, t.address];
    assert order == [s.address] + [t.address];
    ElementsSnoc(order, [s.address], t.address);
    ElementsSnoc([s.address], [], s.address);
    assert Elements<Address>([]) == {};
  }

  lemma {:induction false} LeadingByte(c: byte, rest: Bytes)
    requires c > 0
    ensures FromBigEndian([c] + rest) > 0
    decreases |rest|
  {
    var b := [c] + rest;
    if rest == [] { assert b[..0] == [] && b[0] == c; }
    else {
      var init := rest[..|rest| - 1];
      assert b[..|b| - 1] == [c] + init;
      LeadingByte(c, init);
    }
  }

  lemma TrailingByte(rest: Bytes, c: byte)
    ensures FromBigEndian(rest + [c]) >= c
  {
    assert (rest + [c])[..|rest|] == rest;
  }

  lemma OneRecord(s: Signer)
    ensures Records([s]) == Record(s)
  {
    assert [s][1..] == [];
    assert Record(s) + [] == Record(s);
  }

  lemma TwoRecords(s: Signer, t: Signer)
    ensures Records([s, t]) == Record(s) + Record(t)
  {
    assert [s, t] == [s] + [t];
    RecordsSnoc([s], t);
    OneRecord(s);
  }

  lemma Regroup(f: Bytes, k: Bytes, s: Bytes, h: Bytes, l: Bytes, m: Bytes, q: Bytes, o: Bytes, w: Bytes)
    ensures (f + (k + s) + (h + l)) + ((m + q) + o + w) == (f + k + (s + h)) + ((l + m) + (q + o) + w)
  {
  }
}

/** The canonical signer encoding of the MultiversX gateway (ampd/src/mvx/mod.rs). */
module MvxSigners {
  import opened Ints
  import opened Outcomes
  import opened ByteStrings
  import opened Sorting
  import opened WeightedKeys
  import opened MultisigTypes
  import opened VerifierSetHash

  datatype WeightedSigner = WeightedSigner(signer: Bytes, weight: Bytes)

  datatype WeightedSigners = WeightedSigners(signers: seq<WeightedSigner>, threshold: Bytes, nonce: Bytes)

  /** `usize_to_u32`: four bytes, dropping what does not fit. */
  function Length(n: nat): Bytes {
    BigEndian(n, 4)
  }

  function EncodeSigner(s: WeightedSigner): Bytes {
    s.signer + (Length(|s.weight|) + s.weight)
  }

  function EncodeSigners(s: seq<WeightedSigner>): Bytes {
    if s == [] then [] else EncodeSigner(s[0]) + EncodeSigners(s[1..])
  }

  function Encode(s: WeightedSigners): Bytes {
    Length(|s.signers|) + (EncodeSigners(s.signers) + (Length(|s.threshold|) + (s.threshold + s.nonce)))
  }

  lemma {:induction false} EncodeSignersSnoc(s: seq<WeightedSigner>, x: WeightedSigner)
    ensures EncodeSigners(s + [x]) == EncodeSigners(s) + EncodeSigner(x)
  {
    if s == [] {
      assert [] + [x] == [x];
    } else {
      assert (s + [x])[1..] == s[1..] + [x];
      EncodeSignersSnoc(s[1..], x);
    }
  }

  /** `hash` up to the final digest. */
  method EncodedInput(s: WeightedSigners) returns (encoded: Bytes)
    ensures encoded == Encode(s)
  {
    encoded := Length(|s.signers|);
    var i := 0;
    while i < |s.signers|
      invariant 0 <= i <= |s.signers|
      invariant encoded == Length(|s.signers|) + EncodeSigners(s.signers[..i])
    {
      var signer := s.signers[i];
      assert s.signers[..i + 1] == s.signers[..i] + [signer];
      EncodeSignersSnoc(s.signers[..i], signer);
      encoded := encoded + signer.signer;
      encoded := encoded + Length(|signer.weight|);
      encoded := encoded + signer.weight;
      i := i + 1;
    }
    assert s.signers[..|s.signers|] == s.signers;
    encoded := encoded + Length(|s.threshold|);
    encoded := encoded + s.threshold;
    encoded := encoded + s.nonce;
  }

  // ---------------------------------------------------------------- unique decodability

  const LENGTH_LIMIT: nat := 0x1_0000_0000

  ghost predicate SignerFits(s: WeightedSigner) {
    |s.signer| == 32 && |s.weight| < LENGTH_LIMIT
  }

  ghost predicate Fits(s: WeightedSigners) {
    && |s.signers| < LENGTH_LIMIT && |s.threshold| < LENGTH_LIMIT && |s.nonce| == 32
    && forall i :: 0 <= i < |s.signers| ==> SignerFits(s.signers[i])
  }

  /** A length-prefixed field is read back together with what follows it. */
  lemma PrefixedInjective(a: Bytes, x: Bytes, b: Bytes, y: Bytes)
    requires |a| < LENGTH_LIMIT && |b| < LENGTH_LIMIT
    requires Length(|a|) + (a + x) == Length(|b|) + (b + y)
    ensures a == b && x == y
  {
    SplitEqual(Length(|a|), a + x, Length(|b|), b + y);
    assert Pow256(1) == 256 && Pow256(2) == 0x1_0000;
    Pow256Sum(2, 2);
    BigEndianInjective(|a|, |b|, 4);
    SplitEqual(a, x, b, y);
  }

  lemma SignerInjective(a: WeightedSigner, x: Bytes, b: WeightedSigner, y: Bytes)
    requires SignerFits(a) && SignerFits(b)
    requires EncodeSigner(a) + x == EncodeSigner(b) + y
    ensures a == b && x == y
  {
    assert EncodeSigner(a) + x == a.signer + (Length(|a.weight|) + (a.weight + x));
    assert EncodeSigner(b) + y == b.signer + (Length(|b.weight|) + (b.weight + y));
    SplitEqual(a.signer, Length(|a.weight|) + (a.weight + x), b.signer, Length(|b.weight|) + (b.weight + y));
    PrefixedInjective(a.weight, x, b.weight, y);
  }

  lemma {:induction false} SignersInjective(a: seq<WeightedSigner>, x: Bytes, b: seq<WeightedSigner>, y: Bytes)
    requires |a| == |b|
    requires forall i :: 0 <= i < |a| ==> SignerFits(a[i]) && SignerFits(b[i])
    requires EncodeSigners(a) + x == EncodeSigners(b) + y
    ensures a == b && x == y
  {
    if a == [] {
      assert [] + x == x && [] + y == y;
    } else {
      assert EncodeSigners(a) + x == EncodeSigner(a[0]) + (EncodeSigners(a[1..]) + x);
      assert EncodeSigners(b) + y == EncodeSigner(b[0]) + (EncodeSigners(b[1..]) + y);
      SignerInjective(a[0], EncodeSigners(a[1..]) + x, b[0], EncodeSigners(b[1..]) + y);
      SignersInjective(a[1..], x, b[1..], y);
      assert a == [a[0]] + a[1..] && b == [b[0]] + b[1..];
    }
  }

  /** Equal byte strings come from equal signer lists, weights, threshold and nonce. */
  lemma UniquelyDecodable(a: WeightedSigners, b: WeightedSigners)
    requires Fits(a) && Fits(b)
    requires Encode(a) == Encode(b)
    ensures a == b
  {
    var x := Length(|a.threshold|) + (a.threshold + a.nonce);
    var y := Length(|b.threshold|) + (b.threshold + b.nonce);
    SplitEqual(Length(|a.signers|), EncodeSigners(a.signers) + x, Length(|b.signers|), EncodeSigners(b.signers) + y);
    assert Pow256(1) == 256 && Pow256(2) == 0x1_0000;
    Pow256Sum(2, 2);
    BigEndianInjective(|a.signers|, |b.signers|, 4);
    SignersInjective(a.signers, x, b.signers, y);
    PrefixedInjective(a.threshold, a.nonce, b.threshold, b.nonce);
  }

  // ---------------------------------------------------------------- from verifier sets

  /** No leading zero byte. */
  ghost predicate Canonical(b: Bytes) {
    b == [] || b[0] != 0
  }

  lemma {:induction false} LeadingZero(b: Bytes)
    requires b != [] && b[0] == 0
    ensures FromBigEndian(b) == FromBigEndian(b[1..])
  {
    if |b| > 1 {
      var init := b[..|b| - 1];
      LeadingZero(init);
      assert init[1..] == b[1..][..|b| - 2];
    }
  }

  /** The shortest big-endian form, empty for zero. */
  function Compact(n: nat): Bytes {
    if n == 0 then [] else Compact(n / 256) + [n % 256]
  }

  lemma {:induction false} CompactRoundTrip(n: nat)
    ensures Canonical(Compact(n)) && FromBigEndian(Compact(n)) == n
  {
    if n > 0 {
      CompactRoundTrip(n / 256);
      var b := Compact(n);
      assert b[..|b| - 1] == Compact(n / 256);
      CanonicalZero(Compact(n / 256));
      assert b[0] == if n < 256 then n else Compact(n / 256)[0];
    }
  }

  lemma {:induction false} CompactLength(n: nat, w: nat)
    requires n < Pow256(w)
    ensures |Compact(n)| <= w
  {
    if n > 0 { CompactLength(n / 256, w - 1); }
  }

  /** `uint256_to_compact_vec`: the 32-byte form without its leading zeros. */
  method CompactVec(value: nat) returns (r: Bytes)
    requires value < Pow256(32)
    ensures r == Compact(value)
  {
    CompactRoundTrip(value);
    if value == 0 {
      return [];
    }
    var bytes := BigEndian(value, 32);
    BigEndianRoundTrip(value, 32);
    var from := 0;
    while from < 32 && bytes[from] == 0
      invariant 0 <= from <= 32
      invariant FromBigEndian(bytes[from..]) == value
    {
      assert bytes[from..][1..] == bytes[from + 1..];
      LeadingZero(bytes[from..]);
      from := from + 1;
    }
    assert bytes[32..] == [];
    r := bytes[from..];
    CanonicalUnique(r, Compact(value));
  }

  /** Numbers have only one canonical form, so the compact form is a function of the number. */
  lemma {:induction false} CanonicalUnique(a: Bytes, b: Bytes)
    requires Canonical(a) && Canonical(b) && FromBigEndian(a) == FromBigEndian(b)
    ensures a == b
    decreases |a|
  {
    if a == [] || b == [] {
      CanonicalZero(a);
      CanonicalZero(b);
    } else {
      var ia, ib := a[..|a| - 1], b[..|b| - 1];
      CanonicalUnique(ia, ib);
      assert a == ia + [a[|a| - 1]] && b == ib + [b[|b| - 1]];
    }
  }

  lemma {:induction false} CanonicalZero(a: Bytes)
    requires Canonical(a)
    ensures FromBigEndian(a) == 0 <==> a == []
  {
    if |a| > 1 { CanonicalZero(a[..|a| - 1]); }
  }

  function FromSigner(s: Signer): WeightedSigner {
    WeightedSigner(s.pubKey.bytes, Compact(s.weight))
  }

  predicate KeyOrder(a: WeightedSigner, b: WeightedSigner) {
    LexLe(a.signer, b.signer)
  }

  function FromSigners(s: seq<Signer>): (r: seq<WeightedSigner>)
    ensures |r| == |s| && forall i :: 0 <= i < |r| ==> r[i] == FromSigner(s[i])
  {
    seq(|s|, i requires 0 <= i < |s| => FromSigner(s[i]))
  }

  /** The converted signers in the order in which the map lists them. */
  ghost function Listed(vs: VerifierSet, order: seq<Address>): (r: seq<WeightedSigner>)
    requires Lists(order, vs)
    ensures |r| == |order|
    ensures forall i :: 0 <= i < |r| ==> order[i] in vs.signers && r[i] == FromSigner(vs.signers[order[i]])
  {
    assert forall i :: 0 <= i < |order| ==> order[i] in Elements(order);
    FromSigners(InOrder(vs, order))
  }

  ghost function FromSet(vs: VerifierSet, order: seq<Address>): WeightedSigners
    requires Lists(order, vs)
  {
    WeightedSigners(StableSort(KeyOrder, Listed(vs, order)), Compact(vs.threshold), BigEndian(vs.createdAt, 32))
  }

  ghost predicate AllEd25519(vs: VerifierSet) {
    forall a :: a in vs.signers ==> vs.signers[a].pubKey.Ed25519Key?
  }

  lemma IntegersFit(n: u128)
    ensures n < Pow256(16) <= Pow256(32)
  {
    WidthsOfIntegers();
    Pow256Monotone(16, 32);
  }

  method CompactOf(value: u128) returns (r: Bytes)
    ensures r == Compact(value)
  {
    IntegersFit(value);
    r := CompactVec(value);
  }

  method ConvertAll(signers: seq<Signer>) returns (r: Option<seq<WeightedSigner>>)
    ensures r == if forall i :: 0 <= i < |signers| ==> signers[i].pubKey.Ed25519Key?
                 then Some(FromSigners(signers)) else None
  {
    var listed: seq<WeightedSigner> := [];
    for i := 0 to |signers|
      invariant |listed| == i
      invariant forall k :: 0 <= k < i ==> signers[k].pubKey.Ed25519Key? && listed[k] == FromSigner(signers[k])
    {
      if !signers[i].pubKey.Ed25519Key? {
        return None;
      }
      var weight := CompactOf(signers[i].weight);
      listed := listed + [WeightedSigner(signers[i].pubKey.bytes, weight)];
    }
    assert listed == FromSigners(signers);
    r := Some(listed);
  }

  /** The panic on a key of the wrong type is None. */
  method FromVerifierSet(vs: VerifierSet, order: seq<Address>) returns (r: Option<WeightedSigners>)
    requires Lists(order, vs)
    ensures r == if AllEd25519(vs) then Some(FromSet(vs, order)) else None
  {
    assert forall i :: 0 <= i < |order| ==> order[i] in Elements(order);
    var signers := InOrder(vs, order);
    forall a | a in vs.signers ensures exists k :: 0 <= k < |order| && order[k] == a {
      assert a in Elements(order);
    }
    var listed := ConvertAll(signers);
    if listed.None? {
      return None;
    }
    var threshold := CompactOf(vs.threshold);
    r := Some(WeightedSigners(StableSort(KeyOrder, listed.value), threshold, BigEndian(vs.createdAt, 32)));
  }

  lemma KeyOrderIsTotal()
    ensures Total(KeyOrder) && Transitive(KeyOrder)
  {
    forall a: WeightedSigner, b: WeightedSigner ensures KeyOrder(a, b) || KeyOrder(b, a) {
      LexTotal(a.signer, b.signer);
    }
    forall a: WeightedSigner, b: WeightedSigner, c: WeightedSigner | KeyOrder(a, b) && KeyOrder(b, c)
      ensures KeyOrder(a, c)
    {
      LexTransitive(a.signer, b.signer, c.signer);
    }
  }

  /** The encoded signers are those of the set with their keys and weights, sorted by key. */
  lemma SortedByKey(vs: VerifierSet, order: seq<Address>)
    requires Lists(order, vs)
    ensures var signers := FromSet(vs, order).signers;
            && (forall i, j :: 0 <= i < j < |signers| ==> LexLe(signers[i].signer, signers[j].signer))
            && multiset(signers) == multiset(Listed(vs, order))
            && forall i :: 0 <= i < |order| ==>
                 Listed(vs, order)[i].signer == vs.signers[order[i]].pubKey.bytes
                 && FromBigEndian(Listed(vs, order)[i].weight) == vs.signers[order[i]].weight
  {
    KeyOrderIsTotal();
    var signers := FromSet(vs, order).signers;
    assert SortedBy(KeyOrder, signers);
    forall i | 0 <= i < |order|
      ensures FromBigEndian(Listed(vs, order)[i].weight) == vs.signers[order[i]].weight
    {
      CompactRoundTrip(vs.signers[order[i]].weight);
    }
  }

  /** With distinct keys, sorting makes the encoding independent of the order in which the map lists
      its signers. */
  lemma EncodingIgnoresListing(vs: VerifierSet, one: seq<Address>, other: seq<Address>)
    requires Lists(one, vs) && Lists(other, vs)
    requires forall a, b :: a in vs.signers && b in vs.signers && a != b ==>
               vs.signers[a].pubKey.bytes != vs.signers[b].pubKey.bytes
    ensures FromSet(vs, one) == FromSet(vs, other)
  {
    var l, m := Listed(vs, one), Listed(vs, other);
    ListingsPermute(one, other);
    WeightsPermute(map a | a in vs.signers :: FromSigner(vs.signers[a]), one, l, other, m);
    forall x, y | x in l && y in l && x.signer == y.signer ensures x == y {
      var i :| 0 <= i < |l| && l[i] == x;
      var j :| 0 <= j < |l| && l[j] == y;
      assert one[i] == one[j];
    }
    SortIgnoresListing(l, m);
  }

  lemma SortIgnoresListing(one: seq<WeightedSigner>, other: seq<WeightedSigner>)
    requires multiset(one) == multiset(other)
    requires forall x, y :: x in one && y in one && x.signer == y.signer ==> x == y
    ensures StableSort(KeyOrder, one) == StableSort(KeyOrder, other)
  {
    KeyOrderIsTotal();
    var a, b := StableSort(KeyOrder, one), StableSort(KeyOrder, other);
    forall x, y | x in a && y in a && KeyOrder(x, y) && KeyOrder(y, x) ensures x == y {
      LexAntisymmetric(x.signer, y.signer);
      assert x in multiset(a) && y in multiset(a);
      assert x in one && y in one;
    }
    SortedUnique(KeyOrder, a, b);
  }

  lemma FromSetFits(vs: VerifierSet, order: seq<Address>)
    requires Lists(order, vs) && |order| < LENGTH_LIMIT && AllEd25519(vs)
    requires forall a :: a in vs.signers ==> vs.signers[a].pubKey.WellFormed()
    ensures Fits(FromSet(vs, order))
  {
    var l, s := Listed(vs, order), FromSet(vs, order);
    forall i | 0 <= i < |s.signers| ensures SignerFits(s.signers[i]) {
      assert s.signers[i] in multiset(s.signers);
      assert s.signers[i] in l;
      var j :| 0 <= j < |l| && l[j] == s.signers[i];
      IntegersFit(vs.signers[order[j]].weight);
      CompactLength(vs.signers[order[j]].weight, 16);
    }
    IntegersFit(vs.threshold);
    CompactLength(vs.threshold, 16);
  }

  /** Two Ed25519 verifier sets with fewer than 2^32 signers and equal hash inputs have the same keys
      with the same weights, the same threshold and the same creation height. */
  lemma EqualEncodingsEqualSets(a: VerifierSet, oa: seq<Address>, b: VerifierSet, ob: seq<Address>)
    requires Lists(oa, a) && Lists(ob, b) && |oa| < LENGTH_LIMIT && |ob| < LENGTH_LIMIT
    requires AllEd25519(a) && AllEd25519(b)
    requires forall x :: x in a.signers ==> a.signers[x].pubKey.WellFormed()
    requires forall x :: x in b.signers ==> b.signers[x].pubKey.WellFormed()
    requires Encode(FromSet(a, oa)) == Encode(FromSet(b, ob))
    ensures multiset(Listed(a, oa)) == multiset(Listed(b, ob))
    ensures a.threshold == b.threshold && a.createdAt == b.createdAt
  {
    FromSetFits(a, oa);
    FromSetFits(b, ob);
    UniquelyDecodable(FromSet(a, oa), FromSet(b, ob));
    CompactRoundTrip(a.threshold);
    CompactRoundTrip(b.threshold);
    IntegersFit(a.createdAt);
    IntegersFit(b.createdAt);
    BigEndianInjective(a.createdAt, b.createdAt, 32);
  }
}
