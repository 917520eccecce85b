/** Keys, signatures and verifier sets (contracts/multisig/src/key.rs, msg.rs, verifier_set.rs). */
module MultisigTypes {
  import opened Ints
  import opened Outcomes
  import opened ByteStrings

  type Address = Bytes

  datatype KeyType = Ecdsa | Ed25519

  datatype PublicKey = EcdsaKey(bytes: Bytes) | Ed25519Key(bytes: Bytes) {
    function Type(): KeyType {
      if EcdsaKey? then Ecdsa else Ed25519
    }

    /** Deserialisation admits compressed 33-byte ECDSA and 32-byte Ed25519 keys only. */
    predicate WellFormed() {
      |bytes| == if EcdsaKey? then 33 else 32
    }
  }

  datatype Signature = EcdsaSig(bytes: Bytes) | EcdsaRecoverableSig(bytes: Bytes) | Ed25519Sig(bytes: Bytes)

  /** A signature is read by key type and length. */
  function ParseSignature(keyType: KeyType, bytes: Bytes): Option<Signature> {
    match keyType
    case Ecdsa =>
      if |bytes| == 65 then Some(EcdsaRecoverableSig(bytes))
      else if |bytes| == 64 then Some(EcdsaSig(bytes))
      else None
    case Ed25519 =>
      if |bytes| == 64 then Some(Ed25519Sig(bytes)) else None
  }

  datatype Signer = Signer(address: Address, weight: u128, pubKey: PublicKey)

  datatype SignerWithSig = SignerWithSig(signer: Signer, signature: Signature)

  datatype VerifierSet = VerifierSet(signers: map<Address, Signer>, threshold: u128, createdAt: u64) {
    ghost function Weights(): (w: map<Address, nat>)
      ensures w.Keys == signers.Keys
    {
      map a | a in signers :: signers[a].weight
    }
  }
}

/** Facts about weighted keys that the greedy choice rests on. */
module WeightedKeys {
  import opened Sums

  /** `ws` lists what the map holds for `keys`, position by position. */
  ghost predicate Weighs<K, V>(w: map<K, V>, keys: seq<K>, ws: seq<V>) {
    |ws| == |keys| && forall i :: 0 <= i < |keys| ==> keys[i] in w && ws[i] == w[keys[i]]
  }

  /** No element occurs twice. */
  ghost predicate Distinct<K>(s: seq<K>) {
    s == [] || (s[|s| - 1] !in s[..|s| - 1] && Distinct(s[..|s| - 1]))
  }

  ghost predicate Descending(ws: seq<nat>) {
    forall i, j :: 0 <= i < j < |ws| ==> ws[i] >= ws[j]
  }

  lemma DescendingAt(ws: seq<nat>, i: nat, j: nat)
    requires Descending(ws) && i <= j < |ws|
    ensures ws[i] >= ws[j]
  {
  }

  ghost function Elements<K>(s: seq<K>): set<K> {
    set k | k in s
  }

  lemma ElementsSnoc<K>(s: seq<K>, init: seq<K>, last: K)
    requires s == init + [last]
    ensures Elements(s) == Elements(init) + {last}
    ensures Distinct(s) <==> Distinct(init) && last !in Elements(init)
  {
    assert s[..|s| - 1] == init;
  }

  lemma {:induction false} DistinctPrefix<K>(s: seq<K>, n: nat)
    requires Distinct(s) && n <= |s|
    ensures Distinct(s[..n])
    decreases |s|
  {
    if n == |s| {
      assert s[..n] == s;
    } else {
      DistinctPrefix(s[..|s| - 1], n);
      assert s[..|s| - 1][..n] == s[..n];
    }
  }

  lemma SumSeqSnoc(ws: seq<nat>, init: seq<nat>, last: nat)
    requires ws == init + [last]
    ensures SumSeq(ws) == SumSeq(init) + last
  {
    SumSeqConcat(init, [last]);
    assert SumSeq([last]) == last + SumSeq([]);
  }

  /** Splits a non-empty sequence at its end. */
  lemma Unsnoc<T>(s: seq<T>) returns (init: seq<T>, last: T)
    requires s != []
    ensures s == init + [last] && |init| == |s| - 1
    ensures init == s[..|s| - 1] && last == s[|s| - 1]
  {
    init, last := s[..|s| - 1], s[|s| - 1];
  }

  lemma AddedSize<K>(s: set<K>, k: K)
    requires k !in s
    ensures |s + {k}| == |s| + 1
  {
  }

  /** Takes the last key and its weight off. */
  lemma Peel<K>(w: map<K, nat>, keys: seq<K>, ws: seq<nat>) returns (init: seq<K>, last: K, wInit: seq<nat>)
    requires Weighs(w, keys, ws) && keys != []
    ensures |init| == |keys| - 1 && |wInit| == |ws| - 1
    ensures Weighs(w, init, wInit) && last in w && ws == wInit + [w[last]]
    ensures Elements(keys) == Elements(init) + {last}
    ensures Descending(ws) ==> Descending(wInit)
    ensures Distinct(keys) <==> Distinct(init) && last !in Elements(init)
  {
    init, last := Unsnoc(keys);
    wInit := ws[..|ws| - 1];
    assert ws == wInit + [w[last]];
    ElementsSnoc(keys, init, last);
  }

  /** The exchange argument: no set of keys outweighs equally many of the heaviest. */
  lemma {:induction false} HeaviestDominate<K>(w: map<K, nat>, keys: seq<K>, ws: seq<nat>, chosen: set<K>)
    requires Weighs(w, keys, ws) && Descending(ws)
    requires chosen <= Elements(keys) && chosen <= w.Keys
    ensures |chosen| <= |ws| && SumOver(chosen, w) <= SumSeq(ws[..|chosen|])
    decreases |keys|
  {
    if keys == [] {
      assert chosen == {};
    } else {
      var init, last, wInit := Peel(w, keys, ws);
      if last in chosen {
        HeaviestDominate(w, init, wInit, chosen - {last});
        DominateStep(w, ws, wInit, chosen, last);
      } else {
        HeaviestDominate(w, init, wInit, chosen);
        SamePrefix(wInit, [w[last]], |chosen|);
      }
    }
  }

  lemma SamePrefix<T>(s: seq<T>, more: seq<T>, n: nat)
    requires n <= |s|
    ensures (s + more)[..n] == s[..n]
  {
  }

  /** Putting the lightest key back in adds at most what the next of the heaviest adds. */
  lemma DominateStep<K>(w: map<K, nat>, ws: seq<nat>, wInit: seq<nat>, chosen: set<K>, last: K)
    requires last in chosen && chosen <= w.Keys
    requires Descending(ws) && ws == wInit + [w[last]]
    requires |chosen - {last}| <= |wInit|
    requires SumOver(chosen - {last}, w) <= SumSeq(wInit[..|chosen - {last}|])
    ensures |chosen| <= |ws| && SumOver(chosen, w) <= SumSeq(ws[..|chosen|])
  {
    var r := |chosen - {last}|;
    assert |chosen| == r + 1 by {
      AddedSize(chosen - {last}, last);
      assert chosen - {last} + {last} == chosen;
    }
    SumOverRemove(chosen, w, last);
    DescendingAt(ws, r, |ws| - 1);
    SamePrefix(wInit, [w[last]], r);
    PrefixSnoc(ws, r);
    SumSeqSnoc(ws[..r + 1], ws[..r], ws[r]);
  }

  lemma {:induction false} SumOfDistinct<K>(w: map<K, nat>, keys: seq<K>, ws: seq<nat>)
    requires Weighs(w, keys, ws) && Distinct(keys)
    ensures Elements(keys) <= w.Keys && |Elements(keys)| == |keys|
    ensures SumSeq(ws) == SumOver(Elements(keys), w)
    decreases |keys|
  {
    if keys == [] {
      assert Elements(keys) == {};
    } else {
      var init, last, wInit := Peel(w, keys, ws);
      SumOfDistinct(w, init, wInit);
      SumOverAdd(Elements(init), w, last);
      AddedSize(Elements(init), last);
      SumSeqSnoc(ws, wInit, w[last]);
    }
  }

  lemma RemoveFromMultiset<T>(s: seq<T>, i: nat, rest: seq<T>)
    requires i < |s| && rest == s[..i] + s[i + 1..]
    ensures multiset(s) == multiset(rest) + multiset{s[i]}
  {
    assert s == s[..i] + [s[i]] + s[i + 1..];
  }

  lemma RemoveSame<T>(m: multiset<T>, n: multiset<T>, x: T)
    requires m + multiset{x} == n + multiset{x}
    ensures m == n
  {
    assert m == (m + multiset{x}) - multiset{x};
    assert n == (n + multiset{x}) - multiset{x};
  }

  lemma WeighsRemove<K, V>(w: map<K, V>, keys: seq<K>, ws: seq<V>, i: nat) returns (k: seq<K>, v: seq<V>)
    requires Weighs(w, keys, ws) && i < |keys|
    ensures k == keys[..i] + keys[i + 1..] && Weighs(w, k, v) && |k| == |keys| - 1
    ensures multiset(keys) == multiset(k) + multiset{keys[i]}
    ensures multiset(ws) == multiset(v) + multiset{w[keys[i]]}
  {
    k, v := keys[..i] + keys[i + 1..], ws[..i] + ws[i + 1..];
    RemoveFromMultiset(keys, i, k);
    RemoveFromMultiset(ws, i, v);
  }

  lemma {:induction false} WeightsPermute<K, V>(w: map<K, V>, a: seq<K>, wa: seq<V>, b: seq<K>, wb: seq<V>)
    requires Weighs(w, a, wa) && Weighs(w, b, wb)
    requires multiset(a) == multiset(b)
    ensures multiset(wa) == multiset(wb)
    decreases |a|
  {
    assert |multiset(a)| == |a| && |multiset(b)| == |b|;
    if a != [] {
      assert a[0] in multiset(b);
      var i :| 0 <= i < |b| && b[i] == a[0];
      var a', wa' := WeighsRemove(w, a, wa, 0);
      var b', wb' := WeighsRemove(w, b, wb, i);
      RemoveSame(multiset(a'), multiset(b'), a[0]);
      WeightsPermute(w, a', wa', b', wb');
    }
  }

  lemma {:induction false} DistinctCounts<K>(s: seq<K>)
    ensures Distinct(s) <==> (forall x :: x in s ==> multiset(s)[x] == 1)
    decreases |s|
  {
    if s != [] {
      var init, last := Unsnoc(s);
      DistinctCounts(init);
      ElementsSnoc(s, init, last);
      assert forall x :: x in init <==> x in multiset(init);
      if forall x :: x in s ==> multiset(s)[x] == 1 {
        assert last in s;
        assert last !in init;
        assert forall x :: x in init ==> x in s && multiset(init)[x] == 1;
      }
    }
  }

  /** Two listings of the same keys are permutations of each other. */
  lemma ListingsPermute<K>(one: seq<K>, other: seq<K>)
    requires Distinct(one) && Distinct(other)
    requires Elements(one) == Elements(other)
    ensures multiset(one) == multiset(other)
  {
    DistinctCounts(one);
    DistinctCounts(other);
    forall k ensures multiset(one)[k] == multiset(other)[k] {
      assert k in one <==> k in Elements(one);
      assert k in other <==> k in Elements(other);
      assert k in one <==> k in multiset(one);
      assert k in other <==> k in multiset(other);
    }
  }

  lemma PermutationLists<K>(s: seq<K>, r: seq<K>)
    requires Distinct(s) && multiset(s) == multiset(r)
    ensures Distinct(r) && Elements(r) == Elements(s)
  {
    DistinctCounts(s);
    DistinctCounts(r);
    assert forall k :: k in s <==> k in multiset(s);
    assert forall k :: k in r <==> k in multiset(r);
  }
}

/** The greedy choice of signatures (contracts/multisig/src/multisig.rs). */
module Quorum {
  import opened Ints
  import opened Sums
  import opened Sorting
  import opened WeightedKeys
  import opened MultisigTypes

  datatype Multisig = Multisig(verifierSet: VerifierSet, signatures: map<Address, Signature>) {
    function Weight(a: Address): u128 {
      if a in verifierSet.signers then verifierSet.signers[a].weight else 0
    }

    /** Every signature belongs to a signer of the set; the lookup panics otherwise. */
    ghost predicate Valid() {
      signatures.Keys <= verifierSet.signers.Keys
    }
  }

  /** One possible iteration order of the signature map. */
  ghost predicate Lists(order: seq<Address>, m: Multisig) {
    Distinct(order) && Elements(order) == m.signatures.Keys
  }

  /** Heaviest first; equal weights keep the iteration order. */
  function ByWeight(m: Multisig, order: seq<Address>): (r: seq<Address>)
    ensures |r| == |order| && multiset(r) == multiset(order)
    ensures forall i, j :: 0 <= i < j < |r| ==> m.Weight(r[i]) >= m.Weight(r[j])
  {
    var le := (a: Address, b: Address) => m.Weight(a) >= m.Weight(b);
    var r := StableSort(le, order);
    assert Total(le) && Transitive(le);
    assert SortedBy(le, r);
    assert forall i, j :: 0 <= i < j < |r| ==> le(r[i], r[j]);
    r
  }

  function WeightsOf(m: Multisig, s: seq<Address>): (r: seq<nat>)
    ensures |r| == |s| && forall i :: 0 <= i < |s| ==> r[i] == m.Weight(s[i])
  {
    seq(|s|, i requires 0 <= i < |s| => m.Weight(s[i]))
  }

  /** In exact arithmetic: how many leading weights are taken until the threshold is reached. */
  function Cut(w: seq<nat>, threshold: nat): (k: nat)
    ensures k <= |w|
  {
    if w == [] || threshold == 0 then 0
    else 1 + Cut(w[1..], SaturatingSub(threshold, w[0]))
  }

  lemma {:induction false} CutIsFirst(w: seq<nat>, threshold: nat)
    ensures var k := Cut(w, threshold);
            && (k == |w| || SumSeq(w[..k]) >= threshold)
            && (k > 0 ==> SumSeq(w[..k - 1]) < threshold)
  {
    var k := Cut(w, threshold);
    if k > 0 {
      CutIsFirst(w[1..], SaturatingSub(threshold, w[0]));
      assert w[..k][1..] == w[1..][..k - 1];
      if k > 1 { assert w[..k - 1][1..] == w[1..][..k - 2]; }
    }
  }

  /** The signer and signature at an address that signed. */
  function Signed(m: Multisig, a: Address): SignerWithSig
    requires a in m.signatures && a in m.verifierSet.signers
  {
    SignerWithSig(m.verifierSet.signers[a], m.signatures[a])
  }

  /** The scan over the sorted signatures. Its saturating accumulator cuts exactly where exact
      arithmetic does. */
  method TakeUntilReached(m: Multisig, sorted: seq<Address>) returns (r: seq<SignerWithSig>)
    requires forall k :: 0 <= k < |sorted| ==> sorted[k] in m.signatures && sorted[k] in m.verifierSet.signers
    ensures |r| == Cut(WeightsOf(m, sorted), m.verifierSet.threshold)
    ensures forall k :: 0 <= k < |r| ==> r[k] == Signed(m, sorted[k])
  {
    ghost var w := WeightsOf(m, sorted);
    var acc: u128 := 0;
    ghost var exact: nat := 0;
    r := [];
    while |r| < |sorted| && acc < m.verifierSet.threshold
      invariant |r| <= |sorted| && acc == Min(exact, U128_MAX)
      invariant |r| + Cut(w[|r|..], SaturatingSub(m.verifierSet.threshold, exact)) == Cut(w, m.verifierSet.threshold)
      invariant forall k :: 0 <= k < |r| ==> r[k] == Signed(m, sorted[k])
      decreases |sorted| - |r|
    {
      var signed := Signed(m, sorted[|r|]);
      assert w[|r|..][1..] == w[|r| + 1..];
      acc := SaturatingAdd128(acc, signed.signer.weight);
      exact := exact + signed.signer.weight;
      r := r + [signed];
    }
  }

  /** `optimize_signatures` for one iteration order of the signature map. */
  method OptimizeSignatures(m: Multisig, order: seq<Address>) returns (r: seq<SignerWithSig>)
    requires m.Valid() && Lists(order, m)
    ensures var chosen := Selected(m, order);
            && |r| == |chosen|
            && forall i :: 0 <= i < |r| ==>
                 && chosen[i] in m.signatures && chosen[i] in m.verifierSet.signers
                 && r[i].signer == m.verifierSet.signers[chosen[i]] && r[i].signature == m.signatures[chosen[i]]
  {
    SortedLists(m, order);
    var sorted := ByWeight(m, order);
    assert forall k :: 0 <= k < |sorted| ==> sorted[k] in Elements(sorted);
    r := TakeUntilReached(m, sorted);
  }

  lemma SortedLists(m: Multisig, order: seq<Address>)
    requires m.Valid() && Lists(order, m)
    ensures Lists(ByWeight(m, order), m)
    ensures Weighs(m.verifierSet.Weights(), ByWeight(m, order), WeightsOf(m, ByWeight(m, order)))
  {
    var r := ByWeight(m, order);
    PermutationLists(order, r);
    forall i | 0 <= i < |r| ensures r[i] in m.signatures {
      assert r[i] in Elements(r);
    }
  }

  // ---------------------------------------------------------------- minimality

  /** The chosen signers of one iteration order. */
  ghost function Selected(m: Multisig, order: seq<Address>): seq<Address> {
    var sorted := ByWeight(m, order);
    sorted[..Cut(WeightsOf(m, sorted), m.verifierSet.threshold)]
  }

  /** When the signatures reach the threshold, the selection reaches it and no subset of the
      signatures that reaches it is smaller; otherwise every signature is returned. */
  lemma SelectionIsMinimumQuorum(m: Multisig, order: seq<Address>, quorum: set<Address>)
    requires m.Valid() && Lists(order, m)
    requires quorum <= m.signatures.Keys
    ensures var chosen := Elements(Selected(m, order));
            var w := m.verifierSet.Weights();
            && chosen <= m.signatures.Keys
            && |Selected(m, order)| == |chosen|
            && (SumOver(m.signatures.Keys, w) >= m.verifierSet.threshold ==>
                  SumOver(chosen, w) >= m.verifierSet.threshold)
            && (SumOver(m.signatures.Keys, w) < m.verifierSet.threshold ==> chosen == m.signatures.Keys)
            && (SumOver(quorum, w) >= m.verifierSet.threshold ==> |chosen| <= |quorum|)
  {
    SortedLists(m, order);
    var sorted := ByWeight(m, order);
    CutIsMinimum(m.verifierSet.Weights(), sorted, WeightsOf(m, sorted), m.verifierSet.threshold, quorum);
  }

  lemma CutIsMinimum<K>(w: map<K, nat>, keys: seq<K>, ws: seq<nat>, threshold: nat, quorum: set<K>)
    requires Weighs(w, keys, ws) && Distinct(keys) && Descending(ws)
    requires quorum <= Elements(keys)
    ensures Elements(keys) <= w.Keys
    ensures var k := Cut(ws, threshold);
            var chosen := Elements(keys[..k]);
            && chosen <= Elements(keys) && |chosen| == k
            && (SumOver(Elements(keys), w) >= threshold ==> SumOver(chosen, w) >= threshold)
            && (SumOver(Elements(keys), w) < threshold ==> chosen == Elements(keys))
            && (SumOver(quorum, w) >= threshold ==> k <= |quorum|)
  {
    var k := Cut(ws, threshold);
    CutIsFirst(ws, threshold);
    if k == |ws| {
      assert keys[..k] == keys;
    }
    SumOfDistinct(w, keys, ws);
    DistinctPrefix(keys, k);
    SumOfDistinct(w, keys[..k], ws[..k]);
    forall x | x in Elements(keys[..k]) ensures x in Elements(keys) {
      assert x in keys[..k];
    }
    SumOverMonotone(Elements(keys[..k]), Elements(keys), w);
    if SumOver(quorum, w) >= threshold {
      QuorumReachesCut(w, keys, ws, threshold, quorum);
    }
  }

  lemma QuorumReachesCut<K>(w: map<K, nat>, keys: seq<K>, ws: seq<nat>, threshold: nat, quorum: set<K>)
    requires Weighs(w, keys, ws) && Descending(ws)
    requires quorum <= Elements(keys) && quorum <= w.Keys && SumOver(quorum, w) >= threshold
    ensures Cut(ws, threshold) <= |quorum|
  {
    var k := Cut(ws, threshold);
    HeaviestDominate(w, keys, ws, quorum);
    if |quorum| < k {
      CutIsFirst(ws, threshold);
      PrefixSum(ws, |quorum|, k - 1);
      assert false;
    }
  }

  lemma PrefixSum(ws: seq<nat>, i: nat, j: nat)
    requires i <= j <= |ws|
    ensures SumSeq(ws[..i]) <= SumSeq(ws[..j])
  {
    assert ws[..j] == ws[..i] + ws[i..j];
    SumSeqConcat(ws[..i], ws[i..j]);
  }

  lemma DescendingUnique(a: seq<nat>, b: seq<nat>)
    requires Descending(a) && Descending(b) && multiset(a) == multiset(b)
    ensures a == b
  {
    SortedUnique((x: nat, y: nat) => x >= y, a, b);
  }

  /** The weights of the selection are the same for every iteration order of the signature map. */
  lemma SelectionWeightsIgnoreOrder(m: Multisig, one: seq<Address>, other: seq<Address>)
    requires m.Valid() && Lists(one, m) && Lists(other, m)
    ensures WeightsOf(m, Selected(m, one)) == WeightsOf(m, Selected(m, other))
  {
    var a, b := ByWeight(m, one), ByWeight(m, other);
    SortedLists(m, one);
    SortedLists(m, other);
    ListingsPermute(a, b);
    var wa, wb := WeightsOf(m, a), WeightsOf(m, b);
    WeightsPermute(m.verifierSet.Weights(), a, wa, b, wb);
    DescendingUnique(wa, wb);
    PrefixWeights(m, a, Cut(wa, m.verifierSet.threshold));
    PrefixWeights(m, b, Cut(wa, m.verifierSet.threshold));
  }

  lemma PrefixWeights(m: Multisig, s: seq<Address>, k: nat)
    requires k <= |s|
    ensures WeightsOf(m, s[..k]) == WeightsOf(m, s)[..k]
  {
  }
}
