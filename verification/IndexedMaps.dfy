/** An indexed map of the storage library with a unique index over its values: a primary map and an index
    map that the library updates together. A failed save is rolled back with the whole call. */
module UniqueMaps {
  import opened Outcomes

  datatype Unique<K, V> = Unique(primary: map<K, V>, index: map<V, K>)

  /** The old value of the key leaves the index first; then the new value must not be indexed. */
  function Saved<K, V>(u: Unique<K, V>, k: K, v: V): Option<Unique<K, V>> {
    var freed := if k in u.primary then u.index - {u.primary[k]} else u.index;
    if v in freed then None else Some(Unique(u.primary[k := v], freed[v := k]))
  }

  /** Primary map and index are inverse to each other. */
  ghost predicate Consistent<K(!new), V(!new)>(u: Unique<K, V>) {
    && (forall k :: k in u.primary ==> u.primary[k] in u.index && u.index[u.primary[k]] == k)
    && (forall v :: v in u.index ==> u.index[v] in u.primary && u.primary[u.index[v]] == v)
  }

  /** A save succeeds exactly when no other key holds the value, and keeps both maps inverse to each other. */
  lemma {:induction false} SavedIff<K(!new), V(!new)>(u: Unique<K, V>, k: K, v: V)
    requires Consistent(u)
    ensures Saved(u, k, v).Some? <==> forall j :: j in u.primary && u.primary[j] == v ==> j == k
    ensures Saved(u, k, v).Some? ==>
              Consistent(Saved(u, k, v).value) && Saved(u, k, v).value.primary == u.primary[k := v]
  {
    if Saved(u, k, v).Some? {
      var t := Saved(u, k, v).value;
      forall w | w in t.index ensures t.index[w] in t.primary && t.primary[t.index[w]] == w {
        if w != v { assert w in u.index; }
      }
    }
  }

  ghost function Run<K, V>(u: Unique<K, V>, saves: seq<(K, V)>): Unique<K, V>
    decreases |saves|
  {
    if |saves| == 0 then u else Run(Saved(u, saves[0].0, saves[0].1).GetOr(u), saves[1..])
  }

  lemma {:induction false} RunKeepsConsistent<K(!new), V(!new)>(u: Unique<K, V>, saves: seq<(K, V)>)
    requires Consistent(u)
    ensures Consistent(Run(u, saves))
    decreases |saves|
  {
    if |saves| > 0 {
      SavedIff(u, saves[0].0, saves[0].1);
      RunKeepsConsistent(Saved(u, saves[0].0, saves[0].1).GetOr(u), saves[1..]);
    }
  }
}

/** Registered provers and active verifier sets (contracts/coordinator/src/state.rs). */
module Coordinators {
  import opened Outcomes
  import opened UniqueMaps

  type Chain = string
  type Prover = string
  type Verifier = string

  // ---------------------------------------------------------------- provers per chain

  const NO_PROVERS: Unique<Chain, Prover> := Unique(map[], map[])

  /** After every run of registrations, failed ones included, a prover is registered exactly when some chain
      maps to it, and no prover serves two chains. */
  lemma {:induction false} RegisteredIffSomeChain(saves: seq<(Chain, Prover)>, p: Prover)
    ensures var u := Run(NO_PROVERS, saves);
            && (p in u.index <==> exists c :: c in u.primary && u.primary[c] == p)
            && (forall c, d :: c in u.primary && d in u.primary && u.primary[c] == p == u.primary[d] ==> c == d)
  {
    RunKeepsConsistent(NO_PROVERS, saves);
    var u := Run(NO_PROVERS, saves);
    if p in u.index { assert u.index[p] in u.primary; }
  }

  // ---------------------------------------------------------------- verifiers per prover

  datatype Record = Record(prover: Prover, verifier: Verifier)

  /** The primary map and the by-verifier index, which holds a primary key under each indexed verifier. */
  datatype Records = Records(
    primary: map<(Prover, Verifier), Record>,
    byVerifier: set<(Verifier, (Prover, Verifier))>)

  const NO_RECORDS := Records(map[], {})

  function Saving(r: Records, key: (Prover, Verifier), record: Record): Records {
    var freed := if key in r.primary then r.byVerifier - {(r.primary[key].verifier, key)} else r.byVerifier;
    Records(r.primary[key := record], freed + {(record.verifier, key)})
  }

  function Removing(r: Records, key: (Prover, Verifier)): Records {
    if key !in r.primary then r
    else Records(r.primary - {key}, r.byVerifier - {(r.primary[key].verifier, key)})
  }

  /** The verifiers stored for a prover. */
  function Existing(r: Records, p: Prover): set<Verifier> {
    set k | k in r.primary && k.0 == p :: k.1
  }

  /** The provers that the index returns for a verifier. */
  function ProversOf(r: Records, v: Verifier): set<Prover> {
    set e | e in r.byVerifier && e.0 == v :: e.1.0
  }

  /** What primary map and index must be for a relation between provers and verifiers. */
  ghost function RecordsOf(pairs: set<(Prover, Verifier)>): Records {
    Records(map k | k in pairs :: Record(k.0, k.1), set k | k in pairs :: (k.1, k))
  }

  ghost function Replaced(pairs: set<(Prover, Verifier)>, p: Prover, verifiers: set<Verifier>): set<(Prover, Verifier)> {
    (set k | k in pairs && k.0 != p) + (set v | v in verifiers :: (p, v))
  }

  lemma {:induction false} ReplacedExisting(pairs: set<(Prover, Verifier)>, p: Prover, verifiers: set<Verifier>)
    ensures Existing(RecordsOf(Replaced(pairs, p, verifiers)), p) == verifiers
  {
    var r := RecordsOf(Replaced(pairs, p, verifiers));
    forall v ensures v in Existing(r, p) <==> v in verifiers {
      if v in verifiers { assert (p, v) in r.primary; }
    }
  }

  lemma {:induction false} SavingAddsPair(pairs: set<(Prover, Verifier)>, key: (Prover, Verifier))
    ensures Saving(RecordsOf(pairs), key, Record(key.0, key.1)) == RecordsOf(pairs + {key})
  {
    var r := Saving(RecordsOf(pairs), key, Record(key.0, key.1));
    assert r.primary == RecordsOf(pairs + {key}).primary;
    forall e ensures e in r.byVerifier <==> e in RecordsOf(pairs + {key}).byVerifier {
      if e in RecordsOf(pairs + {key}).byVerifier { assert e == (e.1.1, e.1); }
    }
  }

  lemma {:induction false} RemovingDropsPair(pairs: set<(Prover, Verifier)>, key: (Prover, Verifier))
    ensures Removing(RecordsOf(pairs), key) == RecordsOf(pairs - {key})
  {
    var r := Removing(RecordsOf(pairs), key);
    assert r.primary == RecordsOf(pairs - {key}).primary;
    forall e ensures e in r.byVerifier <==> e in RecordsOf(pairs - {key}).byVerifier {
      if e in RecordsOf(pairs - {key}).byVerifier { assert e == (e.1.1, e.1); }
    }
  }

  /** One call per update, latest last. */
  datatype SetUpdate = SetUpdate(prover: Prover, verifiers: set<Verifier>)

  /** The set of the last update for a prover. */
  function Latest(updates: seq<SetUpdate>, p: Prover): Option<set<Verifier>> {
    if updates == [] then None
    else
      var last := updates[|updates| - 1];
      if last.prover == p then Some(last.verifiers) else Latest(updates[..|updates| - 1], p)
  }

  ghost function Pairs(updates: seq<SetUpdate>): set<(Prover, Verifier)> {
    if updates == [] then {}
    else
      var last := updates[|updates| - 1];
      Replaced(Pairs(updates[..|updates| - 1]), last.prover, last.verifiers)
  }

  lemma {:induction false} PairsAreLatest(updates: seq<SetUpdate>, p: Prover, v: Verifier)
    ensures (p, v) in Pairs(updates) <==> Latest(updates, p).Some? && v in Latest(updates, p).value
  {
    if updates != [] { PairsAreLatest(updates[..|updates| - 1], p, v); }
  }

  /** After every run of updates the stored pairs are exactly each prover's latest set, and the index returns
      for a verifier exactly the provers whose latest set holds it. */
  lemma {:induction false} LatestSetPerProver(updates: seq<SetUpdate>, p: Prover, v: Verifier)
    ensures var r, latest := RecordsOf(Pairs(updates)), Latest(updates, p);
            && ((p, v) in r.primary <==> latest.Some? && v in latest.value)
            && (p in ProversOf(r, v) <==> latest.Some? && v in latest.value)
            && Existing(r, p) == latest.GetOr({})
  {
    var r, latest := RecordsOf(Pairs(updates)), Latest(updates, p);
    PairsAreLatest(updates, p, v);
    if (p, v) in Pairs(updates) { assert (v, (p, v)) in r.byVerifier; }
    forall w ensures w in Existing(r, p) <==> w in latest.GetOr({}) {
      PairsAreLatest(updates, p, w);
      if (p, w) in Pairs(updates) { assert (p, w) in r.primary; }
    }
  }

  class Coordinator {
    var chainProvers: Unique<Chain, Prover>
    var records: Records
    ghost var updates: seq<SetUpdate>

    /** Every index agrees with its map, and the records are those of the updates made so far. */
    ghost predicate Valid()
      reads this
    {
      Consistent(chainProvers) && records == RecordsOf(Pairs(updates))
    }

    constructor ()
      ensures Valid() && chainProvers == NO_PROVERS && records == NO_RECORDS && updates == []
    {
      chainProvers, records, updates := NO_PROVERS, NO_RECORDS, [];
    }

    method IsProverRegistered(p: Prover) returns (r: bool)
      requires Valid()
      ensures r <==> exists c :: c in chainProvers.primary && chainProvers.primary[c] == p
    {
      r := p in chainProvers.index;
      if r { assert chainProvers.index[p] in chainProvers.primary; }
    }

    method SaveProverForChain(chain: Chain, p: Prover) returns (ok: bool)
      requires Valid()
      modifies this`chainProvers
      ensures Valid()
      ensures ok <==> forall c :: c in old(chainProvers.primary) && old(chainProvers.primary)[c] == p ==> c == chain
      ensures chainProvers.primary == if ok then old(chainProvers.primary)[chain := p] else old(chainProvers.primary)
      ensures chainProvers == Saved(old(chainProvers), chain, p).GetOr(old(chainProvers))
    {
      SavedIff(chainProvers, chain, p);
      var saved := Saved(chainProvers, chain, p);
      if saved.None? { return false; }
      chainProvers := saved.value;
      return true;
    }

    method RemoveAll(p: Prover, stale: set<Verifier>, ghost pairs: set<(Prover, Verifier)>)
      requires records == RecordsOf(pairs)
      modifies this`records
      ensures records == RecordsOf(set k | k in pairs && !(k.0 == p && k.1 in stale))
    {
      ghost var now := pairs;
      var rest := stale;
      while rest != {}
        invariant records == RecordsOf(now) && rest <= stale
        invariant now == set k | k in pairs && !(k.0 == p && k.1 in stale - rest)
      {
        var v :| v in rest;
        RemovingDropsPair(now, (p, v));
        records := Removing(records, (p, v));
        now := now - {(p, v)};
        rest := rest - {v};
      }
      assert now == set k | k in pairs && !(k.0 == p && k.1 in stale);
    }

    method SaveAll(p: Prover, missing: set<Verifier>, ghost pairs: set<(Prover, Verifier)>)
      requires records == RecordsOf(pairs)
      modifies this`records
      ensures records == RecordsOf(pairs + set v | v in missing :: (p, v))
    {
      ghost var now := pairs;
      var rest := missing;
      while rest != {}
        invariant records == RecordsOf(now) && rest <= missing
        invariant now == pairs + set v | v in missing - rest :: (p, v)
      {
        var v :| v in rest;
        SavingAddsPair(now, (p, v));
        records := Saving(records, (p, v), Record(p, v));
        now := now + {(p, v)};
        rest := rest - {v};
      }
      assert now == pairs + set v | v in missing :: (p, v);
    }

    /** The diff-based update: stale pairs are removed one by one, then missing pairs are saved one by one. */
    method UpdateVerifierSetForProver(p: Prover, verifiers: set<Verifier>)
      requires Valid()
      modifies this`records, this`updates
      ensures Valid() && updates == old(updates) + [SetUpdate(p, verifiers)]
      ensures Existing(records, p) == verifiers
      ensures forall k: (Prover, Verifier) :: k.0 != p ==> (k in records.primary <==> k in old(records.primary))
    {
      ghost var pairs := Pairs(updates);
      var existing := Existing(records, p);
      ghost var kept := set k | k in pairs && !(k.0 == p && k.1 in existing - verifiers);
      RemoveAll(p, existing - verifiers, pairs);
      SaveAll(p, verifiers - existing, kept);
      DiffReplaces(pairs, p, verifiers);
      updates := updates + [SetUpdate(p, verifiers)];
      PairsSnoc(old(updates), SetUpdate(p, verifiers));
      ReplacedExisting(pairs, p, verifiers);
    }

    /** A whole run of updates, after which map and index hold each prover's latest set. */
    method UpdateVerifierSets(run: seq<SetUpdate>)
      requires Valid()
      modifies this`records, this`updates
      ensures Valid() && updates == old(updates) + run
      ensures forall p, v :: (p, v) in records.primary <==>
                Latest(updates, p).Some? && v in Latest(updates, p).value
      ensures forall p, v :: p in ProversOf(records, v) <==>
                Latest(updates, p).Some? && v in Latest(updates, p).value
      ensures forall p :: Existing(records, p) == Latest(updates, p).GetOr({})
    {
      for i := 0 to |run|
        invariant Valid() && updates == old(updates) + run[..i]
      {
        UpdateVerifierSetForProver(run[i].prover, run[i].verifiers);
      }
      assert run[..|run|] == run;
      HoldsLatest(updates);
    }
  }

  lemma {:induction false} HoldsLatest(updates: seq<SetUpdate>)
    ensures var r := RecordsOf(Pairs(updates));
            && (forall p, v :: (p, v) in r.primary <==> Latest(updates, p).Some? && v in Latest(updates, p).value)
            && (forall p, v :: p in ProversOf(r, v) <==> Latest(updates, p).Some? && v in Latest(updates, p).value)
            && (forall p :: Existing(r, p) == Latest(updates, p).GetOr({}))
  {
    forall p, v
      ensures (p, v) in RecordsOf(Pairs(updates)).primary <==> Latest(updates, p).Some? && v in Latest(updates, p).value
      ensures p in ProversOf(RecordsOf(Pairs(updates)), v) <==> Latest(updates, p).Some? && v in Latest(updates, p).value
    {
      LatestSetPerProver(updates, p, v);
    }
    forall p ensures Existing(RecordsOf(Pairs(updates)), p) == Latest(updates, p).GetOr({}) {
      LatestSetPerProver(updates, p, "");
    }
  }

  lemma {:induction false} PairsSnoc(updates: seq<SetUpdate>, u: SetUpdate)
    ensures Pairs(updates + [u]) == Replaced(Pairs(updates), u.prover, u.verifiers)
  {
    assert (updates + [u])[..|updates|] == updates;
  }

  /** Removing what is stale and adding what is missing replaces the prover's set. */
  lemma {:induction false} DiffReplaces(pairs: set<(Prover, Verifier)>, p: Prover, verifiers: set<Verifier>)
    ensures var existing := Existing(RecordsOf(pairs), p);
            (set k | k in pairs && !(k.0 == p && k.1 in existing - verifiers))
            + (set v | v in verifiers - existing :: (p, v)) == Replaced(pairs, p, verifiers)
  {
    var existing := Existing(RecordsOf(pairs), p);
    var now := (set k | k in pairs && !(k.0 == p && k.1 in existing - verifiers))
               + (set v | v in verifiers - existing :: (p, v));
    forall k ensures k in now <==> k in Replaced(pairs, p, verifiers) {
      if k.0 == p {
        assert k == (p, k.1);
        if k in pairs { assert k in RecordsOf(pairs).primary; }
      }
    }
  }
}

/** Registration of verifier keys (contracts/multisig/src/state.rs). */
module PubKeys {
  import opened Outcomes
  import opened ByteStrings
  import opened MultisigTypes
  import opened UniqueMaps

  type Slot = (Address, KeyType)

  datatype Error = InvalidSignatureFormat | InvalidRegistrationSignature | DuplicatePublicKey | UniqueConstraint

  /** A call of `register_pub_key`: the sender signs the hash of its own address with the key. */
  datatype Call = Register(sender: Address, key: PublicKey, signature: Bytes)

  datatype Crypto = Crypto(hash: Address -> Bytes, verify: (Bytes, PublicKey, Signature) -> bool)

  /** `save_pub_key`: a key that is indexed for anyone, the sender included, is refused. */
  function SavePubKey(u: Unique<Slot, Bytes>, signer: Address, key: PublicKey): Result<Unique<Slot, Bytes>, Error> {
    if key.bytes in u.index then Err(DuplicatePublicKey)
    else match Saved(u, (signer, key.Type()), key.bytes)
    case None => Err(UniqueConstraint)
    case Some(t) => Ok(t)
  }

  function Registered(crypto: Crypto, u: Unique<Slot, Bytes>, call: Call): Result<Unique<Slot, Bytes>, Error> {
    match ParseSignature(call.key.Type(), call.signature)
    case None => Err(InvalidSignatureFormat)
    case Some(sig) =>
      if !crypto.verify(crypto.hash(call.sender), call.key, sig) then Err(InvalidRegistrationSignature)
      else SavePubKey(u, call.sender, call.key)
  }

  function Step(crypto: Crypto, u: Unique<Slot, Bytes>, call: Call): Unique<Slot, Bytes> {
    match Registered(crypto, u, call)
    case Err(_) => u
    case Ok(t) => t
  }

  function Run(crypto: Crypto, u: Unique<Slot, Bytes>, calls: seq<Call>): Unique<Slot, Bytes>
    decreases |calls|
  {
    if |calls| == 0 then u else Run(crypto, Step(crypto, u, calls[0]), calls[1..])
  }

  const NO_KEYS: Unique<Slot, Bytes> := Unique(map[], map[])

  /** The holder has proved to own the key. */
  ghost predicate Owned(crypto: Crypto, slot: Slot, bytes: Bytes) {
    exists key: PublicKey, sig: Signature ::
      key.bytes == bytes && key.Type() == slot.1 && crypto.verify(crypto.hash(slot.0), key, sig)
  }

  ghost predicate Inv(crypto: Crypto, u: Unique<Slot, Bytes>) {
    Consistent(u) && forall slot :: slot in u.primary ==> Owned(crypto, slot, u.primary[slot])
  }

  /** The second check of the index never fires, and a well-signed registration succeeds exactly when nobody
      holds the key, the sender included. */
  lemma {:induction false} RegistersIffUnheld(crypto: Crypto, u: Unique<Slot, Bytes>, call: Call)
    requires Consistent(u)
    ensures Registered(crypto, u, call) != Err(UniqueConstraint)
    ensures Registered(crypto, u, call).Ok? <==>
              && ParseSignature(call.key.Type(), call.signature).Some?
              && crypto.verify(crypto.hash(call.sender), call.key, ParseSignature(call.key.Type(), call.signature).value)
              && forall slot :: slot in u.primary ==> u.primary[slot] != call.key.bytes
    ensures Registered(crypto, u, call) == Err(InvalidSignatureFormat) <==>
              !(|call.signature| == 64 || (call.key.EcdsaKey? && |call.signature| == 65))
    ensures Registered(crypto, u, call) == Err(DuplicatePublicKey) ==>
              exists slot :: slot in u.primary && u.primary[slot] == call.key.bytes
    ensures Registered(crypto, u, call).Ok? ==>
              && Consistent(Registered(crypto, u, call).value)
              && Registered(crypto, u, call).value.primary == u.primary[(call.sender, call.key.Type()) := call.key.bytes]
  {
    var slot := (call.sender, call.key.Type());
    SavedIff(u, slot, call.key.bytes);
    if call.key.bytes in u.index {
      assert u.index[call.key.bytes] in u.primary && u.primary[u.index[call.key.bytes]] == call.key.bytes;
    }
  }

  lemma {:induction false} StepKeeps(crypto: Crypto, u: Unique<Slot, Bytes>, call: Call)
    requires Inv(crypto, u)
    ensures Inv(crypto, Step(crypto, u, call))
  {
    RegistersIffUnheld(crypto, u, call);
    if Registered(crypto, u, call).Ok? {
      assert Owned(crypto, (call.sender, call.key.Type()), call.key.bytes);
    }
  }

  lemma {:induction false} RunKeeps(crypto: Crypto, u: Unique<Slot, Bytes>, calls: seq<Call>)
    requires Inv(crypto, u)
    ensures Inv(crypto, Run(crypto, u, calls))
    decreases |calls|
  {
    if |calls| > 0 {
      StepKeeps(crypto, u, calls[0]);
      RunKeeps(crypto, Step(crypto, u, calls[0]), calls[1..]);
    }
  }

  /** After every run of registrations no key is held twice, by different signers or under different key types,
      and every held key was proved to belong to its holder. */
  lemma {:induction false} KeysHaveOneOwner(crypto: Crypto, calls: seq<Call>, a: Slot, b: Slot)
    requires a in Run(crypto, NO_KEYS, calls).primary && b in Run(crypto, NO_KEYS, calls).primary
    ensures var u := Run(crypto, NO_KEYS, calls);
            && (u.primary[a] == u.primary[b] ==> a == b)
            && Owned(crypto, a, u.primary[a])
  {
    RunKeeps(crypto, NO_KEYS, calls);
  }

  class KeyRegistry {
    var keys: Unique<Slot, Bytes>

    constructor ()
      ensures keys == NO_KEYS
    {
      keys := NO_KEYS;
    }

    method RegisterPubKey(crypto: Crypto, call: Call) returns (e: Option<Error>)
      modifies this
      ensures match Registered(crypto, old(keys), call)
              case Ok(u) => e == None && keys == u
              case Err(error) => e == Some(error) && keys == old(keys)
    {
      var sig := ParseSignature(call.key.Type(), call.signature);
      if sig.None? { return Some(InvalidSignatureFormat); }
      if !crypto.verify(crypto.hash(call.sender), call.key, sig.value) { return Some(InvalidRegistrationSignature); }
      if call.key.bytes in keys.index { return Some(DuplicatePublicKey); }
      var saved := Saved(keys, (call.sender, call.key.Type()), call.key.bytes);
      if saved.None? { return Some(UniqueConstraint); }
      keys := saved.value;
      return None;
    }
  }
}
