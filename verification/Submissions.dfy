/** Which calls of the multisig contract are accepted, condition by condition
    (contracts/multisig/src/contract/execute.rs, signing.rs and key.rs). */
module Submissions {
  import opened Ints
  import opened Outcomes
  import opened Sums
  import opened ByteStrings
  import opened MultisigTypes
  import opened SigningSessions

  /** The bytes are this signature for a key of this type: 64 bytes for either type, 65 with a recovery byte for
      an ECDSA key. */
  predicate ReadAs(key: PublicKey, bytes: Bytes, sig: Signature) {
    && sig.bytes == bytes
    && match sig
       case EcdsaSig(_) => key.EcdsaKey? && |bytes| == 64
       case EcdsaRecoverableSig(_) => key.EcdsaKey? && |bytes| == 65
       case Ed25519Sig(_) => key.Ed25519Key? && |bytes| == 64
  }

  lemma {:induction false} ReadIff(key: PublicKey, bytes: Bytes, sig: Signature)
    ensures ParseSignature(key.Type(), bytes) == Some(sig) <==> ReadAs(key, bytes, sig)
    ensures ParseSignature(key.Type(), bytes).Some? <==> |bytes| == 64 || (key.EcdsaKey? && |bytes| == 65)
  {
  }

  // ---------------------------------------------------------------- the conditions of a submission

  /** Signing is enabled, and the session and its set exist. */
  predicate Found(s: Store, c: Call)
    requires c.Submit?
  {
    s.active && c.session in s.sessions && s.sessions[c.session].setId in s.sets
  }

  function SetOf(s: Store, c: Call): VerifierSet
    requires c.Submit? && Found(s, c)
  {
    s.sets[s.sessions[c.session].setId]
  }

  predicate Participates(s: Store, c: Call)
    requires c.Submit?
  {
    Found(s, c) && c.sender in SetOf(s, c).signers
  }

  function KeyOf(s: Store, c: Call): PublicKey
    requires c.Submit? && Participates(s, c)
  {
    SetOf(s, c).signers[c.sender].pubKey
  }

  predicate Readable(s: Store, c: Call)
    requires c.Submit?
  {
    Participates(s, c) && (|c.bytes| == 64 || (KeyOf(s, c).EcdsaKey? && |c.bytes| == 65))
  }

  predicate InTime(s: Store, c: Call)
    requires c.Submit?
  {
    Readable(s, c) && c.height <= s.sessions[c.session].expiresAt
  }

  /** The external verifier says so, or without one the signature verifies under the sender's key. */
  ghost predicate Authentic(crypto: Crypto, s: Store, c: Call)
    requires c.Submit?
  {
    && InTime(s, c)
    && if s.sessions[c.session].sigVerifier.Some? then c.verdict
       else exists sig :: ReadAs(KeyOf(s, c), c.bytes, sig) && crypto.verify(s.sessions[c.session].msg, KeyOf(s, c), sig)
  }

  ghost predicate First(crypto: Crypto, s: Store, c: Call)
    requires c.Submit?
  {
    Authentic(crypto, s, c) && (c.session, c.sender) !in s.signatures
  }

  ghost predicate OnlyParticipants(crypto: Crypto, s: Store, c: Call)
    requires c.Submit?
  {
    First(crypto, s, c) && forall a :: (c.session, a) in s.signatures ==> a in SetOf(s, c).signers
  }

  /** The weight of the signers, the sender included. */
  ghost function NewWeight(s: Store, c: Call): nat
    requires c.Submit? && Participates(s, c)
    requires forall a :: (c.session, a) in s.signatures ==> a in SetOf(s, c).signers
  {
    SumOver(Signers(s.signatures, c.session) + {c.sender}, SetOf(s, c).Weights())
  }

  ghost predicate Acceptable(crypto: Crypto, s: Store, c: Call)
    requires c.Submit?
  {
    OnlyParticipants(crypto, s, c) && NewWeight(s, c) <= U128_MAX
  }

  // ---------------------------------------------------------------- the outcome of a submission

  lemma {:induction false} AuthenticIff(crypto: Crypto, s: Store, c: Call, sig: Signature)
    requires c.Submit? && InTime(s, c) && ReadAs(KeyOf(s, c), c.bytes, sig)
    ensures Authentic(crypto, s, c) <==>
              if s.sessions[c.session].sigVerifier.Some? then c.verdict
              else crypto.verify(s.sessions[c.session].msg, KeyOf(s, c), sig)
  {
    forall other | ReadAs(KeyOf(s, c), c.bytes, other) ensures other == sig {
      ReadIff(KeyOf(s, c), c.bytes, other);
      ReadIff(KeyOf(s, c), c.bytes, sig);
    }
  }

  lemma {:induction false} SignersKnownIff(s: Store, id: u64, sender: Address, sig: Signature, vs: VerifierSet)
    requires sender in vs.signers
    ensures var signers := Signers(s.signatures[(id, sender) := sig], id);
            && signers == Signers(s.signatures, id) + {sender}
            && (signers <= vs.signers.Keys <==> forall a :: (id, a) in s.signatures ==> a in vs.signers)
  {
    SignersAfterSave(s.signatures, id, sender, sig, id);
    forall a | (id, a) in s.signatures ensures a in Signers(s.signatures, id) { }
  }

  /** A submission that the checks before the signature is stored let pass. */
  lemma {:induction false} Passes(crypto: Crypto, s: Store, c: Call, sig: Signature)
    requires c.Submit? && First(crypto, s, c) && ReadAs(KeyOf(s, c), c.bytes, sig)
    ensures Validate(crypto, s, c.sender, c.session, c.bytes, c.height, c.verdict) == Ok(sig)
  {
    ReadIff(KeyOf(s, c), c.bytes, sig);
    AuthenticIff(crypto, s, c, sig);
  }

  lemma {:induction false} ReadableHasSignature(s: Store, c: Call) returns (sig: Signature)
    requires c.Submit? && Readable(s, c)
    ensures ReadAs(KeyOf(s, c), c.bytes, sig)
  {
    sig := ParseSignature(KeyOf(s, c).Type(), c.bytes).value;
    ReadIff(KeyOf(s, c), c.bytes, sig);
  }

  lemma {:induction false} EarlyErrors(crypto: Crypto, s: Store, c: Call)
    requires c.Submit? && !Readable(s, c)
    ensures Perform(crypto, s, c) == Err(
              if !s.active then SigningDisabled
              else if c.session !in s.sessions then SigningSessionNotFound
              else if s.sessions[c.session].setId !in s.sets then VerifierSetMissing
              else if !Participates(s, c) then NotAParticipant
              else InvalidSignatureFormat)
  {
  }

  lemma {:induction false} LateErrors(crypto: Crypto, s: Store, c: Call)
    requires c.Submit? && Readable(s, c) && !First(crypto, s, c)
    ensures Perform(crypto, s, c) == Err(
              if !InTime(s, c) then SigningSessionClosed
              else if !Authentic(crypto, s, c) then InvalidSignature
              else DuplicateSignature)
  {
    var sig := ReadableHasSignature(s, c);
    ReadIff(KeyOf(s, c), c.bytes, sig);
    if InTime(s, c) { AuthenticIff(crypto, s, c, sig); }
  }

  lemma {:induction false} PanicsIff(crypto: Crypto, s: Store, c: Call)
    requires c.Submit? && First(crypto, s, c)
    ensures Perform(crypto, s, c).Ok? <==> Acceptable(crypto, s, c)
    ensures !Acceptable(crypto, s, c) ==> Perform(crypto, s, c) == Err(
              if !OnlyParticipants(crypto, s, c) then NonParticipantPanic else WeightOverflowPanic)
  {
    var sig := ReadableHasSignature(s, c);
    Passes(crypto, s, c, sig);
    SignersKnownIff(s, c.session, c.sender, sig, SetOf(s, c));
  }

  /** A submission is accepted exactly when signing is enabled, the session and its set exist, the sender is a
      participant, the bytes have a length its key admits, the session has not expired, the signature verifies,
      no signature of the sender is stored, and the signers are participants whose weights sum up. Whether the
      session is already completed does not matter. */
  lemma {:induction false} AcceptedIff(crypto: Crypto, s: Store, c: Call)
    requires c.Submit?
    ensures Perform(crypto, s, c).Ok? <==> Acceptable(crypto, s, c)
  {
    if !Readable(s, c) { EarlyErrors(crypto, s, c); }
    else if !First(crypto, s, c) { LateErrors(crypto, s, c); }
    else { PanicsIff(crypto, s, c); }
  }

  /** The error names the first condition that fails. */
  lemma {:induction false} RefusedBecause(crypto: Crypto, s: Store, c: Call)
    requires c.Submit? && Perform(crypto, s, c).Err?
    ensures match Perform(crypto, s, c).error
            case SigningDisabled => !s.active
            case SigningSessionNotFound => s.active && c.session !in s.sessions
            case VerifierSetMissing =>
              s.active && c.session in s.sessions && s.sessions[c.session].setId !in s.sets
            case NotAParticipant => Found(s, c) && c.sender !in SetOf(s, c).signers
            case InvalidSignatureFormat =>
              Participates(s, c) && |c.bytes| != 64 && (|c.bytes| != 65 || KeyOf(s, c).Ed25519Key?)
            case SigningSessionClosed => Readable(s, c) && c.height > s.sessions[c.session].expiresAt
            case InvalidSignature => InTime(s, c) && !Authentic(crypto, s, c)
            case DuplicateSignature => Authentic(crypto, s, c) && (c.session, c.sender) in s.signatures
            case NonParticipantPanic =>
              && First(crypto, s, c)
              && exists a :: (c.session, a) in s.signatures && a !in SetOf(s, c).signers
            case WeightOverflowPanic => OnlyParticipants(crypto, s, c) && NewWeight(s, c) > U128_MAX
            case _ => false
  {
    if !Readable(s, c) { EarlyErrors(crypto, s, c); }
    else if !First(crypto, s, c) { LateErrors(crypto, s, c); }
    else { PanicsIff(crypto, s, c); }
  }

  /** What an accepted submission stores: the signature, read by key type and length, and the completion of a
      pending session whose signers now reach the threshold. Nothing else changes. */
  lemma {:induction false} AcceptedStores(crypto: Crypto, s: Store, c: Call, sig: Signature)
    requires c.Submit? && Acceptable(crypto, s, c) && ReadAs(KeyOf(s, c), c.bytes, sig)
    ensures Perform(crypto, s, c).Ok?
    ensures var t, id := Perform(crypto, s, c).value, c.session;
            && t.signatures == s.signatures[(id, c.sender) := sig]
            && t.sessions.Keys == s.sessions.Keys
            && (forall i :: i in s.sessions && i != id ==> t.sessions[i] == s.sessions[i])
            && t.sessions[id] == s.sessions[id].(state := t.sessions[id].state)
            && (s.sessions[id].state.Completed? ==> t.sessions[id].state == s.sessions[id].state)
            && (s.sessions[id].state.Pending? ==>
                  t.sessions[id].state == if NewWeight(s, c) >= SetOf(s, c).threshold then Completed(c.height) else Pending)
            && t == s.(signatures := t.signatures, sessions := t.sessions)
  {
    Passes(crypto, s, c, sig);
    SignersKnownIff(s, c.session, c.sender, sig, SetOf(s, c));
  }

  // ---------------------------------------------------------------- submissions in runs

  lemma {:induction false} StoredSigners(crypto: Crypto, w: World, id: u64, a: Address)
    requires Inv(crypto, w) && id in w.store.sessions
    ensures (id, a) in w.store.signatures <==> a in LogSigners(w.log, id)
    ensures (id, a) in w.store.signatures ==>
              w.store.sessions[id].setId in w.store.sets && a in w.store.sets[w.store.sessions[id].setId].signers
  {
    assert SessionOk(crypto, w, id);
    assert (id, a) in w.store.signatures <==> a in Signers(w.store.signatures, id);
  }

  /** In every run from an empty store in which no named set is replaced, exactly these submissions are accepted:
      signing is enabled, the session exists, and a participant whose signature has not been accepted before
      submits one that verifies before the expiry; unless the weights of the signers overflow, which cannot
      happen if the weights of the whole set do not. */
  lemma {:induction false} AcceptedInRunsIff(crypto: Crypto, s: Store, calls: seq<Call>, c: Call)
    requires Fresh(s) && NamedSetsStay(crypto, World(s, []), calls) && c.Submit?
    ensures var w := Run(crypto, World(s, []), calls);
            && Perform(crypto, w.store, c) != Err(NonParticipantPanic)
            && Perform(crypto, w.store, c) != Err(VerifierSetMissing)
            && (Perform(crypto, w.store, c).Ok? <==>
                  && Authentic(crypto, w.store, c)
                  && c.sender !in LogSigners(w.log, c.session)
                  && Perform(crypto, w.store, c) != Err(WeightOverflowPanic))
            && (Participates(w.store, c) && SumOver(SetOf(w.store, c).signers.Keys, SetOf(w.store, c).Weights()) <= U128_MAX ==>
                  Perform(crypto, w.store, c) != Err(WeightOverflowPanic))
  {
    RunKeeps(crypto, World(s, []), calls);
    var w := Run(crypto, World(s, []), calls);
    if c.session in w.store.sessions {
      forall a ensures (c.session, a) in w.store.signatures <==> a in LogSigners(w.log, c.session) {
        StoredSigners(crypto, w, c.session, a);
      }
    }
    OutcomeInRuns(crypto, w, c);
  }

  lemma {:induction false} OutcomeInRuns(crypto: Crypto, w: World, c: Call)
    requires Inv(crypto, w) && c.Submit?
    ensures Perform(crypto, w.store, c) != Err(NonParticipantPanic)
    ensures Perform(crypto, w.store, c) != Err(VerifierSetMissing)
    ensures Perform(crypto, w.store, c).Ok? <==>
              First(crypto, w.store, c) && Perform(crypto, w.store, c) != Err(WeightOverflowPanic)
    ensures Participates(w.store, c) && SumOver(SetOf(w.store, c).signers.Keys, SetOf(w.store, c).Weights()) <= U128_MAX ==>
              Perform(crypto, w.store, c) != Err(WeightOverflowPanic)
  {
    AcceptedIff(crypto, w.store, c);
    if Perform(crypto, w.store, c).Err? { RefusedBecause(crypto, w.store, c); }
    if c.session in w.store.sessions {
      assert SessionOk(crypto, w, c.session);
    }
    if Participates(w.store, c) { WeightWithinSet(crypto, w, c); }
  }

  lemma {:induction false} WeightWithinSet(crypto: Crypto, w: World, c: Call)
    requires Inv(crypto, w) && c.Submit? && Participates(w.store, c)
    ensures forall a :: (c.session, a) in w.store.signatures ==> a in SetOf(w.store, c).signers
    ensures NewWeight(w.store, c) <= SumOver(SetOf(w.store, c).signers.Keys, SetOf(w.store, c).Weights())
  {
    assert SessionOk(crypto, w, c.session);
    forall a | (c.session, a) in w.store.signatures ensures a in SetOf(w.store, c).signers {
      StoredSigners(crypto, w, c.session, a);
    }
    var vs := SetOf(w.store, c);
    SumOverMonotone(Signers(w.store.signatures, c.session) + {c.sender}, vs.signers.Keys, vs.Weights());
  }

  // ---------------------------------------------------------------- the other calls

  /** Registering a set and switching signing always succeed, and change nothing else. */
  lemma {:induction false} OtherCallsSucceed(crypto: Crypto, s: Store, c: Call)
    requires c.RegisterSet? || c.SetActive?
    ensures Perform(crypto, s, c).Ok?
    ensures var t := Perform(crypto, s, c).value;
            && t.counter == s.counter && t.blockExpiry == s.blockExpiry
            && t.sessions == s.sessions && t.signatures == s.signatures
            && (c.SetActive? ==> t.active == c.active && t.sets == s.sets)
            && (c.RegisterSet? ==> t.active == s.active && t.sets == s.sets[crypto.setId(c.verifierSet) := c.verifierSet])
  {
  }

  // ---------------------------------------------------------------- starting a session

  /** A session is started exactly when signing is enabled, the set is registered, and neither the session counter
      nor the expiry height overflows. It gets the next number, it is pending, it belongs to this set, message and
      verifier, and it expires `blockExpiry` blocks later. Nothing else changes. */
  lemma {:induction false} StartedIff(crypto: Crypto, s: Store, c: Call)
    requires c.Start?
    ensures Perform(crypto, s, c).Ok? <==>
              s.active && c.setId in s.sets && s.counter < U64_MAX && c.height + s.blockExpiry <= U64_MAX
    ensures Perform(crypto, s, c).Err? ==>
              match Perform(crypto, s, c).error
              case SigningDisabled => !s.active
              case NoActiveVerifierSetFound => s.active && c.setId !in s.sets
              case Overflow => s.active && c.setId in s.sets
              case _ => false
    ensures Perform(crypto, s, c).Ok? ==>
              var t := Perform(crypto, s, c).value;
              && t.counter == s.counter + 1 && t.sessions.Keys == s.sessions.Keys + {t.counter}
              && (forall i :: i in s.sessions && i != t.counter ==> t.sessions[i] == s.sessions[i])
              && var session := t.sessions[t.counter];
              && session.id == t.counter && session.setId == c.setId && session.msg == c.msg && session.sigVerifier == c.sigVerifier
              && session.state == Pending && session.expiresAt == c.height + s.blockExpiry
              && t == s.(counter := t.counter, sessions := t.sessions)
  {
  }

  /** In every run the number of a new session is unused, so no session is replaced, and the new session has no
      signatures yet. */
  lemma {:induction false} StartedIsNew(crypto: Crypto, s: Store, calls: seq<Call>, c: Call)
    requires Fresh(s) && NamedSetsStay(crypto, World(s, []), calls) && c.Start?
    requires Perform(crypto, Run(crypto, World(s, []), calls).store, c).Ok?
    ensures var before := Run(crypto, World(s, []), calls).store;
            var after := Perform(crypto, before, c).value;
            && after.counter !in before.sessions
            && Signers(after.signatures, after.counter) == {}
  {
    RunKeeps(crypto, World(s, []), calls);
    var w := Run(crypto, World(s, []), calls);
    StartedIff(crypto, w.store, c);
    var id := Perform(crypto, w.store, c).value.counter;
    RunIsNumbered(crypto, World(s, []), calls);
  }
}
