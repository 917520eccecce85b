/** Signing sessions (contracts/multisig/src/contract/execute.rs, signing.rs and state.rs) as a state
    machine over arbitrary sequences of contract calls. A failing call leaves the store unchanged, as
    the chain reverts it. */
module SigningSessions {
  import opened Ints
  import opened Outcomes
  import opened Sums
  import opened ByteStrings
  import opened MultisigTypes

  datatype MultisigState = Pending | Completed(completedAt: u64)

  datatype Session = Session(
    id: u64,
    setId: Bytes,
    msg: Bytes,
    state: MultisigState,
    expiresAt: u64,
    sigVerifier: Option<Address>)

  datatype Store = Store(
    active: bool,
    blockExpiry: u64,
    counter: u64,
    sessions: map<u64, Session>,
    signatures: map<(u64, Address), Signature>,
    sets: map<Bytes, VerifierSet>)

  /** The cryptography the contract relies on: signature verification and the hash that names a set. */
  datatype Crypto = Crypto(verify: (Bytes, PublicKey, Signature) -> bool, setId: VerifierSet -> Bytes)

  /** `verdict` is the answer of the external signature verifier, used by sessions that name one. */
  datatype Call =
    | RegisterSet(verifierSet: VerifierSet)
    | SetActive(active: bool)
    | Start(setId: Bytes, msg: Bytes, sigVerifier: Option<Address>, height: u64)
    | Submit(sender: Address, session: u64, bytes: Bytes, height: u64, verdict: bool)

  datatype Error =
    | SigningDisabled
    | NoActiveVerifierSetFound
    | Overflow
    | SigningSessionNotFound
    | VerifierSetMissing
    | NotAParticipant
    | InvalidSignatureFormat
    | SigningSessionClosed
    | InvalidSignature
    | DuplicateSignature
    | NonParticipantPanic
    | WeightOverflowPanic

  /** The addresses whose signatures are stored for a session. */
  ghost function Signers(signatures: map<(u64, Address), Signature>, id: u64): set<Address> {
    set k | k in signatures && k.0 == id :: k.1
  }

  function StartSession(s: Store, setId: Bytes, msg: Bytes, sigVerifier: Option<Address>, height: u64)
    : Result<Store, Error>
  {
    if !s.active then Err(SigningDisabled)
    else if setId !in s.sets then Err(NoActiveVerifierSetFound)
    else if s.counter == U64_MAX || height + s.blockExpiry > U64_MAX then Err(Overflow)
    else
      var id := s.counter + 1;
      Ok(s.(counter := id,
            sessions := s.sessions[id := Session(id, setId, msg, Pending, height + s.blockExpiry, sigVerifier)]))
  }

  /** The checks of `submit_signature` up to the point where the signature is stored. */
  function Validate(crypto: Crypto, s: Store, sender: Address, id: u64, bytes: Bytes, height: u64, verdict: bool)
    : Result<Signature, Error>
  {
    if !s.active then Err(SigningDisabled)
    else if id !in s.sessions then Err(SigningSessionNotFound)
    else
      var session := s.sessions[id];
      if session.setId !in s.sets then Err(VerifierSetMissing)
      else
        var vs := s.sets[session.setId];
        if sender !in vs.signers then Err(NotAParticipant)
        else
          var key := vs.signers[sender].pubKey;
          match ParseSignature(key.Type(), bytes)
          case None => Err(InvalidSignatureFormat)
          case Some(sig) =>
            if session.expiresAt < height then Err(SigningSessionClosed)
            else if !(if session.sigVerifier.Some? then verdict else crypto.verify(session.msg, key, sig))
            then Err(InvalidSignature)
            else if (id, sender) in s.signatures then Err(DuplicateSignature)
            else Ok(sig)
  }

  /** `recalculate_session_state` */
  function Recalculate(session: Session, weight: u128, threshold: u128, height: u64): Session {
    if session.state.Pending? && weight >= threshold then session.(state := Completed(height)) else session
  }

  ghost function Submitted(
    crypto: Crypto, s: Store, sender: Address, id: u64, bytes: Bytes, height: u64, verdict: bool)
    : Result<Store, Error>
  {
    match Validate(crypto, s, sender, id, bytes, height, verdict)
    case Err(e) => Err(e)
    case Ok(sig) =>
      var session := s.sessions[id];
      var vs := s.sets[session.setId];
      var signatures := s.signatures[(id, sender) := sig];
      var signers := Signers(signatures, id);
      if !(signers <= vs.signers.Keys) then Err(NonParticipantPanic)
      else
        var weight := SumOver(signers, vs.Weights());
        if weight > U128_MAX then Err(WeightOverflowPanic)
        else Ok(s.(signatures := signatures,
                   sessions := s.sessions[id := Recalculate(session, weight, vs.threshold, height)]))
  }

  ghost function Perform(crypto: Crypto, s: Store, call: Call): Result<Store, Error> {
    match call
    case RegisterSet(vs) => Ok(s.(sets := s.sets[crypto.setId(vs) := vs]))
    case SetActive(active) => Ok(s.(active := active))
    case Start(setId, msg, sigVerifier, height) => StartSession(s, setId, msg, sigVerifier, height)
    case Submit(sender, id, bytes, height, verdict) => Submitted(crypto, s, sender, id, bytes, height, verdict)
  }

  // ---------------------------------------------------------------- runs

  /** An accepted submission. */
  datatype Accepted = Accepted(session: u64, signer: Address, height: u64)

  datatype World = World(store: Store, log: seq<Accepted>)

  ghost function Step(crypto: Crypto, w: World, call: Call): World {
    match Perform(crypto, w.store, call)
    case Err(_) => w
    case Ok(store) =>
      World(store, if call.Submit? then w.log + [Accepted(call.session, call.sender, call.height)] else w.log)
  }

  ghost function Run(crypto: Crypto, w: World, calls: seq<Call>): World
    decreases |calls|
  {
    if calls == [] then w else Run(crypto, Step(crypto, w, calls[0]), calls[1..])
  }

  /** No call registers a set under an id that already names a different one. */
  ghost predicate IdsAgree(crypto: Crypto, sets: map<Bytes, VerifierSet>, calls: seq<Call>)
    decreases |calls|
  {
    calls != [] ==>
      if calls[0].RegisterSet? then
        var vs := calls[0].verifierSet;
        && (crypto.setId(vs) in sets ==> sets[crypto.setId(vs)] == vs)
        && IdsAgree(crypto, sets[crypto.setId(vs) := vs], calls[1..])
      else IdsAgree(crypto, sets, calls[1..])
  }

  /** Some session names the id. */
  ghost predicate Named(s: Store, setId: Bytes) {
    exists i :: i in s.sessions && s.sessions[i].setId == setId
  }

  /** The call does not replace a set that a session names. */
  ghost predicate SparesNamed(crypto: Crypto, s: Store, call: Call) {
    call.RegisterSet? && Named(s, crypto.setId(call.verifierSet)) && crypto.setId(call.verifierSet) in s.sets ==>
      s.sets[crypto.setId(call.verifierSet)] == call.verifierSet
  }

  /** No call of the run does. */
  ghost predicate NamedSetsStay(crypto: Crypto, w: World, calls: seq<Call>)
    decreases |calls|
  {
    calls != [] ==>
      SparesNamed(crypto, w.store, calls[0]) && NamedSetsStay(crypto, Step(crypto, w, calls[0]), calls[1..])
  }

  /** If no id is used twice, no named set is replaced. */
  lemma {:induction false} AgreeingIdsStay(crypto: Crypto, w: World, calls: seq<Call>)
    requires IdsAgree(crypto, w.store.sets, calls)
    ensures NamedSetsStay(crypto, w, calls)
    decreases |calls|
  {
    if calls != [] {
      StepSets(crypto, w, calls[0]);
      AgreeingIdsStay(crypto, Step(crypto, w, calls[0]), calls[1..]);
    }
  }

  lemma {:induction false} StepSets(crypto: Crypto, w: World, call: Call)
    ensures Step(crypto, w, call).store.sets ==
              if call.RegisterSet? then w.store.sets[crypto.setId(call.verifierSet) := call.verifierSet]
              else w.store.sets
  {
  }

  ghost predicate Fresh(s: Store) {
    s.counter == 0 && s.sessions == map[] && s.signatures == map[] && s.sets == map[]
  }

  ghost function LogSigners(log: seq<Accepted>, id: u64): set<Address> {
    set a | a in log && a.session == id :: a.signer
  }

  /** At least one signature has been accepted and the signers reach the threshold. For a positive
      threshold the first half follows from the second. */
  ghost predicate Reached(vs: VerifierSet, signers: set<Address>) {
    signers <= vs.signers.Keys && signers != {} && SumOver(signers, vs.Weights()) >= vs.threshold
  }

  /** The submission that took the session over the threshold was made at this height. */
  ghost predicate CrossedAt(vs: VerifierSet, log: seq<Accepted>, id: u64, height: u64) {
    exists i :: 0 <= i < |log| && log[i].session == id && log[i].height == height
      && !Reached(vs, LogSigners(log[..i], id)) && Reached(vs, LogSigners(log[..i + 1], id))
  }

  /** How a session's state relates to the participants whose signatures it has accepted so far. */
  ghost predicate Progress(vs: VerifierSet, log: seq<Accepted>, session: Session, signers: set<Address>) {
    && signers <= vs.signers.Keys
    && SumOver(signers, vs.Weights()) <= U128_MAX
    && signers == LogSigners(log, session.id)
    && (session.state.Completed? <==> Reached(vs, signers))
    && (session.state.Completed? ==>
          && CrossedAt(vs, log, session.id, session.state.completedAt)
          && session.state.completedAt <= session.expiresAt)
  }

  ghost predicate SessionOk(crypto: Crypto, w: World, id: u64)
    requires id in w.store.sessions
  {
    var s, session := w.store, w.store.sessions[id];
    && session.id == id && 0 < id <= s.counter
    && session.setId in s.sets
    && var vs, signers := s.sets[session.setId], Signers(s.signatures, id);
    && Progress(vs, w.log, session, signers)
    && Verified(crypto, session, vs, s.signatures)
  }

  /** Every stored signature of the session verifies under the key of its signer. */
  ghost predicate Verified(crypto: Crypto, session: Session, vs: VerifierSet, signatures: map<(u64, Address), Signature>) {
    session.sigVerifier.None? ==> forall a :: (session.id, a) in signatures ==>
      a in vs.signers && crypto.verify(session.msg, vs.signers[a].pubKey, signatures[(session.id, a)])
  }

  ghost predicate Inv(crypto: Crypto, w: World) {
    && (forall k :: k in w.store.signatures ==> k.0 in w.store.sessions)
    && (forall a :: a in w.log ==> a.session in w.store.sessions)
    && (forall id :: id in w.store.sessions ==> SessionOk(crypto, w, id))
  }

  lemma {:induction false} StartKeeps(crypto: Crypto, w: World, call: Call)
    requires Inv(crypto, w) && call.Start?
    ensures Inv(crypto, Step(crypto, w, call))
  {
    var t := Step(crypto, w, call);
    if t != w {
      var id := t.store.counter;
      assert id in w.store.sessions ==> SessionOk(crypto, w, id);
      forall i | i in t.store.sessions ensures SessionOk(crypto, t, i) {
        if i == id {
          assert Signers(t.store.signatures, i) == {} == LogSigners(t.log, i);
        } else {
          assert SessionOk(crypto, w, i);
        }
      }
    }
  }

  lemma {:induction false} RegisterKeeps(crypto: Crypto, w: World, call: Call)
    requires Inv(crypto, w) && call.RegisterSet? && SparesNamed(crypto, w.store, call)
    ensures Inv(crypto, Step(crypto, w, call))
  {
    var t := Step(crypto, w, call);
    forall i | i in t.store.sessions ensures SessionOk(crypto, t, i) {
      assert SessionOk(crypto, w, i);
      assert Named(w.store, w.store.sessions[i].setId);
      assert t.store.sets[w.store.sessions[i].setId] == w.store.sets[w.store.sessions[i].setId];
    }
  }

  lemma {:induction false} LogSignersSnoc(log: seq<Accepted>, a: Accepted, id: u64)
    ensures LogSigners(log + [a], id) == LogSigners(log, id) + (if a.session == id then {a.signer} else {})
  {
    forall x | x in LogSigners(log, id) ensures x in LogSigners(log + [a], id) {
      var b :| b in log && b.session == id && b.signer == x;
      assert b in log + [a];
    }
    assert a in log + [a];
  }

  lemma {:induction false} CrossedStays(vs: VerifierSet, log: seq<Accepted>, a: Accepted, id: u64, height: u64)
    requires CrossedAt(vs, log, id, height)
    ensures CrossedAt(vs, log + [a], id, height)
  {
    var i :| 0 <= i < |log| && log[i].session == id && log[i].height == height
      && !Reached(vs, LogSigners(log[..i], id)) && Reached(vs, LogSigners(log[..i + 1], id));
    var more := log + [a];
    assert more[..i] == log[..i] && more[..i + 1] == log[..i + 1] && more[i] == log[i];
  }

  lemma {:induction false} ReachedMonotone(vs: VerifierSet, signers: set<Address>, more: set<Address>)
    requires Reached(vs, signers) && signers <= more <= vs.signers.Keys
    ensures Reached(vs, more)
  {
    SumOverMonotone(signers, more, vs.Weights());
  }

  lemma {:induction false} SignersAfterSave(signatures: map<(u64, Address), Signature>, id: u64, a: Address, sig: Signature, other: u64)
    ensures Signers(signatures[(id, a) := sig], other)
         == Signers(signatures, other) + (if other == id then {a} else {})
  {
    var more := signatures[(id, a) := sig];
    forall x | x in Signers(signatures, other) ensures x in Signers(more, other) {
      assert (other, x) in more;
    }
    assert (id, a) in more;
  }

  /** One more accepted signature moves the session on correctly. */
  lemma {:induction false} ProgressStep(vs: VerifierSet, log: seq<Accepted>, session: Session, signers: set<Address>, a: Accepted)
    requires Progress(vs, log, session, signers)
    requires a.session == session.id && a.height <= session.expiresAt
    requires signers + {a.signer} <= vs.signers.Keys
    requires SumOver(signers + {a.signer}, vs.Weights()) <= U128_MAX
    ensures var weight := SumOver(signers + {a.signer}, vs.Weights());
            Progress(vs, log + [a], Recalculate(session, weight, vs.threshold, a.height), signers + {a.signer})
  {
    var id, more := session.id, signers + {a.signer};
    LogSignersSnoc(log, a, id);
    if session.state.Completed? {
      ReachedMonotone(vs, signers, more);
      CrossedStays(vs, log, a, id, session.state.completedAt);
    } else if Reached(vs, more) {
      var n := |log|;
      assert (log + [a])[..n] == log && (log + [a])[..n + 1] == log + [a];
      assert (log + [a])[n] == a;
    }
  }

  lemma {:induction false} ProgressElsewhere(vs: VerifierSet, log: seq<Accepted>, session: Session, signers: set<Address>, a: Accepted)
    requires Progress(vs, log, session, signers) && a.session != session.id
    ensures Progress(vs, log + [a], session, signers)
  {
    LogSignersSnoc(log, a, session.id);
    if session.state.Completed? {
      CrossedStays(vs, log, a, session.id, session.state.completedAt);
    }
  }

  /** What an accepted submission has passed, and what it changes. */
  lemma {:induction false} AcceptedSubmission(crypto: Crypto, w: World, call: Call) returns (sig: Signature)
    requires call.Submit? && Perform(crypto, w.store, call).Ok?
    ensures var s, t, id := w.store, Step(crypto, w, call), call.session;
            && t.log == w.log + [Accepted(id, call.sender, call.height)]
            && s.active && id in s.sessions && s.sessions[id].setId in s.sets && (id, call.sender) !in s.signatures
            && var session := s.sessions[id];
            && var vs := s.sets[session.setId];
            && call.sender in vs.signers && call.height <= session.expiresAt
            && (session.sigVerifier.None? ==> crypto.verify(session.msg, vs.signers[call.sender].pubKey, sig))
            && (session.sigVerifier.Some? ==> call.verdict)
            && var signatures := s.signatures[(id, call.sender) := sig];
            && var signers := Signers(signatures, id);
            && signers <= vs.signers.Keys && SumOver(signers, vs.Weights()) <= U128_MAX
            && t.store == s.(signatures := signatures, sessions := s.sessions[id :=
                               Recalculate(session, SumOver(signers, vs.Weights()), vs.threshold, call.height)])
  {
    sig := Validate(crypto, w.store, call.sender, call.session, call.bytes, call.height, call.verdict).value;
  }

  lemma {:induction false} SubmitKeepsTarget(crypto: Crypto, w: World, call: Call)
    requires Inv(crypto, w) && call.Submit? && Perform(crypto, w.store, call).Ok?
    ensures SessionOk(crypto, Step(crypto, w, call), call.session)
  {
    var sig := AcceptedSubmission(crypto, w, call);
    var id := call.session;
    assert SessionOk(crypto, w, id);
    var session := w.store.sessions[id];
    SignersAfterSave(w.store.signatures, id, call.sender, sig, id);
    ProgressStep(w.store.sets[session.setId], w.log, session, Signers(w.store.signatures, id),
                 Accepted(id, call.sender, call.height));
  }

  lemma {:induction false} SubmitKeepsOthers(crypto: Crypto, w: World, call: Call, id: u64)
    requires Inv(crypto, w) && call.Submit? && Perform(crypto, w.store, call).Ok?
    requires id in w.store.sessions && id != call.session
    ensures SessionOk(crypto, Step(crypto, w, call), id)
  {
    var sig := AcceptedSubmission(crypto, w, call);
    assert SessionOk(crypto, w, id);
    var session, t := w.store.sessions[id], Step(crypto, w, call);
    assert t.store.sessions[id] == session && t.store.sets == w.store.sets && t.store.counter == w.store.counter;
    assert Verified(crypto, session, w.store.sets[session.setId], t.store.signatures);
    SignersAfterSave(w.store.signatures, call.session, call.sender, sig, id);
    assert Signers(t.store.signatures, id) == Signers(w.store.signatures, id);
    ProgressElsewhere(w.store.sets[session.setId], w.log, session, Signers(w.store.signatures, id),
                      Accepted(call.session, call.sender, call.height));
  }

  lemma {:induction false} StepKeeps(crypto: Crypto, w: World, call: Call)
    requires Inv(crypto, w) && SparesNamed(crypto, w.store, call)
    ensures Inv(crypto, Step(crypto, w, call))
  {
    var t := Step(crypto, w, call);
    match call
    case RegisterSet(_) => RegisterKeeps(crypto, w, call);
    case Start(_, _, _, _) => StartKeeps(crypto, w, call);
    case SetActive(_) =>
      forall id | id in t.store.sessions ensures SessionOk(crypto, t, id) {
        assert SessionOk(crypto, w, id);
      }
    case Submit(_, _, _, _, _) =>
      if Perform(crypto, w.store, call).Ok? {
        forall id | id in t.store.sessions ensures SessionOk(crypto, t, id) {
          if id == call.session { SubmitKeepsTarget(crypto, w, call); }
          else { SubmitKeepsOthers(crypto, w, call, id); }
        }
      }
  }

  lemma {:induction false} RunKeeps(crypto: Crypto, w: World, calls: seq<Call>)
    requires Inv(crypto, w) && NamedSetsStay(crypto, w, calls)
    ensures Inv(crypto, Run(crypto, w, calls))
    decreases |calls|
  {
    if calls != [] {
      StepKeeps(crypto, w, calls[0]);
      RunKeeps(crypto, Step(crypto, w, calls[0]), calls[1..]);
    }
  }

  /** In every run from an empty store: a session is completed exactly when its stored signers, all of
      them participants with verified signatures, reach the threshold; it was completed at the height
      of the crossing submission, which is not after its expiry. */
  lemma {:induction false} CompletedIffThresholdReached(crypto: Crypto, s: Store, calls: seq<Call>, id: u64)
    requires Fresh(s) && NamedSetsStay(crypto, World(s, []), calls)
    requires id in Run(crypto, World(s, []), calls).store.sessions
    ensures SessionOk(crypto, Run(crypto, World(s, []), calls), id)
    ensures var t := Run(crypto, World(s, []), calls).store;
            var vs, signers := t.sets[t.sessions[id].setId], Signers(t.signatures, id);
            vs.threshold > 0 ==>
              (t.sessions[id].state.Completed? <==> SumOver(signers, vs.Weights()) >= vs.threshold)
  {
    RunKeeps(crypto, World(s, []), calls);
  }

  /** What a later store must still hold of an earlier one. */
  ghost predicate Extends(s: Store, t: Store) {
    && (forall id :: id in s.sessions && s.sessions[id].state.Completed? ==>
          id in t.sessions && t.sessions[id] == s.sessions[id])
    && (forall k :: k in s.signatures ==> k in t.signatures && t.signatures[k] == s.signatures[k])
  }

  lemma {:induction false} SubmitExtends(crypto: Crypto, s: Store, call: Call)
    requires call.Submit? && Perform(crypto, s, call).Ok?
    ensures Extends(s, Perform(crypto, s, call).value)
  {
  }

  /** Session ids are handed out in order. */
  ghost predicate Numbered(s: Store) {
    forall id :: id in s.sessions ==> id <= s.counter
  }

  lemma {:induction false} SubmitKeepsNumbers(crypto: Crypto, s: Store, call: Call)
    requires Numbered(s) && call.Submit? && Perform(crypto, s, call).Ok?
    ensures Numbered(Perform(crypto, s, call).value)
  {
  }

  lemma {:induction false} StepExtends(crypto: Crypto, w: World, call: Call)
    requires Numbered(w.store)
    ensures Extends(w.store, Step(crypto, w, call).store) && Numbered(Step(crypto, w, call).store)
  {
    match call
    case RegisterSet(_) =>
    case SetActive(_) =>
    case Start(_, _, _, _) =>
    case Submit(_, _, _, _, _) =>
      if Perform(crypto, w.store, call).Ok? {
        SubmitExtends(crypto, w.store, call);
        SubmitKeepsNumbers(crypto, w.store, call);
      }
  }

  lemma {:induction false} ExtendsTransitive(a: Store, b: Store, c: Store)
    requires Extends(a, b) && Extends(b, c)
    ensures Extends(a, c)
  {
  }

  /** A completed session keeps its completion height, and a stored signature is never replaced,
      whatever calls follow and whatever sets they register. */
  lemma {:induction false} CompletionIsFinal(crypto: Crypto, w: World, calls: seq<Call>)
    requires Numbered(w.store)
    ensures Extends(w.store, Run(crypto, w, calls).store)
    decreases |calls|
  {
    if calls != [] {
      var next := Step(crypto, w, calls[0]);
      StepExtends(crypto, w, calls[0]);
      CompletionIsFinal(crypto, next, calls[1..]);
      ExtendsTransitive(w.store, next.store, Run(crypto, next, calls[1..]).store);
    }
  }

  /** In particular after every run from an empty store. */
  lemma {:induction false} CompletionIsFinalInRuns(crypto: Crypto, s: Store, past: seq<Call>, future: seq<Call>)
    requires Fresh(s)
    ensures Extends(Run(crypto, World(s, []), past).store, Run(crypto, Run(crypto, World(s, []), past), future).store)
  {
    RunIsNumbered(crypto, World(s, []), past);
    CompletionIsFinal(crypto, Run(crypto, World(s, []), past), future);
  }

  lemma {:induction false} RunIsNumbered(crypto: Crypto, w: World, calls: seq<Call>)
    requires Numbered(w.store)
    ensures Numbered(Run(crypto, w, calls).store)
    decreases |calls|
  {
    if calls != [] {
      StepExtends(crypto, w, calls[0]);
      RunIsNumbered(crypto, Step(crypto, w, calls[0]), calls[1..]);
    }
  }

  // ---------------------------------------------------------------- the contract as an object

  /** `signers_weight`, over the addresses in any order. None is the panic of an overflowing sum. */
  method SignersWeight(signers: set<Address>, vs: VerifierSet) returns (r: Option<u128>)
    requires signers <= vs.signers.Keys
    ensures r == if SumOver(signers, vs.Weights()) <= U128_MAX
                 then Some(SumOver(signers, vs.Weights())) else None
  {
    var rest, sum := signers, 0;
    ghost var w := vs.Weights();
    while rest != {}
      invariant rest <= signers && sum <= U128_MAX
      invariant sum + SumOver(rest, w) == SumOver(signers, w)
    {
      var a :| a in rest;
      SumOverRemove(rest, w, a);
      sum := sum + vs.signers[a].weight;
      rest := rest - {a};
      if sum > U128_MAX {
        return None;
      }
    }
    r := Some(sum);
  }

  class MultisigContract {
    var active: bool
    const blockExpiry: u64
    var counter: u64
    var sessions: map<u64, Session>
    var signatures: map<(u64, Address), Signature>
    var sets: map<Bytes, VerifierSet>

    function Contents(): Store
      reads this
    {
      Store(active, blockExpiry, counter, sessions, signatures, sets)
    }

    constructor (expiry: u64)
      ensures Fresh(Contents()) && active && blockExpiry == expiry
    {
      active, blockExpiry, counter := true, expiry, 0;
      sessions, signatures, sets := map[], map[], map[];
    }

    method RegisterVerifierSet(crypto: Crypto, vs: VerifierSet)
      modifies this`sets
      ensures Ok(Contents()) == Perform(crypto, old(Contents()), RegisterSet(vs))
    {
      sets := sets[crypto.setId(vs) := vs];
    }

    method StartSigningSession(setId: Bytes, msg: Bytes, sigVerifier: Option<Address>, height: u64)
      returns (r: Result<u64, Error>)
      modifies this`counter, this`sessions
      ensures var spec := StartSession(old(Contents()), setId, msg, sigVerifier, height);
              if r.Ok? then spec == Ok(Contents()) && r.value == counter
              else spec == Err(r.error) && Contents() == old(Contents())
    {
      if !active { return Err(SigningDisabled); }
      if setId !in sets { return Err(NoActiveVerifierSetFound); }
      if counter == U64_MAX || height + blockExpiry > U64_MAX { return Err(Overflow); }
      counter := counter + 1;
      sessions := sessions[counter := Session(counter, setId, msg, Pending, height + blockExpiry, sigVerifier)];
      return Ok(counter);
    }

    /** `save_signature`: the stored map refuses a second signature of the same signer. */
    method SaveSignature(id: u64, signature: Signature, signer: Address) returns (ok: bool)
      modifies this`signatures
      ensures ok == ((id, signer) !in old(signatures))
      ensures signatures == if ok then old(signatures)[(id, signer) := signature] else old(signatures)
    {
      ok := (id, signer) !in signatures;
      if ok {
        signatures := signatures[(id, signer) := signature];
      }
    }

    method SubmitSignature(crypto: Crypto, sender: Address, id: u64, bytes: Bytes, height: u64, verdict: bool)
      returns (r: Result<Signature, Error>)
      modifies this`signatures, this`sessions
      ensures var spec := Submitted(crypto, old(Contents()), sender, id, bytes, height, verdict);
              if r.Ok? then spec == Ok(Contents()) else spec == Err(r.error) && Contents() == old(Contents())
    {
      if !active {
        return Err(SigningDisabled);
      }
      if id !in sessions {
        return Err(SigningSessionNotFound);
      }
      var session := sessions[id];
      if session.setId !in sets {
        return Err(VerifierSetMissing);
      }
      var vs := sets[session.setId];
      if sender !in vs.signers {
        return Err(NotAParticipant);
      }
      var key := vs.signers[sender].pubKey;
      var parsed := ParseSignature(key.Type(), bytes);
      if parsed.None? {
        return Err(InvalidSignatureFormat);
      }
      if session.expiresAt < height {
        return Err(SigningSessionClosed);
      }
      var valid := if session.sigVerifier.Some? then verdict else crypto.verify(session.msg, key, parsed.value);
      if !valid {
        return Err(InvalidSignature);
      }
      var before := signatures;
      var saved := SaveSignature(id, parsed.value, sender);
      if !saved {
        return Err(DuplicateSignature);
      }
      var signers := set k | k in signatures && k.0 == id :: k.1;
      assert signers == Signers(signatures, id);
      if !(signers <= vs.signers.Keys) {
        signatures := before;
        return Err(NonParticipantPanic);
      }
      var weight := SignersWeight(signers, vs);
      if weight.None? {
        signatures := before;
        return Err(WeightOverflowPanic);
      }
      if session.state.Pending? && weight.value >= vs.threshold {
        session := session.(state := Completed(height));
      }
      sessions := sessions[id := session];
      r := Ok(parsed.value);
    }
  }
}

/** What a completed session hands to the prover. */
module CompletedSessions {
  import opened Ints
  import opened Sums
  import opened WeightedKeys
  import opened MultisigTypes
  import opened Quorum
  import opened SigningSessions

  ghost function SessionMultisig(s: Store, id: u64): (m: Multisig)
    requires id in s.sessions && s.sessions[id].setId in s.sets
    ensures m.signatures.Keys == Signers(s.signatures, id)
  {
    var signers := Signers(s.signatures, id);
    Multisig(s.sets[s.sessions[id].setId], map a | a in signers :: s.signatures[(id, a)])
  }

  /** In every run, for every completed session and every iteration order of its signatures, the
      optimized signatures reach the threshold, and no set of accepted signers that reaches it is smaller. */
  lemma {:induction false} CompletedSessionsYieldMinimumQuorums(
    crypto: Crypto, s: Store, calls: seq<Call>, id: u64, order: seq<Address>, quorum: set<Address>)
    requires Fresh(s) && NamedSetsStay(crypto, World(s, []), calls)
    requires var t := Run(crypto, World(s, []), calls).store;
             && id in t.sessions && t.sessions[id].state.Completed? && t.sessions[id].setId in t.sets
             && Lists(order, SessionMultisig(t, id))
             && quorum <= Signers(t.signatures, id)
    ensures var m := SessionMultisig(Run(crypto, World(s, []), calls).store, id);
            var chosen, w, threshold := Elements(Selected(m, order)), m.verifierSet.Weights(), m.verifierSet.threshold;
            && m.Valid()
            && chosen <= m.signatures.Keys
            && SumOver(chosen, w) >= threshold
            && (SumOver(quorum, w) >= threshold ==> |Selected(m, order)| <= |quorum|)
  {
    CompletedIffThresholdReached(crypto, s, calls, id);
    var m := SessionMultisig(Run(crypto, World(s, []), calls).store, id);
    SelectionIsMinimumQuorum(m, order, quorum);
  }
}

/** Why verifier sets do not replace each other: the id is a digest of the hash input. */
module SetIds {
  import opened ByteStrings
  import opened MultisigTypes
  import opened VerifierSetHash
  import opened SigningSessions

  /** How ids are made: a digest of the hash input of the set, listed in some order. */
  datatype Naming = Naming(digest: Bytes -> Bytes, order: VerifierSet -> seq<Address>, width: nat)

  /** The input of the set, listed in the order of its map keys. */
  ghost function Input(n: Naming, vs: VerifierSet): Bytes
    requires Lists(n.order(vs), vs)
  {
    Preimage(n.width, InOrder(vs, n.order(vs)), vs.threshold, vs.createdAt)
  }

  /** A set with well-formed public keys, named by the digest of its input. */
  ghost predicate NamedByInput(crypto: Crypto, n: Naming, vs: VerifierSet) {
    && ListsInOrder(n.order(vs), vs)
    && WellFormedKeys(InOrder(vs, n.order(vs)))
    && crypto.setId(vs) == n.digest(Input(n, vs))
  }

  ghost predicate Registers(calls: seq<Call>, vs: VerifierSet) {
    exists i :: 0 <= i < |calls| && calls[i] == RegisterSet(vs)
  }

  ghost predicate AllNamedByInput(crypto: Crypto, n: Naming, calls: seq<Call>) {
    forall vs :: Registers(calls, vs) ==> NamedByInput(crypto, n, vs)
  }

  /** The digest has no collision among the inputs of the sets that are registered. */
  ghost predicate NoCollision(n: Naming, calls: seq<Call>) {
    forall a, b :: Registers(calls, a) && Registers(calls, b) && Lists(n.order(a), a) && Lists(n.order(b), b) ==>
      (n.digest(Input(n, a)) == n.digest(Input(n, b)) ==> Input(n, a) == Input(n, b))
  }

  // ---------------------------------------------------------------- one set per id

  ghost predicate OneSetPerId(crypto: Crypto, calls: seq<Call>) {
    forall a, b :: Registers(calls, a) && Registers(calls, b) && crypto.setId(a) == crypto.setId(b) ==> a == b
  }

  ghost predicate AgreesWith(crypto: Crypto, sets: map<Bytes, VerifierSet>, calls: seq<Call>) {
    forall a :: Registers(calls, a) && crypto.setId(a) in sets ==> sets[crypto.setId(a)] == a
  }

  lemma {:induction false} RegistersCons(calls: seq<Call>, vs: VerifierSet)
    requires calls != []
    ensures Registers(calls, vs) <==> calls[0] == RegisterSet(vs) || Registers(calls[1..], vs)
  {
    if Registers(calls, vs) && calls[0] != RegisterSet(vs) {
      var i :| 0 <= i < |calls| && calls[i] == RegisterSet(vs);
      assert calls[1..][i - 1] == RegisterSet(vs);
    }
    if Registers(calls[1..], vs) {
      var i :| 0 <= i < |calls[1..]| && calls[1..][i] == RegisterSet(vs);
      assert calls[i + 1] == RegisterSet(vs);
    }
  }

  lemma {:induction false} RegistersTail(calls: seq<Call>)
    requires calls != []
    ensures forall vs :: Registers(calls, vs) <==> calls[0] == RegisterSet(vs) || Registers(calls[1..], vs)
  {
    forall vs ensures Registers(calls, vs) <==> calls[0] == RegisterSet(vs) || Registers(calls[1..], vs) {
      RegistersCons(calls, vs);
    }
  }

  lemma {:induction false} AgreeCons(crypto: Crypto, sets: map<Bytes, VerifierSet>, calls: seq<Call>)
    requires calls != [] && calls[0].RegisterSet?
    ensures var vs := calls[0].verifierSet;
            var id := crypto.setId(vs);
            (AgreesWith(crypto, sets, calls) && OneSetPerId(crypto, calls)) <==>
            ((id in sets ==> sets[id] == vs) && AgreesWith(crypto, sets[id := vs], calls[1..]) && OneSetPerId(crypto, calls[1..]))
  {
    RegistersTail(calls);
    var vs := calls[0].verifierSet;
    assert Registers(calls, vs);
  }

  /** No registration replaces a set exactly when the registered sets agree with what is stored and there is
      one set per id. */
  lemma {:induction false} AgreeIff(crypto: Crypto, sets: map<Bytes, VerifierSet>, calls: seq<Call>)
    ensures IdsAgree(crypto, sets, calls) <==> AgreesWith(crypto, sets, calls) && OneSetPerId(crypto, calls)
    decreases |calls|
  {
    if calls != [] {
      if calls[0].RegisterSet? {
        var vs := calls[0].verifierSet;
        AgreeIff(crypto, sets[crypto.setId(vs) := vs], calls[1..]);
        AgreeCons(crypto, sets, calls);
      } else {
        RegistersTail(calls);
        AgreeIff(crypto, sets, calls[1..]);
      }
    }
  }

  // ---------------------------------------------------------------- in terms of the sets themselves

  /** Two sets with one input have the same map keys and field lengths. */
  ghost predicate SameShape(n: Naming, a: VerifierSet, b: VerifierSet)
    requires Lists(n.order(a), a) && Lists(n.order(b), b)
  {
    n.order(a) == n.order(b) && SameLengths(InOrder(a, n.order(a)), InOrder(b, n.order(b)))
  }

  lemma {:induction false} SameIdIff(crypto: Crypto, n: Naming, calls: seq<Call>, a: VerifierSet, b: VerifierSet)
    requires NoCollision(n, calls) && AllNamedByInput(crypto, n, calls) && Registers(calls, a) && Registers(calls, b)
    ensures NamedByInput(crypto, n, a) && NamedByInput(crypto, n, b)
    ensures crypto.setId(a) == crypto.setId(b) <==> Input(n, a) == Input(n, b)
    ensures Input(n, a) == Input(n, b) ==> (a == b <==> SameShape(n, a, b))
  {
    if Input(n, a) == Input(n, b) { EqualInputsEqualSetsIff(n.width, a, n.order(a), b, n.order(b)); }
  }

  ghost predicate ShapesDecide(n: Naming, calls: seq<Call>)
    requires forall vs :: Registers(calls, vs) ==> Lists(n.order(vs), vs)
  {
    forall a, b :: Registers(calls, a) && Registers(calls, b) && Input(n, a) == Input(n, b) ==> SameShape(n, a, b)
  }

  /** For whole runs: given a digest without collisions among the registered sets, no registration replaces a
      different set exactly when every two registered sets with one input have the same map keys and agree on
      the lengths of addresses and public keys. */
  lemma {:induction false} IdsAgreeIff(crypto: Crypto, n: Naming, calls: seq<Call>)
    requires NoCollision(n, calls) && AllNamedByInput(crypto, n, calls)
    ensures IdsAgree(crypto, map[], calls) <==> ShapesDecide(n, calls)
  {
    AgreeIff(crypto, map[], calls);
    forall a, b | Registers(calls, a) && Registers(calls, b)
      ensures NamedByInput(crypto, n, a) && NamedByInput(crypto, n, b)
      ensures (crypto.setId(a) == crypto.setId(b) ==> a == b) <==> (Input(n, a) == Input(n, b) ==> SameShape(n, a, b))
    {
      SameIdIff(crypto, n, calls, a, b);
    }
  }

  /** A set with addresses of one length and public keys of one type, that fits the length prefix. */
  ghost predicate Regular(n: Naming, vs: VerifierSet, addressLength: nat)
    requires Lists(n.order(vs), vs)
  {
    |n.order(vs)| < Pow256(n.width) && exists k :: Uniform(InOrder(vs, n.order(vs)), addressLength, k)
  }

  lemma {:induction false} RegularShape(n: Naming, a: VerifierSet, b: VerifierSet, addressLength: nat)
    requires ListsInOrder(n.order(a), a) && ListsInOrder(n.order(b), b)
    requires Regular(n, a, addressLength) && Regular(n, b, addressLength) && Input(n, a) == Input(n, b)
    ensures SameShape(n, a, b) <==> n.order(a) == n.order(b)
    ensures WellKeyed(a) && WellKeyed(b) ==> n.order(a) == n.order(b)
  {
    var oa, ob := n.order(a), n.order(b);
    var ka :| Uniform(InOrder(a, oa), addressLength, ka);
    var kb :| Uniform(InOrder(b, ob), addressLength, kb);
    EqualInputsEqualSets(n.width, a, oa, b, ob, addressLength, ka, kb);
    PreimageInjective(n.width, InOrder(a, oa), a.threshold, a.createdAt, InOrder(b, ob), b.threshold, b.createdAt,
                      addressLength, ka, kb);
  }

  /** If all registered sets have addresses of one length and public keys of one type each, no registration
      replaces a different set exactly when sets with one input have the same map keys; and none does if all
      sets store their signers under their own addresses. */
  lemma {:induction false} RegularSetsNeverReplaceEachOther(crypto: Crypto, n: Naming, calls: seq<Call>, addressLength: nat)
    requires NoCollision(n, calls) && AllNamedByInput(crypto, n, calls)
    requires forall vs :: Registers(calls, vs) ==> Regular(n, vs, addressLength)
    ensures IdsAgree(crypto, map[], calls) <==>
              forall a, b :: Registers(calls, a) && Registers(calls, b) && Input(n, a) == Input(n, b) ==>
                n.order(a) == n.order(b)
    ensures (forall vs :: Registers(calls, vs) ==> WellKeyed(vs)) ==> IdsAgree(crypto, map[], calls)
  {
    IdsAgreeIff(crypto, n, calls);
    forall a, b | Registers(calls, a) && Registers(calls, b) && Input(n, a) == Input(n, b)
      ensures SameShape(n, a, b) <==> n.order(a) == n.order(b)
      ensures WellKeyed(a) && WellKeyed(b) ==> n.order(a) == n.order(b)
    {
      RegularShape(n, a, b, addressLength);
    }
  }
}

/** Why the ids must agree: two sets with one hash input share their id under every digest. */
module CollidingSets {
  import opened Ints
  import opened Outcomes
  import opened Sums
  import opened ByteStrings
  import opened MultisigTypes
  import opened VerifierSetHash
  import opened SigningSessions
  import SetIds

  lemma {:induction false} OneSignerWeight(s: Signer, threshold: u128, createdAt: u64)
    ensures SumOver({s.address}, Singleton(s, threshold, createdAt).Weights()) == s.weight
  {
    var w := Singleton(s, threshold, createdAt).Weights();
    SumOverRemove({s.address}, w, s.address);
    assert {s.address} - {s.address} == {};
  }

  /** The first signature reaches the threshold and completes the session. */
  lemma {:induction false} OneSignatureCompletes(crypto: Crypto, s: Store, signer: Signer, threshold: u128, createdAt: u64, height: u64, bytes: Bytes, sig: Signature)
    requires s.active && 1 in s.sessions && s.signatures == map[] && threshold <= signer.weight
    requires s.sessions[1].state.Pending? && s.sessions[1].sigVerifier.None? && height <= s.sessions[1].expiresAt
    requires s.sessions[1].setId in s.sets && s.sets[s.sessions[1].setId] == Singleton(signer, threshold, createdAt)
    requires ParseSignature(signer.pubKey.Type(), bytes) == Some(sig)
    requires crypto.verify(s.sessions[1].msg, signer.pubKey, sig)
    ensures Submitted(crypto, s, signer.address, 1, bytes, height, false) ==
              Ok(s.(signatures := map[(1, signer.address) := sig],
                    sessions := s.sessions[1 := s.sessions[1].(state := Completed(height))]))
  {
    var signatures := s.signatures[(1, signer.address) := sig];
    assert signatures == map[(1, signer.address) := sig];
    assert Signers(signatures, 1) == {signer.address};
    OneSignerWeight(signer, threshold, createdAt);
  }

  lemma {:induction false} RunOn(crypto: Crypto, w: World, call: Call, rest: seq<Call>)
    ensures Run(crypto, w, [call] + rest) == Run(crypto, Step(crypto, w, call), rest)
  {
    assert ([call] + rest)[1..] == rest;
  }

  /** A session whose set has one signer, completed, and then a different set registered under the same id: the
      session stays completed, but its signer no longer belongs to the set it names. */
  lemma {:induction false} ReplacedSetDisownsSigners(
    crypto: Crypto, expiry: u64, a: Signer, b: Signer, threshold: u128, createdAt: u64,
    msg: Bytes, height: u64, bytes: Bytes, sig: Signature)
    requires 0 < threshold <= a.weight && height + expiry <= U64_MAX && a.address != b.address
    requires crypto.setId(Singleton(a, threshold, createdAt)) == crypto.setId(Singleton(b, threshold, createdAt))
    requires ParseSignature(a.pubKey.Type(), bytes) == Some(sig) && crypto.verify(msg, a.pubKey, sig)
    ensures var set1, set2 := Singleton(a, threshold, createdAt), Singleton(b, threshold, createdAt);
            var calls := [RegisterSet(set1), Start(crypto.setId(set1), msg, None, height),
                          Submit(a.address, 1, bytes, height, false), RegisterSet(set2)];
            var start := World(Store(true, expiry, 0, map[], map[], map[]), []);
            var w := Run(crypto, start, calls);
            && Fresh(start.store)
            && 1 in w.store.sessions && w.store.sessions[1].state == Completed(height)
            && w.store.sessions[1].setId in w.store.sets
            && Signers(w.store.signatures, 1) == {a.address}
            && a.address !in w.store.sets[w.store.sessions[1].setId].signers
            && !SessionOk(crypto, w, 1)
            && !NamedSetsStay(crypto, start, calls)
            && !IdsAgree(crypto, map[], calls)
  {
    var set1, set2 := Singleton(a, threshold, createdAt), Singleton(b, threshold, createdAt);
    var id := crypto.setId(set1);
    var c1, c2 := RegisterSet(set1), Start(id, msg, None, height);
    var c3, c4 := Submit(a.address, 1, bytes, height, false), RegisterSet(set2);
    var w0 := World(Store(true, expiry, 0, map[], map[], map[]), []);
    var pending := Session(1, id, msg, Pending, height + expiry, None);
    var w1 := World(Store(true, expiry, 0, map[], map[], map[id := set1]), []);
    var w2 := World(Store(true, expiry, 1, map[1 := pending], map[], map[id := set1]), []);
    assert [c1, c2, c3, c4] == [c1] + ([c2] + ([c3] + ([c4] + [])));
    RunOn(crypto, w0, c1, [c2] + ([c3] + ([c4] + [])));
    assert Step(crypto, w0, c1) == w1;
    RunOn(crypto, w1, c2, [c3] + ([c4] + []));
    assert Step(crypto, w1, c2) == w2;
    RunOn(crypto, w2, c3, [c4] + []);
    OneSignatureCompletes(crypto, w2.store, a, threshold, createdAt, height, bytes, sig);
    var w3 := Step(crypto, w2, c3);
    RunOn(crypto, w3, c4, []);
    assert Signers(w3.store.signatures, 1) == {a.address};
    DifferentSets(a, b, threshold, createdAt);
    MustBeReplaced(crypto, w0, [c1, c2, c3, c4], 1);
  }

  /** A session that is not as it should be shows that a set it names was replaced. */
  lemma {:induction false} MustBeReplaced(crypto: Crypto, w: World, calls: seq<Call>, id: u64)
    requires Fresh(w.store) && w.log == []
    requires id in Run(crypto, w, calls).store.sessions && !SessionOk(crypto, Run(crypto, w, calls), id)
    ensures !NamedSetsStay(crypto, w, calls) && !IdsAgree(crypto, map[], calls)
  {
    if NamedSetsStay(crypto, w, calls) {
      CompletedIffThresholdReached(crypto, w.store, calls, id);
      assert false;
    }
    if IdsAgree(crypto, map[], calls) {
      AgreeingIdsStay(crypto, w, calls);
      assert false;
    }
  }

  lemma {:induction false} DifferentSets(a: Signer, b: Signer, threshold: u128, createdAt: u64)
    requires a.address != b.address
    ensures a.address !in Singleton(b, threshold, createdAt).signers
    ensures Singleton(a, threshold, createdAt) != Singleton(b, threshold, createdAt)
  {
    assert a.address in Singleton(a, threshold, createdAt).signers;
  }

  /** The same signers registered under other map keys replace the set as well: a valid signature, accepted
      before, is refused afterwards. */
  lemma {:induction false} OtherMapKeysRefuseSigner(
    crypto: Crypto, expiry: u64, s: Signer, other: Address, threshold: u128, createdAt: u64,
    msg: Bytes, height: u64, bytes: Bytes, sig: Signature)
    requires threshold <= s.weight && height + expiry <= U64_MAX && other != s.address
    requires crypto.setId(Singleton(s, threshold, createdAt)) == crypto.setId(Keyed(other, s, threshold, createdAt))
    requires ParseSignature(s.pubKey.Type(), bytes) == Some(sig) && crypto.verify(msg, s.pubKey, sig)
    ensures var set1, set2 := Singleton(s, threshold, createdAt), Keyed(other, s, threshold, createdAt);
            var start := World(Store(true, expiry, 0, map[], map[], map[]), []);
            var before := [RegisterSet(set1), Start(crypto.setId(set1), msg, None, height)];
            var w1 := Run(crypto, start, before);
            var w2 := Run(crypto, start, before + [RegisterSet(set2)]);
            && Fresh(start.store)
            && Submitted(crypto, w1.store, s.address, 1, bytes, height, false).Ok?
            && Submitted(crypto, w2.store, s.address, 1, bytes, height, false) == Err(NotAParticipant)
  {
    var set1, set2 := Singleton(s, threshold, createdAt), Keyed(other, s, threshold, createdAt);
    var id := crypto.setId(set1);
    var c1, c2, c3 := RegisterSet(set1), Start(id, msg, None, height), RegisterSet(set2);
    var w0 := World(Store(true, expiry, 0, map[], map[], map[]), []);
    var pending := Session(1, id, msg, Pending, height + expiry, None);
    var registered := World(Store(true, expiry, 0, map[], map[], map[id := set1]), []);
    var started := World(Store(true, expiry, 1, map[1 := pending], map[], map[id := set1]), []);
    assert [c1, c2] == [c1] + ([c2] + []) && [c1, c2] + [c3] == [c1] + ([c2] + ([c3] + []));
    RunOn(crypto, w0, c1, [c2] + []);
    RunOn(crypto, w0, c1, [c2] + ([c3] + []));
    assert Step(crypto, w0, c1) == registered;
    RunOn(crypto, registered, c2, []);
    RunOn(crypto, registered, c2, [c3] + []);
    assert Step(crypto, registered, c2) == started;
    RunOn(crypto, started, c3, []);
    OneSignatureCompletes(crypto, started.store, s, threshold, createdAt, height, bytes, sig);
    assert s.address !in set2.signers;
  }

  /** Such sets exist for every digest: an ECDSA key and the Ed25519 key without its first byte. */
  lemma {:induction false} CollidingIds(crypto: Crypto, n: SetIds.Naming, address: Address, c: byte, key: Bytes, weight: u128, threshold: u128, createdAt: u64)
    requires |key| == 32
    requires forall s: Signer :: crypto.setId(Singleton(s, threshold, createdAt)) ==
               n.digest(Preimage(n.width, [s], threshold, createdAt))
    ensures var a := Signer(address, weight, EcdsaKey([c] + key));
            var b := Signer(address + [c], weight, Ed25519Key(key));
            && a.address != b.address
            && crypto.setId(Singleton(a, threshold, createdAt)) == crypto.setId(Singleton(b, threshold, createdAt))
  {
    AddressLengthsCollide(address, c, key, weight, threshold, createdAt, n.width);
    assert |address| != |address + [c]|;
  }

  /** And under every digest the map key does not change the id. */
  lemma {:induction false} MapKeysShareId(crypto: Crypto, n: SetIds.Naming, s: Signer, other: Address, threshold: u128, createdAt: u64)
    requires SetIds.NamedByInput(crypto, n, Singleton(s, threshold, createdAt))
    requires SetIds.NamedByInput(crypto, n, Keyed(other, s, threshold, createdAt))
    ensures crypto.setId(Singleton(s, threshold, createdAt)) == crypto.setId(Keyed(other, s, threshold, createdAt))
  {
    var a, b := Singleton(s, threshold, createdAt), Keyed(other, s, threshold, createdAt);
    assert a == Keyed(s.address, s, threshold, createdAt);
    KeyedListed(s.address, s, threshold, createdAt);
    KeyedListed(other, s, threshold, createdAt);
    OrderIsUnique(a, n.order(a), [s.address]);
    OrderIsUnique(b, n.order(b), [other]);
  }
}
