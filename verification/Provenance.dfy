/** Where the key behind a signature comes from, over whole runs. */
module Provenance {
  import opened Common
  import opened Tables
  import opened Objects
  import opened Engine
  import opened Lifetimes
  import opened Effects
  import opened Runs
  import opened SigningHandles
  import opened SessionHistory
  import opened GeneratedKeys

  // ----- where signing keys come from -----

  /** By state and, while fewer than 2^64 sessions were opened, by history, the user is logged in on the session. */
  ghost predicate LoggedInAt(r: Run, i: nat, session: nat)
    requires i <= |r.calls| == |r.replies| && |r.states| == |r.calls| + 1
  {
    UserOn(r.states[i], session) && (r.states[i].sessionsIssued < TWO64 ==> IsUp(r, i, session, UserIn))
  }

  /**
   Call `i` generated a key pair on a session whose user had logged in there and not out again; `h` is its private half,
   and `o` carries the private key that OpenSSL drew for the size or curve asked for.
   */
  ghost predicate GeneratedAt(r: Run, i: nat, h: nat, o: Object)
    requires i < |r.calls| == |r.replies| && |r.states| == |r.calls| + 1
  {
    && r.calls[i].GenerateKeyPair? && LoggedInAt(r, i, r.calls[i].session)
    && r.replies[i].rv == OK && r.replies[i].out.KeyPair? && r.replies[i].out.privateKey == h
    && exists pub, priv {:trigger IsPairAsked(r.calls[i], pub, priv)} ::
         && IsPairAsked(r.calls[i], pub, priv) && SameButLabel(priv, o)
         && HoldsObject(r.states[i + 1], h, priv) && HoldsObject(r.states[i + 1], r.replies[i].out.publicKey, pub)
  }

  /** What that says of the object itself. */
  lemma GeneratedKey(r: Run, i: nat, h: nat, o: Object) returns (pub: Object)
    requires i < |r.calls| == |r.replies| && |r.states| == |r.calls| + 1 && GeneratedAt(r, i, h, o)
    ensures PairAsAsked(r.calls[i], pub, o)
  {
    var priv;
    pub, priv :| IsPairAsked(r.calls[i], pub, priv) && SameButLabel(priv, o);
    assert PairAsAsked(r.calls[i], pub, priv);
  }

  // Quantified over a copy of the handle, so that the induction carries it along unopened.
  ghost predicate ComesFrom(r: Run, i: nat, h: nat, o: Object) {
    && i < |r.calls| == |r.replies| && |r.states| == |r.calls| + 1
    && forall g :: g == h ==> GeneratedAt(r, i, g, o)
  }

  lemma OriginCarries(r: Run, i: nat, h: nat, p: Object, o: Object)
    requires ComesFrom(r, i, h, p) && SameButLabel(p, o)
    ensures ComesFrom(r, i, h, o)
  {
    assert GeneratedAt(r, i, h, p);
    var pub, priv :| && IsPairAsked(r.calls[i], pub, priv) && SameButLabel(priv, p)
                     && HoldsObject(r.states[i + 1], h, priv)
                     && HoldsObject(r.states[i + 1], r.replies[i].out.publicKey, pub);
    assert SameButLabel(priv, o);
  }

  /** An object that may sign and was not there before is the private half of this very call. */
  lemma NewSigningKey(s: State, call: Call, reply: Reply, e: StoreEffect, h: nat, o: Object)
    requires StoreEffectOk(s, call, reply, e) && Holds(StoreAfter(s.store, e).objects, h, o) && o.canSign
    ensures (exists p :: HoldsObject(s, h, p) && SameButLabel(p, o)) ||
            (e.Paired? && o == e.priv && h == ObjectHandle(TYPE_PRIVATE_KEY, s.store.issued + 1))
  {
    assert StoreEffectIs(s, call, reply, e);
    ObjectsStep(s, call, reply, e, h, o);
    if e.Paired? {
      assert SameButLabel(o, o);
    }
  }

  lemma PairFacts(s: State, call: Call, reply: Reply, e: StoreEffect)
    requires StoreEffectOk(s, call, reply, e) && e.Paired?
    ensures HalvesOf(call, e.pub, e.priv) && UserOn(s, call.session)
    ensures reply == Reply(OK, PairHandles(s.store.issued))
  {
    assert StoreEffectIs(s, call, reply, e);
  }

  lemma LoggedInByHistory(c: Crypto, r: Run, i: nat, session: nat)
    requires IsRun(c, r) && i <= |r.calls| && UserOn(r.states[i], session)
    ensures LoggedInAt(r, i, session)
  {
    if r.states[i].sessionsIssued < TWO64 {
      FlagIsHistory(c, r, i, GetSession(r.states[i], session).i, UserIn);
    }
  }

  lemma PairOrigin(r: Run, i: nat, h: nat, pub: Object, o: Object)
    requires i < |r.calls| == |r.replies| && |r.states| == |r.calls| + 1
    requires r.calls[i].GenerateKeyPair? && LoggedInAt(r, i, r.calls[i].session) && IsPairAsked(r.calls[i], pub, o)
    requires r.replies[i].rv == OK && r.replies[i].out.KeyPair? && r.replies[i].out.privateKey == h
    requires HoldsObject(r.states[i + 1], h, o) && HoldsObject(r.states[i + 1], r.replies[i].out.publicKey, pub)
    ensures ComesFrom(r, i, h, o)
  {
    assert SameButLabel(o, o);
  }

  lemma PairIsOrigin(c: Crypto, r: Run, i: nat, e: StoreEffect, o: Object)
    requires IsRun(c, r) && i < |r.calls|
    requires StoreEffectOk(r.states[i], r.calls[i], r.replies[i], e) && e.Paired? && o == e.priv
    requires r.states[i + 1].store == StoreAfter(r.states[i].store, e)
    ensures ComesFrom(r, i, ObjectHandle(TYPE_PRIVATE_KEY, r.states[i].store.issued + 1), o)
  {
    PairFacts(r.states[i], r.calls[i], r.replies[i], e);
    HalvesAsAsked(r.calls[i], e.pub, o);
    BothInstalled(r.states[i].store, e);
    LoggedInByHistory(c, r, i, r.calls[i].session);
    PairOrigin(r, i, ObjectHandle(TYPE_PRIVATE_KEY, r.states[i].store.issued + 1), e.pub, o);
  }

  /** Every live object that may sign is the private half of an earlier key pair. */
  lemma {:induction false} SigningKeysAreGenerated(c: Crypto, r: Run, k: nat, h: nat, o: Object) returns (i: nat)
    requires IsRun(c, r) && k <= |r.calls| && HoldsObject(r.states[k], h, o) && o.canSign
    ensures i < k && ComesFrom(r, i, h, o)
  {
    if k == 0 {
      assert false;
    }
    var e := StoreAt(c, r, k - 1);
    NewSigningKey(r.states[k - 1], r.calls[k - 1], r.replies[k - 1], e, h, o);
    if p :| HoldsObject(r.states[k - 1], h, p) && SameButLabel(p, o) {
      i := SigningKeysAreGenerated(c, r, k - 1, h, p);
      OriginCarries(r, i, h, p, o);
    } else {
      i := k - 1;
      PairIsOrigin(c, r, i, e, o);
    }
  }

  // ----- the operation between SignInit and Sign -----

  ghost predicate HoldsSession(s: State, h: nat, ses: Session) {
    Holds(s.sessions, h, ses)
  }

  /** The session is open and `op` is its operation. */
  ghost predicate Operates(s: State, h: nat, op: Operation) {
    exists ses :: HoldsSession(s, h, ses) && ses.operation == op
  }

  /** Call `j` is a successful SignInit on session `h` for this mechanism and key. */
  ghost predicate InitialisedAt(r: Run, j: nat, h: nat, mechanism: nat, key: nat)
    requires j < |r.calls| == |r.replies| && |r.states| == |r.calls| + 1
  {
    && r.calls[j] == SignInit(h, mechanism, key) && r.replies[j].rv == OK && mechanism in SUPPORTED
    && Vetted(r.states[j].store, key)
  }

  /** A sign operation that is active after a call was started by it or was active before. */
  lemma OperationStep(s: State, call: Call, reply: Reply, e: SessionEffect, after: State, h: nat, ses: Session)
    requires SessionEffectOk(s, call, reply, e) && SessionsAfter(s, e, after)
    requires HoldsSession(after, h, ses) && ses.operation.active && ses.operation.kind == SignOperation
    ensures Operates(s, h, ses.operation) ||
            (reply.rv == OK && call == SignInit(h, ses.operation.mechanism, ses.operation.key)
             && ses.operation.mechanism in SUPPORTED && Vetted(s.store, ses.operation.key))
  {
    assert SessionEffectIs(s, call, reply, e);
    var i :| 0 <= i < |after.sessions| && after.sessions[i] == Used(h, ses);
    if s.sessions[i].Used? && s.sessions[i].handle == h && s.sessions[i].item.operation == ses.operation {
      assert HoldsSession(s, h, s.sessions[i].item);
    }
  }

  lemma OperationBefore(c: Crypto, r: Run, k: nat, h: nat, ses: Session)
    requires IsRun(c, r) && k < |r.calls| && HoldsSession(r.states[k + 1], h, ses)
    requires ses.operation.active && ses.operation.kind == SignOperation
    ensures Operates(r.states[k], h, ses.operation) ||
            InitialisedAt(r, k, h, ses.operation.mechanism, ses.operation.key)
  {
    var e := SessionsAt(c, r, k);
    OperationStep(r.states[k], r.calls[k], r.replies[k], e, r.states[k + 1], h, ses);
  }

  /**
   An active sign operation was started by an earlier SignInit on the same session, and has been that
   session's operation ever since.
   */
  lemma {:induction false} OperationHasInit(c: Crypto, r: Run, k: nat, h: nat, ses: Session) returns (j: nat)
    requires IsRun(c, r) && k <= |r.calls| && HoldsSession(r.states[k], h, ses)
    requires ses.operation.active && ses.operation.kind == SignOperation
    ensures j < k && InitialisedAt(r, j, h, ses.operation.mechanism, ses.operation.key)
    ensures forall m :: j < m <= k ==> Operates(r.states[m], h, ses.operation)
  {
    if k == 0 {
      assert false;
    }
    OperationBefore(c, r, k - 1, h, ses);
    if Operates(r.states[k - 1], h, ses.operation) {
      var was :| HoldsSession(r.states[k - 1], h, was) && was.operation == ses.operation;
      j := OperationHasInit(c, r, k - 1, h, was);
    } else {
      j := k - 1;
    }
    assert HoldsSession(r.states[k], h, ses);
  }

  // ----- the theorem -----

  /** The Sign found an object of the right type: `hsm_sign_data` passes its key on to OpenSSL. */
  ghost predicate HandsOver(s: State, h: nat) {
    GetSession(s, h).At? &&
    var key := s.sessions[GetSession(s, h).i].item.operation.key;
    GetObject(s.store, key).At? && s.store.objects[GetObject(s.store, key).i].item.kind == TYPE_PRIVATE_KEY
  }

  /** What a Sign call that reaches the signing code has used. */
  lemma SignUses(c: Crypto, s: State, call: Call) returns (ses: Session, o: Object)
    requires call.Sign? && Step(c, s, call).reply.out.Signature?
    ensures call.data.Some? && HoldsSession(s, call.session, ses)
    ensures ses.operation.active && ses.operation.kind == SignOperation && HoldsObject(s, ses.operation.key, o)
    ensures GetObject(s.store, ses.operation.key).At?
    ensures o == s.store.objects[GetObject(s.store, ses.operation.key).i].item
    ensures HandsOver(s, call.session) <==> o.kind == TYPE_PRIVATE_KEY
    ensures var signed := SignData(c, o, ses.operation.mechanism, call.data.value, call.room, call.nonce);
            Step(c, s, call).reply == Reply(signed.rv, Signature(signed.signature, signed.length))
  {
    var i := GetSession(s, call.session).i;
    ses := s.sessions[i].item;
    assert s.sessions[i] == Used(call.session, ses);
    var k := GetObject(s.store, ses.operation.key).i;
    o := s.store.objects[k].item;
    assert s.store.objects[k] == Used(ses.operation.key, o);
  }

  lemma VettedObject(st: Store, key: nat) returns (o: Object)
    requires Vetted(st, key)
    ensures o == st.objects[GetObject(st, key).i].item && Holds(st.objects, key, o)
    ensures o.kind == TYPE_PRIVATE_KEY && o.canSign
  {
    var i := GetObject(st, key).i;
    o := st.objects[i].item;
    assert st.objects[i] == Used(key, o);
  }

  /** The private components are those of the material the call drew, for the mechanism it was given. */
  ghost predicate CarriesPrivateKey(call: Call, key: KeyData) {
    && call.GenerateKeyPair?
    && if call.mechanism == CKM_RSA_PKCS_KEY_PAIR_GEN then
         var m := call.material.rsa;
         && key.Rsa? && key.modulus == m.modulus && key.publicExponent == m.publicExponent
         && key.privateExponent == m.privateExponent && key.prime1 == m.prime1 && key.prime2 == m.prime2
         && key.exponent1 == m.exponent1 && key.exponent2 == m.exponent2 && key.coefficient == m.coefficient
       else key.Ec? && key.point == call.material.ec.point && key.scalar == call.material.ec.scalar
  }

  lemma ComesWithKey(r: Run, i: nat, h: nat, o: Object)
    requires ComesFrom(r, i, h, o)
    ensures CarriesPrivateKey(r.calls[i], o.key)
  {
    assert GeneratedAt(r, i, h, o);
    var pub := GeneratedKey(r, i, h, o);
  }

  /** The history behind a signature made at `k` with object `o` under handle `key`. */
  ghost predicate SignedWith(c: Crypto, r: Run, i: nat, j: nat, k: nat, mechanism: nat, key: nat, o: Object)
    requires i < j < k < |r.calls| == |r.replies| && |r.states| == |r.calls| + 1 && r.calls[k].Sign?
  {
    // The object is the private half of a pair generated for a logged-in user, with the private key drawn for it.
    && ComesFrom(r, i, key, o) && o.canSign && o.kind == TYPE_PRIVATE_KEY
    && CarriesPrivateKey(r.calls[i], o.key)
    // It is the object the matching SignInit vetted, up to its label, and was live all the way.
    && InitialisedAt(r, j, r.calls[k].session, mechanism, key)
    && NamesThroughout(r, j, k, key, o) && HoldsObject(r.states[k], key, o)
    // The operation was active on the session all the way.
    && (forall m :: j < m <= k ==>
          Operates(r.states[m], r.calls[k].session, Operation(SignOperation, mechanism, key, true)))
    // And the reply is what signing with its key material gives.
    && r.calls[k].data.Some?
    && var signed := c.sign(o.key, mechanism, r.calls[k].data.value, r.calls[k].room, r.calls[k].nonce);
       r.replies[k] == Reply(signed.rv, Signature(signed.signature, signed.length))
  }

  lemma PairTakesTwo(s: State, call: Call, reply: Reply, e: StoreEffect)
    requires StoreEffectOk(s, call, reply, e) && call.GenerateKeyPair? && reply.rv == OK
    ensures reply.out == PairHandles(s.store.issued) && StoreAfter(s.store, e).issued == s.store.issued + 2
  {
    assert StoreEffectIs(s, call, reply, e);
  }

  /** The handle of a generated private half, and that its number is out. */
  lemma GeneratedHandle(c: Crypto, r: Run, i: nat, k: nat, h: nat, o: Object) returns (n: nat)
    requires IsRun(c, r) && i < k <= |r.calls| && ComesFrom(r, i, h, o)
    ensures KeyHandle(h, n) && n < r.states[k].store.issued
  {
    assert GeneratedAt(r, i, h, o);
    n := r.states[i].store.issued + 1;
    var e := StoreAt(c, r, i);
    PairTakesTwo(r.states[i], r.calls[i], r.replies[i], e);
    RunCounts(c, r, i + 1, k);
  }

  /**
   Signature provenance. While at most 2^28 + 2 object handles have been issued, whatever other calls came in
   between on any session, every Sign that hands a key to OpenSSL hands over the object its SignInit vetted, and that
   object is the private half of a key pair generated on a session whose user was logged in. A Sign that reaches an
   object but hands no key over is refused with an empty signature; while at most 2^28 + 1 handles have been issued
   there is none. `HandleReuse` shows that neither bound can be raised.
   */
  lemma SignatureProvenance(c: Crypto, r: Run, k: nat) returns (i: nat, j: nat, mechanism: nat, key: nat, o: Object)
    requires IsRun(c, r) && k < |r.calls| && r.states[k].store.issued <= TWO28 + 2
    requires r.calls[k].Sign? && r.replies[k].out.Signature?
    ensures i < j < k
    ensures if HandsOver(r.states[k], r.calls[k].session) then SignedWith(c, r, i, j, k, mechanism, key, o)
            else r.replies[k] == Reply(KeyTypeInconsistent, Signature([], r.calls[k].room))
    ensures r.states[k].store.issued <= TWO28 + 1 ==> HandsOver(r.states[k], r.calls[k].session)
  {
    assert StepAt(c, r, k);
    var ses;
    ses, o := SignUses(c, r.states[k], r.calls[k]);
    mechanism, key := ses.operation.mechanism, ses.operation.key;
    j := OperationHasInit(c, r, k, r.calls[k].session, ses);
    var p := VettedObject(r.states[j].store, key);
    i := SigningKeysAreGenerated(c, r, j, key, p);
    var n := GeneratedHandle(c, r, i, j, key, p);
    if r.states[k].store.issued <= Bound(o.kind != TYPE_PRIVATE_KEY) {
      VettedKeyStays(c, r, j, k, key, n);
      OriginCarries(r, i, key, p, o);
      ComesWithKey(r, i, key, o);
      SignedFacts(c, r, i, j, k, ses, p, o);
    }
  }

  lemma SignedFacts(c: Crypto, r: Run, i: nat, j: nat, k: nat, ses: Session, p: Object, o: Object)
    requires i < j < k < |r.calls| == |r.replies| && |r.states| == |r.calls| + 1 && r.calls[k].Sign?
    requires ses.operation == Operation(SignOperation, ses.operation.mechanism, ses.operation.key, true)
    requires ComesFrom(r, i, ses.operation.key, o) && CarriesPrivateKey(r.calls[i], o.key)
    requires p.canSign && p.kind == TYPE_PRIVATE_KEY
    requires InitialisedAt(r, j, r.calls[k].session, ses.operation.mechanism, ses.operation.key)
    requires SameButLabel(p, o) && NamesThroughout(r, j, k, ses.operation.key, o)
    requires HoldsObject(r.states[k], ses.operation.key, o)
    requires forall m :: j < m <= k ==> Operates(r.states[m], r.calls[k].session, ses.operation)
    requires r.calls[k].data.Some?
    requires var call := r.calls[k];
             var signed := SignData(c, o, ses.operation.mechanism, call.data.value, call.room, call.nonce);
             r.replies[k] == Reply(signed.rv, Signature(signed.signature, signed.length))
    ensures SignedWith(c, r, i, j, k, ses.operation.mechanism, ses.operation.key, o)
  {
  }
}
