/** What a successful `C_GenerateKeyPair` leaves behind, in terms of what it was asked for and what OpenSSL drew. */
module GeneratedKeys {
  import opened Common
  import opened Tables
  import opened Objects
  import opened Engine
  import opened Effects
  import opened Runs
  import opened Lifetimes
  import opened Attributes
  import opened KeyRequests

  /**
   The halves carry the keys asked for, only the private one may sign and only the public one verify, and each is what
   its own template says.
   */
  ghost predicate PairAsAsked(call: Call, pub: Object, priv: Object) {
    && call.GenerateKeyPair? && call.material.succeeds
    && KeysAsked(call.mechanism, call.publicTemplate, call.material, pub.key, priv.key)
    && !pub.canSign && pub.canVerify && priv.canSign && !priv.canVerify
    && AsTemplateSays(call.publicTemplate, TYPE_PUBLIC_KEY, pub)
    && AsTemplateSays(call.privateTemplate, TYPE_PRIVATE_KEY, priv)
  }

  // Quantified over a copy, so that the lemmas about runs carry it along unopened.
  ghost predicate IsPairAsked(call: Call, pub: Object, priv: Object) {
    forall o :: o == pub ==> PairAsAsked(call, o, priv)
  }

  lemma HalvesAsAsked(call: Call, pub: Object, priv: Object)
    requires HalvesOf(call, pub, priv)
    ensures IsPairAsked(call, pub, priv)
  {
    GeneratedAsAsked(call.mechanism, call.publicTemplate, call.material);
    ParsedAsTemplateSays(TYPE_PUBLIC_KEY, false, true, call.publicTemplate);
    ParsedAsTemplateSays(TYPE_PRIVATE_KEY, true, false, call.privateTemplate);
  }

  /** Installing a pair puts both halves under the two handles returned. */
  lemma PairIsInstalled(s: State, call: Call, reply: Reply, e: StoreEffect) returns (pub: Object, priv: Object)
    requires StoreEffectOk(s, call, reply, e) && call.GenerateKeyPair? && reply.rv == OK
    ensures HalvesOf(call, pub, priv) && reply.out.KeyPair?
    ensures Holds(StoreAfter(s.store, e).objects, reply.out.publicKey, pub)
    ensures Holds(StoreAfter(s.store, e).objects, reply.out.privateKey, priv)
  {
    assert StoreEffectIs(s, call, reply, e);
    pub, priv := e.pub, e.priv;
    BothInstalled(s.store, e);
  }

  lemma BothInstalled(st: Store, e: StoreEffect)
    requires StoreInRange(st, e) && e.Paired?
    ensures Holds(StoreAfter(st, e).objects, ObjectHandle(TYPE_PUBLIC_KEY, st.issued), e.pub)
    ensures Holds(StoreAfter(st, e).objects, ObjectHandle(TYPE_PRIVATE_KEY, st.issued + 1), e.priv)
  {
    var u := StoreAfter(st, e).objects;
    assert u[e.i] == Used(ObjectHandle(TYPE_PUBLIC_KEY, st.issued), e.pub);
    assert u[e.j] == Used(ObjectHandle(TYPE_PRIVATE_KEY, st.issued + 1), e.priv);
  }

  /** Right after the call, both handles it returned name objects as asked. */
  lemma GeneratedPairIsAsAsked(c: Crypto, r: Run, j: nat) returns (pub: Object, priv: Object)
    requires IsRun(c, r) && j < |r.calls| && r.calls[j].GenerateKeyPair? && r.replies[j].rv == OK
    ensures r.replies[j].out.KeyPair? && PairAsAsked(r.calls[j], pub, priv)
    ensures HoldsObject(r.states[j + 1], r.replies[j].out.publicKey, pub)
    ensures HoldsObject(r.states[j + 1], r.replies[j].out.privateKey, priv)
  {
    var e := StoreAt(c, r, j);
    pub, priv := PairIsInstalled(r.states[j], r.calls[j], r.replies[j], e);
    HalvesAsAsked(r.calls[j], pub, priv);
  }

  /** The handle of one half in the reply. */
  function HalfHandle(reply: Reply, private: bool): nat
    requires reply.out.KeyPair?
  {
    if private then reply.out.privateKey else reply.out.publicKey
  }

  /** The template of one half. */
  function HalfTemplate(call: Call, private: bool): Template
    requires call.GenerateKeyPair?
  {
    if private then call.privateTemplate else call.publicTemplate
  }

  /** And for as long as either is live it goes on doing so, whatever labels it is given. */
  lemma LiveHalfIsAsAsked(c: Crypto, r: Run, j: nat, k: nat, private: bool, o: Object) returns (other: Object)
    requires IsRun(c, r) && j < k <= |r.calls| && r.states[k].store.issued <= TWO28
    requires r.calls[j].GenerateKeyPair? && r.replies[j].rv == OK && r.replies[j].out.KeyPair?
    requires HoldsObject(r.states[k], HalfHandle(r.replies[j], private), o)
    ensures if private then PairAsAsked(r.calls[j], other, o) else PairAsAsked(r.calls[j], o, other)
  {
    var pub, priv := GeneratedPairIsAsAsked(c, r, j);
    ObjectPersists(c, r, j + 1, k, HalfHandle(r.replies[j], private), if private then priv else pub, o);
    other := if private then pub else priv;
  }
}
