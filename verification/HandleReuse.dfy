/**
 Why provenance stops where it does: runs, for any OpenSSL and any key material, in which the handle a SignInit vetted
 comes to name another object before the Sign. With 2^28 + 2 handles issued that object is a public key, and the Sign
 is refused; with 2^28 + 3 it is called a private key, and the Sign signs with a key that nobody vetted.
 */
module HandleReuse {
  import opened Common
  import opened Tables
  import opened Objects
  import opened Storage
  import opened Engine
  import opened Effects
  import opened Runs
  import opened Lifetimes
  import opened Provenance
  import LE = LittleEndian

  /** The private half of the first pair of a process. */
  const KEY: nat := 0x2000_0002

  const MECHANISM: nat := 0x1041

  const PIN: Bytes := [0x31, 0x31, 0x31, 0x31]

  // ----- growing a run -----

  function Last(r: Run): State
    requires |r.states| > 0
  {
    r.states[|r.states| - 1]
  }

  lemma Grow(c: Crypto, r: Run, call: Call) returns (grown: Run)
    requires IsRun(c, r) && Completes(Last(r), call)
    ensures IsRun(c, grown) && |grown.calls| == |r.calls| + 1 && grown.calls[|r.calls|] == call
    ensures grown.states[|r.calls|] == Last(r)
    ensures Makes(c, Last(r), call, Last(grown), grown.replies[|r.calls|])
  {
    var Outcome(after, reply) := Step(c, Last(r), call);
    grown := Run(r.states + [after], r.calls + [call], r.replies + [reply]);
    forall k | 0 <= k < |grown.calls| ensures StepAt(c, grown, k) {
      assert k < |r.calls| ==> StepAt(c, r, k);
    }
  }

  /** The same, with the step laid open. */
  lemma GrowBy(c: Crypto, r: Run, call: Call) returns (grown: Run)
    requires IsRun(c, r) && Completes(Last(r), call)
    ensures IsRun(c, grown) && |grown.calls| == |r.calls| + 1 && grown.calls[|r.calls|] == call
    ensures grown.states[|r.calls|] == Last(r)
    ensures Step(c, Last(r), call) == Outcome(Last(grown), grown.replies[|r.calls|])
  {
    grown := Grow(c, r, call);
  }

  // ----- the states of the run -----

  function UserSession(op: Operation): Session {
    FreshSession(true).(user := true, state := RwUser, operation := op)
  }

  /** Session 1 is open with its user logged in, and is the only one. */
  ghost predicate OneSession(s: State, ses: Session) {
    s.up && s.sessions == NoSessions()[0 := Used(1, ses)]
  }

  /** The only object is the public half of the first pair. */
  ghost predicate OneObject(st: Store, pub: Object) {
    st.objects == NoObjects()[0 := Used(0x1000_0001, pub)]
  }

  function WithIssued(s: State, issued: nat): State {
    s.(store := s.store.(issued := issued))
  }

  lemma SecondIsFound(t: ObjectTable)
    requires t[0].Used? && t[1].Used? && t[0].handle != t[1].handle
    ensures IndexOf(t, t[1].handle) == 1
  {
  }

  lemma CreatedSecond(st: Store, pub: Object)
    requires OneObject(st, pub)
    ensures var g := ObjectHandle(TYPE_DATA, st.issued);
            && CreateIn(st, []).reply == Reply(OK, Handle(g))
            && CreateIn(st, []).store == Store(st.objects[1 := Used(g, ParsedObject([]))], st.issued + 1, st.keyFiles)
            && IndexOf(CreateIn(st, []).store.objects, g) == 1
  {
    CountOne(st.objects, 0);
    assert FreeFrom(st.objects, 1) == 1;
    assert FreeFrom(st.objects, 0) == 1;
    SecondIsFound(CreateIn(st, []).store.objects);
  }

  lemma SecondDestroyed(st: Store, pub: Object)
    requires OneObject(st, pub)
    ensures var g := ObjectHandle(TYPE_DATA, st.issued);
            DestroyIn(CreateIn(st, []).store, g) == Stored(st.(issued := st.issued + 1), Just(OK))
  {
    CreatedSecond(st, pub);
    var g := ObjectHandle(TYPE_DATA, st.issued);
    assert st.objects[1 := Used(g, ParsedObject([]))][1 := Free] == st.objects;
  }

  /** On the one session the object calls get through to the store. */
  lemma CreateReaches(c: Crypto, s: State, ses: Session, t: Template, after: State, reply: Reply)
    requires OneSession(s, ses) && Makes(c, s, CreateObject(1, Some(t)), after, reply)
    ensures after == s.(store := CreateIn(s.store, t).store)
  {
    assert Step(c, s, CreateObject(1, Some(t))) == Outcome(after, reply);
  }

  lemma DestroyReaches(c: Crypto, s: State, ses: Session, h: nat, after: State, reply: Reply)
    requires OneSession(s, ses) && Makes(c, s, DestroyObject(1, h), after, reply)
    ensures after == s.(store := DestroyIn(s.store, h).store)
  {
    assert Step(c, s, DestroyObject(1, h)) == Outcome(after, reply);
  }

  /** Creating an object and destroying it leaves everything as it was but for the handle it used up. */
  lemma OneWasted(c: Crypto, r: Run, ses: Session, pub: Object) returns (grown: Run)
    requires IsRun(c, r) && OneSession(Last(r), ses) && OneObject(Last(r).store, pub)
    ensures IsRun(c, grown) && Last(grown) == WithIssued(Last(r), Last(r).store.issued + 1)
  {
    var s := Last(r);
    var g := ObjectHandle(TYPE_DATA, s.store.issued);
    SecondDestroyed(s.store, pub);
    grown := Grow(c, r, CreateObject(1, Some([])));
    var t := Last(grown);
    CreateReaches(c, s, ses, [], t, grown.replies[|r.calls|]);
    var n := |grown.calls|;
    grown := Grow(c, grown, DestroyObject(1, g));
    DestroyReaches(c, t, ses, g, Last(grown), grown.replies[n]);
  }

  lemma CountOne(t: ObjectTable, i: nat)
    requires i < MAX_OBJECTS && t == NoObjects()[i := t[i]] && t[i].Used?
    ensures Count(t) == 1
  {
    CountExtremes(NoObjects());
    CountUpdate(NoObjects(), i, t[i]);
  }

  lemma {:induction false} Wasted(c: Crypto, r: Run, ses: Session, pub: Object, n: nat) returns (grown: Run)
    requires IsRun(c, r) && OneSession(Last(r), ses) && OneObject(Last(r).store, pub)
    ensures IsRun(c, grown) && Last(grown) == WithIssued(Last(r), Last(r).store.issued + n)
  {
    grown := r;
    if n != 0 {
      grown := Wasted(c, r, ses, pub, n - 1);
      grown := OneWasted(c, grown, ses, pub);
    }
  }

  /** A process starts on a disk that knows the user's PIN, opens a session and logs the user in. */
  lemma LoggedInRun(c: Crypto) returns (r: Run)
    ensures IsRun(c, r) && OneSession(Last(r), UserSession(IDLE)) && Last(r).store == Store(NoObjects(), 0, map[])
  {
    var token := TokenInfo(true, true, true, Zeros(32), c.hash(PIN), Zeros(32));
    var auth := Auth(BLANK_TOKEN, FULL_TRIES, FULL_TRIES, Some(EncodeToken(token)));
    r := Run([State(false, auth, NoSessions(), 0, Store(NoObjects(), 0, map[]))], [], []);
    r := GrowBy(c, r, Initialize);
    TokenRoundTrip(token, BLANK_TOKEN);
    CountExtremes(NoSessions());
    assert Last(r).auth.token == token;
    r := GrowBy(c, r, OpenSession(0, 6));
    assert Last(r).sessions == NoSessions()[0 := Used(1, FreshSession(true))];
    r := GrowBy(c, r, Login(1, CKU_USER, Some(PIN)));
  }

  /** It generates a key pair. */
  lemma GeneratedRun(c: Crypto, m: Material) returns (r: Run, pub: Object, priv: Object)
    requires m.succeeds
    ensures IsRun(c, r) && OneSession(Last(r), UserSession(IDLE)) && Last(r).store.issued == 2
    ensures Last(r).store.objects == NoObjects()[0 := Used(0x1000_0001, pub)][1 := Used(KEY, priv)]
    ensures priv.kind == TYPE_PRIVATE_KEY && priv.canSign && !priv.isToken
  {
    r := LoggedInRun(c);
    var s := Last(r);
    r := GrowBy(c, r, GenerateKeyPair(1, CKM_EC_KEY_PAIR_GEN, [], [], m));
    var g := Generate(CKM_EC_KEY_PAIR_GEN, [], m);
    pub := PublicHalf([], g.publicKey);
    priv := PrivateHalf([], g.privateKey);
    assert FreeFrom(s.store.objects, 0) == 0 && FreeFrom(s.store.objects, 1) == 1;
  }

  /** It starts to sign with the private half, and destroys that half. */
  lemma VettedRun(c: Crypto, m: Material) returns (r: Run, pub: Object)
    requires m.succeeds
    ensures IsRun(c, r) && OneSession(Last(r), UserSession(Operation(SignOperation, MECHANISM, KEY, true)))
    ensures OneObject(Last(r).store, pub) && Last(r).store.issued == 2
  {
    var priv;
    r, pub, priv := GeneratedRun(c, m);
    SecondIsFound(Last(r).store.objects);
    r := GrowBy(c, r, SignInit(1, MECHANISM, KEY));
    assert Last(r).sessions == NoSessions()[0 := Used(1, UserSession(Operation(SignOperation, MECHANISM, KEY, true)))];
    r := GrowBy(c, r, DestroyObject(1, KEY));
    assert Last(r).store.objects == NoObjects()[0 := Used(0x1000_0001, pub)];
  }

  /** A template entry that says what its object is; the code takes its word for it. */
  function ClassIs(kind: nat): (a: Attribute)
    requires kind <= TYPE_PRIVATE_KEY
    ensures a.kind == CKA_CLASS && ULong(a.value) == kind
  {
    LE.Widths();
    LE.DecodeEncode(kind, 8);
    var v := LE.Encode(kind, 8);
    assert v[..8] == v;
    Attribute(CKA_CLASS, v)
  }

  lemma ParsedKind(o: Object, a: Attribute)
    requires a.kind == CKA_CLASS && ULong(a.value) <= TYPE_PRIVATE_KEY
    ensures ParseTemplate(o, [a]).kind == ULong(a.value)
  {
    assert [a][..0] == [];
  }

  lemma CreateTakes(st: Store, pub: Object, t: Template)
    requires OneObject(st, pub) && st.issued == TWO28 + 1 && ParsedObject(t).kind == TYPE_PUBLIC_KEY
    ensures var u := CreateIn(st, t).store;
            && u.objects == st.objects[1 := Used(KEY, ParsedObject(t))] && u.issued == TWO28 + 2
            && IndexOf(u.objects, KEY) == 1
  {
    CountOne(st.objects, 0);
    assert FreeFrom(st.objects, 1) == 1;
    assert FreeFrom(st.objects, 0) == 1;
    SecondIsFound(CreateIn(st, t).store.objects);
  }

  /** An object called a public key takes over the handle that was vetted, as the only object under it. */
  lemma TakenByPublicKey(c: Crypto, r: Run, ses: Session, pub: Object) returns (grown: Run, o: Object)
    requires IsRun(c, r) && OneSession(Last(r), ses) && OneObject(Last(r).store, pub)
    requires Last(r).store.issued == TWO28 + 1
    ensures IsRun(c, grown) && OneSession(Last(grown), ses) && Last(grown).store.issued == TWO28 + 2
    ensures o.kind == TYPE_PUBLIC_KEY && IndexOf(Last(grown).store.objects, KEY) == 1
    ensures Last(grown).store.objects[1] == Used(KEY, o)
  {
    var t: Template := [ClassIs(TYPE_PUBLIC_KEY)];
    o := ParsedObject(t);
    ParsedKind(Blank(TYPE_DATA, false, false), t[0]);
    CreateTakes(Last(r).store, pub, t);
    grown := Grow(c, r, CreateObject(1, Some(t)));
    CreateReaches(c, Last(r), ses, t, Last(grown), grown.replies[|r.calls|]);
  }

  /** The object in cell 1 is the only one under the handle that was vetted. */
  ghost predicate TakesKey(t: ObjectTable, o: Object) {
    t[1] == Used(KEY, o) && forall i :: 0 <= i < MAX_OBJECTS && i != 1 && t[i].Used? ==> t[i].handle != KEY
  }

  lemma PairTakes(st: Store, pub: Object, o: Object, priv: Object)
    requires OneObject(st, pub) && st.issued == TWO28 + 1
    ensures TakesKey(InstallPair(st, o, priv).store.objects, o) && InstallPair(st, o, priv).store.issued == TWO28 + 3
  {
    assert FreeFrom(st.objects, 1) == 1;
    assert FreeFrom(st.objects, 0) == 1 && FreeFrom(st.objects, 2) == 2;
  }

  /** What the template calls a private key is one, and may not sign. */
  lemma CalledPrivate(k: KeyData)
    ensures var o := PublicHalf([ClassIs(TYPE_PRIVATE_KEY)], k); o.kind == TYPE_PRIVATE_KEY && !o.canSign
  {
    ParsedKind(Blank(TYPE_PUBLIC_KEY, false, true), ClassIs(TYPE_PRIVATE_KEY));
  }

  /** On the one session, with its user logged in, generating gets through to the store. */
  lemma GenerateReaches(c: Crypto, s: State, ses: Session, t: Template, m: Material, after: State, reply: Reply)
    requires OneSession(s, ses) && ses.user && m.succeeds
    requires Makes(c, s, GenerateKeyPair(1, CKM_EC_KEY_PAIR_GEN, t, [], m), after, reply)
    ensures var g := Generate(CKM_EC_KEY_PAIR_GEN, t, m);
            after == s.(store := InstallPair(s.store, PublicHalf(t, g.publicKey), PrivateHalf([], g.privateKey)).store)
  {
    assert Step(c, s, GenerateKeyPair(1, CKM_EC_KEY_PAIR_GEN, t, [], m)) == Outcome(after, reply);
  }

  /** A pair whose public half is called a private key takes over the handle that was vetted. */
  lemma TakenOver(c: Crypto, r: Run, m: Material, ses: Session, pub: Object) returns (grown: Run, o: Object)
    requires IsRun(c, r) && OneSession(Last(r), ses) && OneObject(Last(r).store, pub) && ses.user
    requires m.succeeds && Last(r).store.issued == TWO28 + 1
    ensures IsRun(c, grown) && OneSession(Last(grown), ses) && Last(grown).store.issued == TWO28 + 3
    ensures o.kind == TYPE_PRIVATE_KEY && !o.canSign && TakesKey(Last(grown).store.objects, o)
  {
    var s := Last(r);
    var t: Template := [ClassIs(TYPE_PRIVATE_KEY)];
    grown := Grow(c, r, GenerateKeyPair(1, CKM_EC_KEY_PAIR_GEN, t, [], m));
    GenerateReaches(c, s, ses, t, m, Last(grown), grown.replies[|r.calls|]);
    var g := Generate(CKM_EC_KEY_PAIR_GEN, t, m);
    o := PublicHalf(t, g.publicKey);
    CalledPrivate(g.publicKey);
    PairTakes(s.store, pub, o, PrivateHalf([], g.privateKey));
  }

  /**
   One handle more than `SignatureProvenance` allows for this: with 2^28 + 2 handles issued there is a run whose last
   call is a Sign that reaches an object and has no key to hand over, though a SignInit vetted the handle.
   */
  lemma RefusalBeyondTheHandles(c: Crypto, m: Material) returns (r: Run, k: nat)
    requires m.succeeds
    ensures IsRun(c, r) && k < |r.calls| && r.calls[k] == Sign(1, Some([]), 0, 0) && r.replies[k].out.Signature?
    ensures r.states[k].store.issued == TWO28 + 2 && !HandsOver(r.states[k], 1)
  {
    var pub, o;
    r, pub := VettedRun(c, m);
    var ses := UserSession(Operation(SignOperation, MECHANISM, KEY, true));
    r := Wasted(c, r, ses, pub, TWO28 - 1);
    r, o := TakenByPublicKey(c, r, ses, pub);
    k := |r.calls|;
    r := GrowBy(c, r, Sign(1, Some([]), 0, 0));
  }

  /**
   And one more than it allows for signatures: whatever OpenSSL does, there is a run of 2^28 + 3 issued handles whose
   last call is a Sign that hands over the key of an object that may not sign, so that no generation and no SignInit is
   the history `SignatureProvenance` promises.
   */
  lemma ProvenanceEndsWithTheHandles(c: Crypto, m: Material) returns (r: Run, k: nat, o: Object)
    requires m.succeeds
    ensures IsRun(c, r) && k < |r.calls| && r.calls[k] == Sign(1, Some([]), 0, 0) && r.replies[k].out.Signature?
    ensures r.states[k].store.issued == TWO28 + 3 && HoldsObject(r.states[k], KEY, o) && !o.canSign
    ensures HandsOver(r.states[k], 1)
    ensures var signed := c.sign(o.key, MECHANISM, [], 0, 0);
            r.replies[k] == Reply(signed.rv, Signature(signed.signature, signed.length))
    ensures forall i: nat, j: nat, mechanism, key, p {:trigger SignedWith(c, r, i, j, k, mechanism, key, p)} ::
      i < j < k ==> !SignedWith(c, r, i, j, k, mechanism, key, p)
  {
    var pub;
    r, pub := VettedRun(c, m);
    var ses := UserSession(Operation(SignOperation, MECHANISM, KEY, true));
    r := Wasted(c, r, ses, pub, TWO28 - 1);
    r, o := TakenOver(c, r, m, ses, pub);
    k := |r.calls|;
    var s := Last(r);
    assert IndexOf(s.store.objects, KEY) == 1;
    r := GrowBy(c, r, Sign(1, Some([]), 0, 0));
    assert HoldsObject(r.states[k], KEY, o);
    forall i: nat, j: nat, mechanism, key, p {:trigger SignedWith(c, r, i, j, k, mechanism, key, p)} | i < j < k
      ensures !SignedWith(c, r, i, j, k, mechanism, key, p)
    {
      NotSignedWith(c, r, i, j, k, mechanism, key, p, ses, o);
    }
  }

  lemma NotSignedWith(c: Crypto, r: Run, i: nat, j: nat, k: nat, mechanism: nat, key: nat, p: Object,
                      ses: Session, o: Object)
    requires i < j < k < |r.calls| == |r.replies| && |r.states| == |r.calls| + 1
    requires r.calls[k] == Sign(1, Some([]), 0, 0)
    requires OneSession(r.states[k], ses) && ses.operation.key == KEY && !o.canSign
    requires TakesKey(r.states[k].store.objects, o)
    ensures !SignedWith(c, r, i, j, k, mechanism, key, p)
  {
    if SignedWith(c, r, i, j, k, mechanism, key, p) {
      OneOperation(r.states[k], ses, Operation(SignOperation, mechanism, key, true));
    }
  }

  lemma OneOperation(s: State, ses: Session, op: Operation)
    requires OneSession(s, ses) && Operates(s, 1, op)
    ensures op == ses.operation
  {
  }
}
