/**
 Key material cannot be read back. Two runs of the same calls whose states differ only in key material, apart
 from the RSA or EC tag, and in the contents of key files, stay that way and give the same replies to every
 call but Sign.
 */
module Independence {
  import opened Common
  import opened Tables
  import opened Objects
  import opened KeyFileNames
  import opened Engine
  import opened Effects
  import opened Runs

  /** Equal in everything but the key, of which only the tag agrees. */
  predicate AlikeObjects(o: Object, p: Object) {
    o.(key := p.key) == p && o.key.Rsa? == p.key.Rsa?
  }

  predicate AlikeCells(a: Cell<Object>, b: Cell<Object>) {
    match (a, b)
    case (Free, Free) => true
    case (Used(h, o), Used(g, p)) => h == g && AlikeObjects(o, p)
    case _ => false
  }

  ghost predicate AlikeTables(t: Table<Object>, u: Table<Object>) {
    |t| == |u| && forall i :: 0 <= i < |t| ==> AlikeCells(t[i], u[i])
  }

  ghost predicate AlikeStores(a: Store, b: Store) {
    AlikeTables(a.objects, b.objects) && a.issued == b.issued && a.keyFiles.Keys == b.keyFiles.Keys
  }

  ghost predicate Alike(s: State, t: State) {
    s.(store := t.store) == t && AlikeStores(s.store, t.store)
  }

  /** The same call, but for the key material a generation happens to draw. */
  predicate AlikeCalls(a: Call, b: Call) {
    if a.GenerateKeyPair? && b.GenerateKeyPair? then
      a.(material := b.material) == b && a.material.succeeds == b.material.succeeds
    else a == b
  }

  // ----- the scans see no difference -----

  lemma {:induction false} AlikeScans(t: Table<Object>, u: Table<Object>)
    requires AlikeTables(t, u)
    ensures Count(t) == Count(u) && Handles(t) == Handles(u)
  {
    if |t| != 0 {
      AlikeScans(t[..|t| - 1], u[..|u| - 1]);
    }
  }

  lemma AlikeLookups(t: Table<Object>, u: Table<Object>, h: nat)
    requires AlikeTables(t, u)
    ensures IndexOf(t, h) == IndexOf(u, h)
  {
    var i, j := IndexOf(t, h), IndexOf(u, h);
    assert i < |t| ==> AlikeCells(t[i], u[i]);
    assert j < |u| ==> AlikeCells(t[j], u[j]);
  }

  lemma AlikeFree(t: Table<Object>, u: Table<Object>, from: nat)
    requires AlikeTables(t, u) && from <= |t|
    ensures FreeFrom(t, from) == FreeFrom(u, from)
  {
    var i, j := FreeFrom(t, from), FreeFrom(u, from);
    assert i < |t| ==> AlikeCells(t[i], u[i]);
    assert j < |u| ==> AlikeCells(t[j], u[j]);
  }

  // ----- object calls -----

  lemma AlikeInserts(a: Store, b: Store, i: nat, kind: nat, o: Object, p: Object)
    requires AlikeStores(a, b) && i < MAX_OBJECTS && AlikeObjects(o, p)
    ensures AlikeStores(InsertObject(a, i, kind, o), InsertObject(b, i, kind, p))
  {
  }

  lemma {:induction false} AlikeAttributeSets(o: Object, p: Object, t: Template)
    requires AlikeObjects(o, p)
    ensures AlikeObjects(SetAttributes(o, t).0, SetAttributes(p, t).0) && SetAttributes(o, t).1 == SetAttributes(p, t).1
    decreases |t|
  {
    if |t| != 0 && t[0].kind == CKA_LABEL {
      AlikeAttributeSets(o.(text := PutLabel(o.text, t[0].value)), p.(text := PutLabel(p.text, t[0].value)), t[1..]);
    }
  }

  /** No attribute tells two alike objects apart: what is read depends on the key's tag at most. */
  lemma AlikeAnswer(o: Object, p: Object, q: ReadableQuery)
    requires AlikeObjects(o, p)
    ensures Answer(o, q) == Answer(p, q)
  {
    assert ValueOf(o, q.kind) == ValueOf(p, q.kind);
  }

  lemma {:induction false} AlikeAnswers(o: Object, p: Object, qs: seq<ReadableQuery>)
    requires AlikeObjects(o, p)
    ensures AnswerAll(o, qs) == AnswerAll(p, qs) && AnswerRv(o, qs) == AnswerRv(p, qs)
  {
    forall i | 0 <= i < |qs| ensures Answer(o, qs[i]) == Answer(p, qs[i]) {
      AlikeAnswer(o, p, qs[i]);
    }
    if |qs| != 0 {
      AlikeAnswers(o, p, qs[..|qs| - 1]);
    }
  }

  lemma AlikeCreates(a: Store, b: Store, t: Template)
    requires AlikeStores(a, b)
    ensures AlikeStores(CreateIn(a, t).store, CreateIn(b, t).store) && CreateIn(a, t).reply == CreateIn(b, t).reply
  {
    AlikeScans(a.objects, b.objects);
    AlikeFree(a.objects, b.objects, 0);
  }

  lemma AlikeDestroys(a: Store, b: Store, target: nat)
    requires AlikeStores(a, b)
    ensures AlikeStores(DestroyIn(a, target).store, DestroyIn(b, target).store)
    ensures DestroyIn(a, target).reply == DestroyIn(b, target).reply
  {
    AlikeLookups(a.objects, b.objects, target);
    var i := IndexOf(a.objects, target);
    assert i < MAX_OBJECTS ==> AlikeCells(a.objects[i], b.objects[i]);
  }

  lemma AlikeRelabels(a: Store, b: Store, target: nat, t: Template)
    requires AlikeStores(a, b)
    ensures AlikeStores(SetAttributesIn(a, target, t).store, SetAttributesIn(b, target, t).store)
    ensures SetAttributesIn(a, target, t).reply == SetAttributesIn(b, target, t).reply
  {
    AlikeLookups(a.objects, b.objects, target);
    var i := IndexOf(a.objects, target);
    if i < MAX_OBJECTS {
      assert AlikeCells(a.objects[i], b.objects[i]);
      AlikeAttributeSets(a.objects[i].item, b.objects[i].item, t);
    }
  }

  lemma PairIsTwoInserts(st: Store, pub: Object, priv: Object, i: nat, j: nat)
    requires i == FreeFrom(st.objects, 0) < MAX_OBJECTS && j == FreeFrom(st.objects, i + 1) < MAX_OBJECTS
    ensures InstallPair(st, pub, priv).store
            == InsertObject(InsertObject(st, i, TYPE_PUBLIC_KEY, pub), j, TYPE_PRIVATE_KEY, priv)
    ensures InstallPair(st, pub, priv).reply
            == Reply(OK, PairHandles(st.issued))
  {
  }

  lemma AlikePairs(a: Store, b: Store, pub: Object, priv: Object, pub': Object, priv': Object)
    requires AlikeStores(a, b) && AlikeObjects(pub, pub') && AlikeObjects(priv, priv')
    ensures AlikeStores(InstallPair(a, pub, priv).store, InstallPair(b, pub', priv').store)
    ensures InstallPair(a, pub, priv).reply == InstallPair(b, pub', priv').reply
  {
    AlikeFree(a.objects, b.objects, 0);
    var i := FreeFrom(a.objects, 0);
    if i < MAX_OBJECTS {
      AlikeFree(a.objects, b.objects, i + 1);
      var j := FreeFrom(a.objects, i + 1);
      if j < MAX_OBJECTS {
        PairIsTwoInserts(a, pub, priv, i, j);
        PairIsTwoInserts(b, pub', priv', i, j);
        AlikeTwoInserts(a, b, i, j, pub, priv, pub', priv');
      }
    }
  }

  lemma AlikeTwoInserts(a: Store, b: Store, i: nat, j: nat, pub: Object, priv: Object, pub': Object, priv': Object)
    requires AlikeStores(a, b) && AlikeObjects(pub, pub') && AlikeObjects(priv, priv') && i < j < MAX_OBJECTS
    ensures AlikeStores(InsertObject(InsertObject(a, i, TYPE_PUBLIC_KEY, pub), j, TYPE_PRIVATE_KEY, priv),
                        InsertObject(InsertObject(b, i, TYPE_PUBLIC_KEY, pub'), j, TYPE_PRIVATE_KEY, priv'))
  {
    AlikeInserts(a, b, i, TYPE_PUBLIC_KEY, pub, pub');
    AlikeInserts(InsertObject(a, i, TYPE_PUBLIC_KEY, pub), InsertObject(b, i, TYPE_PUBLIC_KEY, pub'),
                 j, TYPE_PRIVATE_KEY, priv, priv');
  }

  lemma AlikeGenerates(a: Store, b: Store, mechanism: nat, pubT: Template, privT: Template, m: Material, n: Material)
    requires AlikeStores(a, b) && m.succeeds == n.succeeds
    ensures AlikeStores(PairGenerated(a, mechanism, pubT, privT, m).store,
                        PairGenerated(b, mechanism, pubT, privT, n).store)
    ensures PairGenerated(a, mechanism, pubT, privT, m).reply == PairGenerated(b, mechanism, pubT, privT, n).reply
  {
    var g, h := Generate(mechanism, pubT, m), Generate(mechanism, pubT, n);
    if g.Keys? {
      AlikePairs(a, b, PublicHalf(pubT, g.publicKey), PrivateHalf(privT, g.privateKey),
                 PublicHalf(pubT, h.publicKey), PrivateHalf(privT, h.privateKey));
    }
  }

  // ----- one call -----

  /** Alike states, and the same reply unless the call is Sign. Over a copy, so that `AlikeStep` does not open it. */
  ghost predicate AlikeOutcomes(signs: bool, x: Outcome, y: Outcome) {
    forall o :: o == x ==> Alike(o.state, y.state) && (signs || o.reply == y.reply)
  }

  ghost predicate Same(x: Outcome, y: Outcome) {
    AlikeOutcomes(false, x, y)
  }

  lemma AlikeSessions(s: State, t: State, h: nat)
    requires Alike(s, t)
    ensures GetSession(s, h) == GetSession(t, h)
  {
  }

  lemma AlikeKeyLookup(s: State, t: State, key: nat)
    requires Alike(s, t)
    ensures GetObject(s.store, key) == GetObject(t.store, key)
    ensures var r := GetObject(s.store, key);
            r.At? ==> AlikeObjects(s.store.objects[r.i].item, t.store.objects[r.i].item)
  {
    AlikeLookups(s.store.objects, t.store.objects, key);
    var i := IndexOf(s.store.objects, key);
    assert i < MAX_OBJECTS ==> AlikeCells(s.store.objects[i], t.store.objects[i]);
  }

  lemma AlikeCreate(s: State, t: State, h: nat, template: Option<Template>)
    requires Alike(s, t)
    ensures Same(CreateObjectStep(s, h, template), CreateObjectStep(t, h, template))
  {
    AlikeSessions(s, t, h);
    if template.Some? {
      AlikeCreates(s.store, t.store, template.value);
    }
  }

  lemma AlikeDestroy(s: State, t: State, h: nat, target: nat)
    requires Alike(s, t)
    ensures Same(DestroyObjectStep(s, h, target), DestroyObjectStep(t, h, target))
  {
    AlikeSessions(s, t, h);
    AlikeDestroys(s.store, t.store, target);
  }

  lemma AlikeRelabel(s: State, t: State, h: nat, target: nat, template: Option<Template>)
    requires Alike(s, t)
    ensures Same(SetAttributeStep(s, h, target, template), SetAttributeStep(t, h, target, template))
  {
    AlikeSessions(s, t, h);
    if template.Some? {
      AlikeRelabels(s.store, t.store, target, template.value);
    }
  }

  lemma AlikeRead(s: State, t: State, h: nat, target: nat, queries: Option<seq<ReadableQuery>>)
    requires Alike(s, t)
    ensures Same(GetAttributesStep(s, h, target, queries), GetAttributesStep(t, h, target, queries))
  {
    AlikeSessions(s, t, h);
    AlikeKeyLookup(s, t, target);
    var r := GetObject(s.store, target);
    if r.At? && queries.Some? {
      AlikeAnswers(s.store.objects[r.i].item, t.store.objects[r.i].item, queries.value);
    }
  }

  lemma AlikeGenerate(s: State, t: State, h: nat, mechanism: nat, pubT: Template, privT: Template,
                      m: Material, n: Material)
    requires Alike(s, t) && m.succeeds == n.succeeds
    ensures Same(GenerateKeyPairStep(s, h, mechanism, pubT, privT, m),
                 GenerateKeyPairStep(t, h, mechanism, pubT, privT, n))
  {
    AlikeSessions(s, t, h);
    AlikeGenerates(s.store, t.store, mechanism, pubT, privT, m, n);
  }

  lemma AlikeSignInit(s: State, t: State, h: nat, mechanism: nat, key: nat)
    requires Alike(s, t)
    ensures Same(SignInitStep(s, h, mechanism, key), SignInitStep(t, h, mechanism, key))
  {
    AlikeSessions(s, t, h);
    AlikeKeyLookup(s, t, key);
  }

  lemma AlikeVerifyInit(s: State, t: State, h: nat, mechanism: nat, key: nat)
    requires Alike(s, t)
    ensures Same(VerifyInitStep(s, h, mechanism, key), VerifyInitStep(t, h, mechanism, key))
  {
    AlikeSessions(s, t, h);
    AlikeKeyLookup(s, t, key);
  }

  /** Signing looks the key up, and the state it leaves does not depend on what the key is. */
  lemma AlikeSign(c: Crypto, s: State, t: State, h: nat, data: Option<Bytes>, room: nat, nonce: nat)
    requires Alike(s, t)
    ensures AlikeOutcomes(true, SignStep(c, s, h, data, room, nonce), SignStep(c, t, h, data, room, nonce))
  {
    AlikeSessions(s, t, h);
    if GetSession(s, h).At? {
      AlikeKeyLookup(s, t, s.sessions[GetSession(s, h).i].item.operation.key);
    }
  }

  lemma AlikeVerify(s: State, t: State, h: nat, data: Option<Bytes>, signature: Option<Bytes>)
    requires Alike(s, t)
    ensures Same(VerifyStep(s, h, data, signature), VerifyStep(t, h, data, signature))
  {
    AlikeSessions(s, t, h);
    if GetSession(s, h).At? {
      AlikeKeyLookup(s, t, s.sessions[GetSession(s, h).i].item.operation.key);
    }
  }

  lemma AlikeFindInit(s: State, t: State, h: nat)
    requires Alike(s, t)
    ensures Same(FindInitStep(s, h), FindInitStep(t, h))
  {
    AlikeScans(s.store.objects, t.store.objects);
  }

  // The other calls do not look at objects, or forget them.

  lemma AlikeStarts(s: State, t: State, reserved: bool)
    requires Alike(s, t)
    ensures Same(InitializeStep(s), InitializeStep(t)) && Same(FinalizeStep(s, reserved), FinalizeStep(t, reserved))
  {
  }

  lemma AlikeInitPins(c: Crypto, s: State, t: State, h: nat, pin: Option<Bytes>, slot: nat, name: Option<Block>)
    requires Alike(s, t)
    ensures Same(InitTokenStep(c, s, slot, pin, name), InitTokenStep(c, t, slot, pin, name))
    ensures Same(InitPinStep(c, s, h, pin), InitPinStep(c, t, h, pin))
  {
  }

  lemma AlikeSetPin(c: Crypto, s: State, t: State, h: nat, oldPin: Option<Bytes>, newPin: Option<Bytes>)
    requires Alike(s, t)
    ensures Same(SetPinStep(c, s, h, oldPin, newPin), SetPinStep(c, t, h, oldPin, newPin))
  {
  }

  lemma AlikeLogin(c: Crypto, s: State, t: State, h: nat, userType: nat, pin: Option<Bytes>)
    requires Alike(s, t)
    ensures Same(LoginStep(c, s, h, userType, pin), LoginStep(c, t, h, userType, pin))
    ensures Same(LogoutStep(s, h), LogoutStep(t, h))
  {
  }

  lemma AlikeTableCalls(s: State, t: State, h: nat, slot: nat, flags: nat)
    requires Alike(s, t)
    ensures Same(OpenSessionStep(s, slot, flags), OpenSessionStep(t, slot, flags))
    ensures Same(CloseSessionStep(s, h), CloseSessionStep(t, h))
    ensures Same(CloseAllStep(s, slot), CloseAllStep(t, slot))
    ensures Same(GetSessionInfoStep(s, h), GetSessionInfoStep(t, h))
  {
  }

  lemma AlikeFinds(s: State, t: State, h: nat, max: nat)
    requires Alike(s, t)
    ensures Same(FindNextStep(s, h, max), FindNextStep(t, h, max)) && Same(FindFinalStep(s, h), FindFinalStep(t, h))
  {
  }

  predicate SeesObjects(call: Call) {
    call.CreateObject? || call.DestroyObject? || call.GetAttributes? || call.SetAttribute? || call.GenerateKeyPair? ||
    call.FindInit?
  }

  predicate UsesKey(call: Call) {
    call.SignInit? || call.Sign? || call.VerifyInit? || call.Verify?
  }

  lemma AlikeSeeing(c: Crypto, s: State, t: State, a: Call, b: Call)
    requires Alike(s, t) && AlikeCalls(a, b) && SeesObjects(a)
    ensures Same(Step(c, s, a), Step(c, t, b))
  {
    match a {
      case CreateObject(h, template) => AlikeCreate(s, t, h, template);
      case DestroyObject(h, target) => AlikeDestroy(s, t, h, target);
      case GetAttributes(h, target, queries) => AlikeRead(s, t, h, target, queries);
      case SetAttribute(h, target, template) => AlikeRelabel(s, t, h, target, template);
      case GenerateKeyPair(h, mechanism, pubT, privT, m) =>
        AlikeGenerate(s, t, h, mechanism, pubT, privT, m, b.material);
      case FindInit(h) => AlikeFindInit(s, t, h);
    }
  }

  lemma AlikeUsing(c: Crypto, s: State, t: State, call: Call)
    requires Alike(s, t) && UsesKey(call)
    ensures AlikeOutcomes(call.Sign?, Step(c, s, call), Step(c, t, call))
  {
    match call {
      case SignInit(h, mechanism, key) => AlikeSignInit(s, t, h, mechanism, key);
      case Sign(h, data, room, nonce) => AlikeSign(c, s, t, h, data, room, nonce);
      case VerifyInit(h, mechanism, key) => AlikeVerifyInit(s, t, h, mechanism, key);
      case Verify(h, data, signature) => AlikeVerify(s, t, h, data, signature);
    }
  }

  lemma AlikeBlind(c: Crypto, s: State, t: State, call: Call)
    requires Alike(s, t) && !SeesObjects(call) && !UsesKey(call)
    ensures Same(Step(c, s, call), Step(c, t, call))
  {
    match call {
      case Initialize => AlikeStarts(s, t, false);
      case Finalize(reserved) => AlikeStarts(s, t, reserved);
      case InitToken(slot, pin, name) => AlikeInitPins(c, s, t, 0, pin, slot, name);
      case InitPin(h, pin) => AlikeInitPins(c, s, t, h, pin, 0, None);
      case SetPin(h, oldPin, newPin) => AlikeSetPin(c, s, t, h, oldPin, newPin);
      case Login(h, userType, pin) => AlikeLogin(c, s, t, h, userType, pin);
      case Logout(h) => AlikeLogin(c, s, t, h, 0, None);
      case OpenSession(slot, flags) => AlikeTableCalls(s, t, 0, slot, flags);
      case CloseSession(h) => AlikeTableCalls(s, t, h, 0, 0);
      case CloseAllSessions(slot) => AlikeTableCalls(s, t, 0, slot, 0);
      case GetSessionInfo(h) => AlikeTableCalls(s, t, h, 0, 0);
      case FindNext(h, max) => AlikeFinds(s, t, h, max);
      case FindFinal(h) => AlikeFinds(s, t, h, 0);
    }
  }

  lemma AlikeStep(c: Crypto, s: State, t: State, a: Call, b: Call)
    requires Alike(s, t) && AlikeCalls(a, b)
    ensures AlikeOutcomes(a.Sign?, Step(c, s, a), Step(c, t, b))
  {
    if SeesObjects(a) {
      AlikeSeeing(c, s, t, a, b);
    } else if UsesKey(a) {
      AlikeUsing(c, s, t, a);
    } else {
      AlikeBlind(c, s, t, a);
    }
  }

  // ----- runs -----

  /** Two runs of the same calls, each with key material of its own. */
  ghost predicate AlikeRuns(c: Crypto, r: Run, q: Run) {
    && IsRun(c, r) && IsRun(c, q) && |r.calls| == |q.calls| && Alike(r.states[0], q.states[0])
    && forall k :: 0 <= k < |r.calls| ==> AlikeCalls(r.calls[k], q.calls[k])
  }

  /** In two such runs every reply but those to Sign is the same, and the states stay alike throughout. */
  lemma {:induction false} KeyMaterialUnobservable(c: Crypto, r: Run, q: Run, k: nat)
    requires AlikeRuns(c, r, q) && k <= |r.calls|
    ensures Alike(r.states[k], q.states[k])
    ensures forall m :: 0 <= m < k && !r.calls[m].Sign? ==> r.replies[m] == q.replies[m]
  {
    if k != 0 {
      KeyMaterialUnobservable(c, r, q, k - 1);
      assert StepAt(c, r, k - 1) && StepAt(c, q, k - 1);
      assert AlikeCalls(r.calls[k - 1], q.calls[k - 1]);
      AlikeStep(c, r.states[k - 1], q.states[k - 1], r.calls[k - 1], q.calls[k - 1]);
    }
  }

  /** Whatever templates were passed, every live object of every run is sensitive and not extractable. */
  lemma EveryObjectStaysSecret(c: Crypto, r: Run, k: nat, i: nat)
    requires IsRun(c, r) && k <= |r.calls| && i < MAX_OBJECTS && r.states[k].store.objects[i].Used?
    ensures var o := r.states[k].store.objects[i].item; o.isSensitive && !o.isExtractable
  {
    RunSound(c, r, k);
  }
}
