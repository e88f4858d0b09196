/**
 What one call can do to each part of the state, read off `Step` once: the session table, the object
 store, and the token fields. The theorems about runs reason about these effects only.
 */
module Effects {
  import opened Common
  import opened Tables
  import opened Objects
  import opened Engine

  // ----- which calls touch what -----

  predicate TouchesStore(call: Call) {
    call.Initialize? || call.Finalize? || call.CreateObject? || call.DestroyObject? || call.SetAttribute? ||
    call.GenerateKeyPair?
  }

  /** The calls that change the one session they name. */
  predicate MovesSession(call: Call) {
    call.Login? || call.Logout? || call.FindInit? || call.FindNext? || call.FindFinal? ||
    call.SignInit? || call.Sign? || call.VerifyInit? || call.Verify?
  }

  // ----- sessions -----

  function RoleOf(userType: nat): Role {
    if userType == CKU_SO then SecurityOfficer else User
  }

  /** The object a SignInit accepts: a live private key that may sign. */
  ghost predicate Vetted(st: Store, key: nat) {
    GetObject(st, key).At? &&
    var o := st.objects[GetObject(st, key).i].item;
    o.kind == TYPE_PRIVATE_KEY && o.canSign
  }

  /** The calls and replies that go with a change to the session table. */
  predicate ChangesSessions(call: Call, reply: Reply) {
    match call
    case Initialize => reply.rv == OK
    case Finalize(_) => reply.rv == OK
    case OpenSession(_, _) => reply.rv == OK
    case CloseSession(_) => reply.rv == OK
    case Sign(_, _, _, _) => reply.out.Signature? || reply.rv == ObjectHandleInvalid
    case Verify(_, _, _) => reply.rv == FunctionNotSupported || reply.rv == ObjectHandleInvalid
    case _ => MovesSession(call) && reply.rv == OK
  }

  /** The transitions of the session a call names, and what the call replies with them. */
  ghost predicate Moves(s: State, call: Call, reply: Reply, was: Session, now: Session) {
    match call
    case Login(_, userType, pin) =>
      && pin.Some? && userType in {CKU_SO, CKU_USER} && !was.user && !was.so && (userType == CKU_SO ==> was.readWrite)
      && now == LoggedIn(was, RoleOf(userType))
    case Logout(_) => (was.user || was.so) && now == LoggedOut(was)
    case FindInit(_) => !was.find.active && now == was.(find := FindStarted(was.find, s.store.objects))
    case FindNext(_, max) =>
      var f := was.find;
      var n := Min(max, f.count - f.index);
      f.active && now == was.(find := f.(index := f.index + n)) && reply.out == Found(f.results[f.index..f.index + n])
    case FindFinal(_) => was.find.active && now == was.(find := FindEnded(was.find))
    case SignInit(_, mechanism, key) =>
      && !was.operation.active && Vetted(s.store, key) && mechanism in SUPPORTED
      && now == was.(operation := Operation(SignOperation, mechanism, key, true))
    case Sign(_, data, _, _) =>
      && data.Some? && was.operation.active && was.operation.kind == SignOperation
      && now == if reply.out.Signature? then Ended(was) else Aborted(was)
    case VerifyInit(_, mechanism, key) =>
      !was.operation.active && now == was.(operation := Operation(VerifyOperation, mechanism, key, true))
    case Verify(_, data, signature) =>
      && data.Some? && signature.Some? && was.operation.active && was.operation.kind == VerifyOperation
      && now == if reply.rv == FunctionNotSupported then Ended(was) else Aborted(was)
    case _ => false
  }

  datatype SessionEffect =
    | SessionsSame
    | Moved(i: nat, ses: Session)
    | Opened(i: nat, readWrite: bool)
    | Closed(i: nat)
    | SessionsCleared

  /** The effect a call has, told by its reply: one of the five, and `SessionsSame` only with a refusal. */
  ghost predicate SessionEffectIs(s: State, call: Call, reply: Reply, e: SessionEffect) {
    && (e.SessionsSame? <==> !ChangesSessions(call, reply))
    && match e
       case SessionsSame => true
       case Moved(i, ses) =>
         MovesSession(call) && GetSession(s, call.session) == At(i) && Moves(s, call, reply, s.sessions[i].item, ses)
       case Opened(i, readWrite) =>
         && call.OpenSession? && s.up && call.slot < 1 && HasFlag(call.flags, CKF_SERIAL_SESSION)
         && i == FreeFrom(s.sessions, 0) < MAX_SESSIONS && readWrite == HasFlag(call.flags, CKF_RW_SESSION)
         && reply == Reply(OK, Handle(SessionHandle(s.sessionsIssued)))
       case Closed(i) => call.CloseSession? && GetSession(s, call.session) == At(i)
       case SessionsCleared => (call.Initialize? && !s.up) || (call.Finalize? && !call.reserved && s.up)
  }

  /** The cells an effect speaks of are there. */
  predicate SessionsInRange(s: State, e: SessionEffect) {
    match e
    case Moved(i, _) => i < MAX_SESSIONS && s.sessions[i].Used?
    case Opened(i, _) => i < MAX_SESSIONS
    case Closed(i) => i < MAX_SESSIONS
    case _ => true
  }

  // Quantified over a copy, so that the lemmas about runs carry it along unopened.
  ghost predicate SessionEffectOk(s: State, call: Call, reply: Reply, e: SessionEffect) {
    SessionsInRange(s, e) && forall f :: f == e ==> SessionEffectIs(s, call, reply, f)
  }

  ghost predicate SessionsAfter(s: State, e: SessionEffect, after: State)
    requires SessionsInRange(s, e)
  {
    match e
    case SessionsSame => after.sessions == s.sessions && after.sessionsIssued == s.sessionsIssued
    case Moved(i, ses) => after.sessions == SetItem(s.sessions, i, ses) && after.sessionsIssued == s.sessionsIssued
    case Opened(i, readWrite) =>
      && after.sessions == s.sessions[i := Used(SessionHandle(s.sessionsIssued), FreshSession(readWrite))]
      && after.sessionsIssued == s.sessionsIssued + 1
    case Closed(i) => after.sessions == s.sessions[i := Free] && after.sessionsIssued == s.sessionsIssued
    case SessionsCleared => AllFree(after.sessions) && after.sessionsIssued == s.sessionsIssued
  }

  /** The effect of a call that moves the session it names, if it moves it. */
  ghost function MoveOf(s: State, call: Call, outcome: Outcome): SessionEffect
    requires MovesSession(call)
  {
    if !ChangesSessions(call, outcome.reply) || GetSession(s, call.session).Missing? then SessionsSame
    else
      var i := GetSession(s, call.session).i;
      if outcome.state.sessions[i].Used? then Moved(i, outcome.state.sessions[i].item) else SessionsSame
  }

  /** The call leaves everything but the session table alone, and a login the PINs. */
  predicate KeepsOthers(s: State, call: Call, after: State) {
    after.up == s.up && after.store == s.store && (!call.Login? ==> after.auth == s.auth)
  }

  // Quantified over a copy, so that `MovedByCall` carries it along unopened.
  ghost predicate MovesOnly(s: State, call: Call, o: Outcome, e: SessionEffect) {
    forall x :: x == o ==>
      SessionEffectOk(s, call, x.reply, e) && SessionsAfter(s, e, x.state) && KeepsOthers(s, call, x.state)
  }

  lemma LoginMoves(c: Crypto, s: State, h: nat, userType: nat, pin: Option<Bytes>) returns (e: SessionEffect)
    ensures MovesOnly(s, Login(h, userType, pin), LoginStep(c, s, h, userType, pin), e)
  {
    e := MoveOf(s, Login(h, userType, pin), LoginStep(c, s, h, userType, pin));
  }

  lemma LogoutMoves(s: State, h: nat) returns (e: SessionEffect)
    ensures MovesOnly(s, Logout(h), LogoutStep(s, h), e)
  {
    e := MoveOf(s, Logout(h), LogoutStep(s, h));
  }

  lemma FindInitMoves(s: State, h: nat) returns (e: SessionEffect)
    ensures MovesOnly(s, FindInit(h), FindInitStep(s, h), e)
  {
    e := MoveOf(s, FindInit(h), FindInitStep(s, h));
  }

  lemma FindNextMoves(s: State, h: nat, max: nat) returns (e: SessionEffect)
    ensures MovesOnly(s, FindNext(h, max), FindNextStep(s, h, max), e)
  {
    e := MoveOf(s, FindNext(h, max), FindNextStep(s, h, max));
  }

  lemma FindFinalMoves(s: State, h: nat) returns (e: SessionEffect)
    ensures MovesOnly(s, FindFinal(h), FindFinalStep(s, h), e)
  {
    e := MoveOf(s, FindFinal(h), FindFinalStep(s, h));
  }

  lemma SignInitMoves(s: State, h: nat, mechanism: nat, key: nat) returns (e: SessionEffect)
    ensures MovesOnly(s, SignInit(h, mechanism, key), SignInitStep(s, h, mechanism, key), e)
  {
    e := MoveOf(s, SignInit(h, mechanism, key), SignInitStep(s, h, mechanism, key));
  }

  lemma SignFoundMoves(c: Crypto, s: State, h: nat, data: Bytes, room: nat, nonce: nat) returns (e: SessionEffect)
    requires GetSession(s, h).At?
    ensures MovesOnly(s, Sign(h, Some(data), room, nonce), SignFound(c, s, GetSession(s, h).i, data, room, nonce), e)
  {
    e := MoveOf(s, Sign(h, Some(data), room, nonce), SignFound(c, s, GetSession(s, h).i, data, room, nonce));
  }

  lemma SignMoves(c: Crypto, s: State, h: nat, data: Option<Bytes>, room: nat, nonce: nat) returns (e: SessionEffect)
    ensures MovesOnly(s, Sign(h, data, room, nonce), SignStep(c, s, h, data, room, nonce), e)
  {
    if data.Some? && GetSession(s, h).At? {
      e := SignFoundMoves(c, s, h, data.value, room, nonce);
    } else {
      e := SessionsSame;
    }
  }

  lemma VerifyInitMoves(s: State, h: nat, mechanism: nat, key: nat) returns (e: SessionEffect)
    ensures MovesOnly(s, VerifyInit(h, mechanism, key), VerifyInitStep(s, h, mechanism, key), e)
  {
    e := MoveOf(s, VerifyInit(h, mechanism, key), VerifyInitStep(s, h, mechanism, key));
  }

  lemma VerifyMoves(s: State, h: nat, data: Option<Bytes>, signature: Option<Bytes>) returns (e: SessionEffect)
    ensures MovesOnly(s, Verify(h, data, signature), VerifyStep(s, h, data, signature), e)
  {
    e := MoveOf(s, Verify(h, data, signature), VerifyStep(s, h, data, signature));
  }

  lemma MovedByCall(c: Crypto, s: State, call: Call, after: State, reply: Reply) returns (e: SessionEffect)
    requires Makes(c, s, call, after, reply) && MovesSession(call)
    ensures SessionEffectOk(s, call, reply, e) && SessionsAfter(s, e, after) && KeepsOthers(s, call, after)
  {
    var o := Step(c, s, call);
    match call {
      case Login(h, userType, pin) => e := LoginMoves(c, s, h, userType, pin);
      case Logout(h) => e := LogoutMoves(s, h);
      case FindInit(h) => e := FindInitMoves(s, h);
      case FindNext(h, max) => e := FindNextMoves(s, h, max);
      case FindFinal(h) => e := FindFinalMoves(s, h);
      case SignInit(h, mechanism, key) => e := SignInitMoves(s, h, mechanism, key);
      case Sign(h, data, room, nonce) => e := SignMoves(c, s, h, data, room, nonce);
      case VerifyInit(h, mechanism, key) => e := VerifyInitMoves(s, h, mechanism, key);
      case Verify(h, data, signature) => e := VerifyMoves(s, h, data, signature);
    }
    assert MovesOnly(s, call, o, e) && o == Outcome(after, reply);
  }

  lemma OpenEffect(s: State, slot: nat, flags: nat) returns (e: SessionEffect)
    ensures var Outcome(after, reply) := OpenSessionStep(s, slot, flags);
            SessionEffectOk(s, OpenSession(slot, flags), reply, e) && SessionsAfter(s, e, after)
  {
    FreeCellExists(s.sessions);
    e := if OpenSessionStep(s, slot, flags).reply.rv != OK then SessionsSame
         else Opened(FreeFrom(s.sessions, 0), HasFlag(flags, CKF_RW_SESSION));
  }

  lemma CloseEffect(s: State, h: nat) returns (e: SessionEffect)
    ensures var Outcome(after, reply) := CloseSessionStep(s, h);
            SessionEffectOk(s, CloseSession(h), reply, e) && SessionsAfter(s, e, after)
  {
    e := if GetSession(s, h).At? then Closed(GetSession(s, h).i) else SessionsSame;
  }

  lemma OtherSessionCalls(c: Crypto, s: State, call: Call, after: State, reply: Reply) returns (e: SessionEffect)
    requires Makes(c, s, call, after, reply) && !MovesSession(call) && !call.OpenSession? && !call.CloseSession?
    ensures SessionEffectOk(s, call, reply, e) && SessionsAfter(s, e, after)
  {
    assert Step(c, s, call) == Outcome(after, reply);
    e := if (call.Initialize? && !s.up) || (call.Finalize? && s.up && !call.reserved) then SessionsCleared
         else SessionsSame;
  }

  /** Every call has one of the five effects on the session table. */
  lemma SessionEffectOf(c: Crypto, s: State, call: Call, after: State, reply: Reply) returns (e: SessionEffect)
    requires Makes(c, s, call, after, reply)
    ensures SessionEffectOk(s, call, reply, e) && SessionsAfter(s, e, after)
  {
    if MovesSession(call) {
      e := MovedByCall(c, s, call, after, reply);
    } else if call.OpenSession? {
      assert Step(c, s, call) == Outcome(after, reply);
      e := OpenEffect(s, call.slot, call.flags);
    } else if call.CloseSession? {
      assert Step(c, s, call) == Outcome(after, reply);
      e := CloseEffect(s, call.session);
    } else {
      e := OtherSessionCalls(c, s, call, after, reply);
    }
  }

  /** `up` changes at Initialize and Finalize only. */
  lemma UntouchedUp(c: Crypto, s: State, call: Call, after: State, reply: Reply)
    requires Makes(c, s, call, after, reply) && !call.Initialize? && !call.Finalize?
    ensures after.up == s.up
  {
    if MovesSession(call) {
      var e := MovedByCall(c, s, call, after, reply);
    } else {
      assert Step(c, s, call) == Outcome(after, reply);
    }
  }

  // ----- the object store -----

  datatype StoreEffect =
    | StoreSame
    | Inserted(i: nat, o: Object)
    | Paired(i: nat, j: nat, pub: Object, priv: Object)
    | Removed(i: nat)
    | Relabelled(i: nat, o: Object)
    | StoreCleared

  /** The calls and replies that go with a change to the object store. */
  predicate ChangesStore(call: Call, reply: Reply) {
    match call
    case Initialize => reply.rv == OK
    case Finalize(_) => reply.rv == OK
    case CreateObject(_, _) => reply.rv == OK
    case DestroyObject(_, _) => reply.rv == OK
    case GenerateKeyPair(_, _, _, _, _) => reply.rv == OK
    case SetAttribute(_, _, _) => reply.rv == OK || reply.rv == AttributeReadOnly
    case _ => false
  }

  /** The session a call names is open and its user is logged in. */
  ghost predicate UserOn(s: State, h: nat) {
    GetSession(s, h).At? && s.sessions[GetSession(s, h).i].item.user
  }

  /** The two objects are the halves `C_GenerateKeyPair` makes from its templates and its key material. */
  ghost predicate HalvesOf(call: Call, pub: Object, priv: Object) {
    && call.GenerateKeyPair? && Generate(call.mechanism, call.publicTemplate, call.material).Keys?
    && var g := Generate(call.mechanism, call.publicTemplate, call.material);
       pub == PublicHalf(call.publicTemplate, g.publicKey) && priv == PrivateHalf(call.privateTemplate, g.privateKey)
  }

  /** The object `C_CreateObject` makes from its template. */
  function ParsedObject(t: Template): Object {
    ParseTemplate(Blank(TYPE_DATA, false, false), t)
  }

  /** The effect a call has, told by its reply: one of the six, and `StoreSame` only when nothing was reached. */
  ghost predicate StoreEffectIs(s: State, call: Call, reply: Reply, e: StoreEffect) {
    var st := s.store;
    && (e.StoreSame? <==> !ChangesStore(call, reply))
    && match e
       case StoreSame => true
       case Inserted(i, o) =>
         && call.CreateObject? && call.template.Some? && GetSession(s, call.session).At?
         && i == FreeFrom(st.objects, 0) < MAX_OBJECTS && o == ParsedObject(call.template.value)
         && reply == Reply(OK, Handle(ObjectHandle(o.kind, st.issued)))
       case Paired(i, j, pub, priv) =>
         && HalvesOf(call, pub, priv) && UserOn(s, call.session)
         && i == FreeFrom(st.objects, 0) < MAX_OBJECTS && j == FreeFrom(st.objects, i + 1) < MAX_OBJECTS
         && reply == Reply(OK, PairHandles(st.issued))
       case Removed(i) => call.DestroyObject? && GetSession(s, call.session).At? && GetObject(st, call.target) == At(i)
       case Relabelled(i, o) =>
         && call.SetAttribute? && call.template.Some? && GetSession(s, call.session).At?
         && GetObject(st, call.target) == At(i)
         && (o, reply.rv) == SetAttributes(st.objects[i].item, call.template.value)
       case StoreCleared => (call.Initialize? && !s.up) || (call.Finalize? && !call.reserved && s.up)
  }

  /** The cells an effect speaks of are there. */
  predicate StoreInRange(st: Store, e: StoreEffect) {
    match e
    case Inserted(i, _) => i < MAX_OBJECTS
    case Paired(i, j, _, _) => i < j < MAX_OBJECTS
    case Removed(i) => i < MAX_OBJECTS && st.objects[i].Used?
    case Relabelled(i, _) => i < MAX_OBJECTS && st.objects[i].Used?
    case _ => true
  }

  // Quantified over a copy, so that the lemmas about runs carry it along unopened.
  ghost predicate StoreEffectOk(s: State, call: Call, reply: Reply, e: StoreEffect) {
    StoreInRange(s.store, e) && forall f :: f == e ==> StoreEffectIs(s, call, reply, f)
  }

  ghost function StoreAfter(st: Store, e: StoreEffect): Store
    requires StoreInRange(st, e)
  {
    match e
    case StoreSame => st
    case Inserted(i, o) => InsertObject(st, i, o.kind, o)
    case Paired(i, j, pub, priv) =>
      InsertObject(InsertObject(st, i, TYPE_PUBLIC_KEY, pub), j, TYPE_PRIVATE_KEY, priv)
    case Removed(i) =>
      st.(objects := st.objects[i := Free],
          keyFiles := DeleteObject(st.keyFiles, st.objects[i].handle, st.objects[i].item))
    case Relabelled(i, o) => st.(objects := SetItem(st.objects, i, o))
    case StoreCleared => st.(objects := NoObjects())
  }

  /** One object under the next handle, with its file if it is a token object. */
  ghost function InsertObject(st: Store, i: nat, kind: nat, o: Object): Store
    requires i < MAX_OBJECTS
  {
    var h := ObjectHandle(kind, st.issued);
    Store(st.objects[i := Used(h, o)], st.issued + 1, SaveObject(st.keyFiles, h, o))
  }

  lemma CreateEffect(s: State, h: nat, template: Option<Template>) returns (e: StoreEffect)
    ensures var Outcome(after, reply) := CreateObjectStep(s, h, template);
            StoreEffectOk(s, CreateObject(h, template), reply, e) && after.store == StoreAfter(s.store, e)
  {
    e := StoreSame;
    if CreateObjectStep(s, h, template).reply.rv == OK {
      FreeCellExists(s.store.objects);
      e := Inserted(FreeFrom(s.store.objects, 0), ParsedObject(template.value));
      InsertedFits(s, h, template.value, e);
    }
  }

  lemma InsertedFits(s: State, h: nat, t: Template, e: StoreEffect)
    requires GetSession(s, h).At? && e == Inserted(FreeFrom(s.store.objects, 0), ParsedObject(t)) && e.i < MAX_OBJECTS
    ensures StoreEffectOk(s, CreateObject(h, Some(t)), Reply(OK, Handle(ObjectHandle(e.o.kind, s.store.issued))), e)
  {
  }

  lemma PairEffect(st: Store, pub: Object, priv: Object) returns (e: StoreEffect)
    ensures var r := InstallPair(st, pub, priv);
            && (if r.reply.rv == OK then
                  && e.Paired? && e.pub == pub && e.priv == priv
                  && e.i == FreeFrom(st.objects, 0) < MAX_OBJECTS && e.j == FreeFrom(st.objects, e.i + 1) < MAX_OBJECTS
                  && r.reply.out == PairHandles(st.issued)
                else e.StoreSame?)
            && r.store == StoreAfter(st, e)
  {
    e := StoreSame;
    if InstallPair(st, pub, priv).reply.rv == OK {
      var a := FreeFrom(st.objects, 0);
      e := Paired(a, FreeFrom(st.objects, a + 1), pub, priv);
    }
  }

  lemma InstallEffect(s: State, call: Call, after: Store, reply: Reply) returns (e: StoreEffect)
    requires call.GenerateKeyPair?
    requires var g := Generate(call.mechanism, call.publicTemplate, call.material);
             if UserOn(s, call.session) && g.Keys? then
               Stored(after, reply) == InstallPair(s.store, PublicHalf(call.publicTemplate, g.publicKey),
                                                   PrivateHalf(call.privateTemplate, g.privateKey))
             else reply.rv != OK && after == s.store
    ensures StoreEffectOk(s, call, reply, e) && after == StoreAfter(s.store, e)
  {
    e := StoreSame;
    var g := Generate(call.mechanism, call.publicTemplate, call.material);
    if UserOn(s, call.session) && g.Keys? {
      e := PairEffect(s.store, PublicHalf(call.publicTemplate, g.publicKey),
                      PrivateHalf(call.privateTemplate, g.privateKey));
      PairedFits(s, call, reply, e);
    }
  }

  lemma PairedFits(s: State, call: Call, reply: Reply, e: StoreEffect)
    requires call.GenerateKeyPair? && UserOn(s, call.session)
    requires reply.rv != OK ==> e.StoreSame?
    requires reply.rv == OK ==>
      && e.Paired? && HalvesOf(call, e.pub, e.priv)
      && e.i == FreeFrom(s.store.objects, 0) < MAX_OBJECTS && e.j == FreeFrom(s.store.objects, e.i + 1) < MAX_OBJECTS
      && reply.out == PairHandles(s.store.issued)
    ensures StoreEffectOk(s, call, reply, e)
  {
  }

  /** Once the checks have passed, generating is installing the two halves; otherwise it is refused. */
  lemma GenerateIsInstall(c: Crypto, s: State, call: Call, after: State, reply: Reply)
    requires Makes(c, s, call, after, reply) && call.GenerateKeyPair?
    ensures var g := Generate(call.mechanism, call.publicTemplate, call.material);
            if UserOn(s, call.session) && g.Keys? then
              Stored(after.store, reply) == InstallPair(s.store, PublicHalf(call.publicTemplate, g.publicKey),
                                                        PrivateHalf(call.privateTemplate, g.privateKey))
            else reply.rv != OK && after.store == s.store
  {
    assert Step(c, s, call) == Outcome(after, reply);
  }

  lemma DestroyEffect(s: State, h: nat, target: nat) returns (e: StoreEffect)
    ensures var Outcome(after, reply) := DestroyObjectStep(s, h, target);
            StoreEffectOk(s, DestroyObject(h, target), reply, e) && after.store == StoreAfter(s.store, e)
  {
    e := if GetSession(s, h).At? && GetObject(s.store, target).At? then Removed(GetObject(s.store, target).i)
         else StoreSame;
  }

  lemma RelabelEffect(s: State, h: nat, target: nat, template: Option<Template>) returns (e: StoreEffect)
    ensures var Outcome(after, reply) := SetAttributeStep(s, h, target, template);
            StoreEffectOk(s, SetAttribute(h, target, template), reply, e) && after.store == StoreAfter(s.store, e)
  {
    e := StoreSame;
    if GetSession(s, h).At? && GetObject(s.store, target).At? && template.Some? {
      var i := GetObject(s.store, target).i;
      e := Relabelled(i, SetAttributes(s.store.objects[i].item, template.value).0);
    }
  }

  lemma InitializeEffect(s: State) returns (e: StoreEffect)
    ensures var Outcome(after, reply) := InitializeStep(s);
            StoreEffectOk(s, Initialize, reply, e) && after.store == StoreAfter(s.store, e)
  {
    e := if s.up then StoreSame else StoreCleared;
  }

  lemma FinalizeEffect(s: State, reserved: bool) returns (e: StoreEffect)
    ensures var Outcome(after, reply) := FinalizeStep(s, reserved);
            StoreEffectOk(s, Finalize(reserved), reply, e) && after.store == StoreAfter(s.store, e)
  {
    e := if s.up && !reserved then StoreCleared else StoreSame;
  }

  lemma UntouchedStore(c: Crypto, s: State, call: Call, after: State, reply: Reply)
    requires Makes(c, s, call, after, reply) && !TouchesStore(call)
    ensures after.store == s.store
  {
    if MovesSession(call) {
      var e := MovedByCall(c, s, call, after, reply);
    } else {
      assert Step(c, s, call) == Outcome(after, reply);
    }
  }

  /** Every call has one of the six effects on the object store. */
  lemma StoreEffectOf(c: Crypto, s: State, call: Call, after: State, reply: Reply) returns (e: StoreEffect)
    requires Makes(c, s, call, after, reply)
    ensures StoreEffectOk(s, call, reply, e) && after.store == StoreAfter(s.store, e)
  {
    if !TouchesStore(call) {
      UntouchedStore(c, s, call, after, reply);
      e := StoreSame;
    } else if call.GenerateKeyPair? {
      GenerateIsInstall(c, s, call, after, reply);
      e := InstallEffect(s, call, after.store, reply);
    } else {
      assert Step(c, s, call) == Outcome(after, reply);
      match call {
        case CreateObject(h, template) => e := CreateEffect(s, h, template);
        case DestroyObject(h, target) => e := DestroyEffect(s, h, target);
        case SetAttribute(h, target, template) => e := RelabelEffect(s, h, target, template);
        case Initialize => e := InitializeEffect(s);
        case Finalize(reserved) => e := FinalizeEffect(s, reserved);
      }
    }
  }

  // ----- token fields and PINs -----

  datatype AuthEffect =
    | AuthSame
    | Started
    | TokenSet(pin: Bytes, name: Block)
    | UserPinSet(pin: Bytes)
    | Checked(role: Role, pin: Bytes)
    | Changed(role: Role, pin: Bytes, newPin: Bytes)

  function AuthEffectOf(s: State, call: Call): AuthEffect {
    match call
    case Initialize => if s.up then AuthSame else Started
    case InitToken(slot, pin, name) =>
      if pin.Some? && name.Some? && PinLengthOk(pin.value) && s.up && slot < 1 then TokenSet(pin.value, name.value)
      else AuthSame
    case InitPin(h, pin) =>
      if pin.Some? && PinLengthOk(pin.value) && GetSession(s, h).At? && s.sessions[GetSession(s, h).i].item.so
      then UserPinSet(pin.value) else AuthSame
    case SetPin(h, oldPin, newPin) =>
      if oldPin.Some? && newPin.Some? && PinLengthOk(newPin.value) && GetSession(s, h).At? then
        var ses := s.sessions[GetSession(s, h).i].item;
        if ses.user then Changed(User, oldPin.value, newPin.value)
        else if ses.so then Changed(SecurityOfficer, oldPin.value, newPin.value)
        else AuthSame
      else AuthSame
    case Login(h, userType, pin) =>
      if pin.Some? && (userType == CKU_SO || userType == CKU_USER) && GetSession(s, h).At? then
        var ses := s.sessions[GetSession(s, h).i].item;
        if ses.user || ses.so || (userType == CKU_SO && !ses.readWrite) then AuthSame
        else Checked(RoleOf(userType), pin.value)
      else AuthSame
    case _ => AuthSame
  }

  function AuthAfter(c: Crypto, a: Auth, e: AuthEffect): Auth {
    match e
    case AuthSame => a
    case Started => StartedAuth(a)
    case TokenSet(pin, name) => TokenStored(c, a, pin, name)
    case UserPinSet(pin) => UserPinStored(c, a, pin)
    case Checked(role, pin) => VerifyPin(c, a, role, pin).auth
    case Changed(role, pin, newPin) => PinChanged(c, a, role, pin, newPin).auth
  }

  lemma LoginAuth(c: Crypto, s: State, h: nat, userType: nat, pin: Option<Bytes>)
    ensures LoginStep(c, s, h, userType, pin).state.auth
            == AuthAfter(c, s.auth, AuthEffectOf(s, Login(h, userType, pin)))
  {
  }

  lemma SetPinAuth(c: Crypto, s: State, h: nat, oldPin: Option<Bytes>, newPin: Option<Bytes>)
    ensures SetPinStep(c, s, h, oldPin, newPin).state.auth
            == AuthAfter(c, s.auth, AuthEffectOf(s, SetPin(h, oldPin, newPin)))
  {
  }

  lemma InitPinAuth(c: Crypto, s: State, h: nat, pin: Option<Bytes>)
    ensures InitPinStep(c, s, h, pin).state.auth == AuthAfter(c, s.auth, AuthEffectOf(s, InitPin(h, pin)))
  {
  }

  /** Every call does exactly its computed effect to the token fields. */
  lemma AuthEffectIs(c: Crypto, s: State, call: Call, after: State, reply: Reply)
    requires Makes(c, s, call, after, reply)
    ensures after.auth == AuthAfter(c, s.auth, AuthEffectOf(s, call))
  {
    if call.Login? {
      assert Step(c, s, call) == Outcome(after, reply);
      LoginAuth(c, s, call.session, call.userType, call.pin);
    } else if call.SetPin? {
      assert Step(c, s, call) == Outcome(after, reply);
      SetPinAuth(c, s, call.session, call.oldPin, call.newPin);
    } else if call.InitPin? {
      assert Step(c, s, call) == Outcome(after, reply);
      InitPinAuth(c, s, call.session, call.pin);
    } else if MovesSession(call) {
      var e := MovedByCall(c, s, call, after, reply);
    } else {
      assert Step(c, s, call) == Outcome(after, reply);
    }
  }
}
