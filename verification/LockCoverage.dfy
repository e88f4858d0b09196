/**
 Which lock protects what: every call that changes a part of the state, or that depends on what a session says, takes
 the lock of that part. Attributes alone are read and written without one.
 */
module LockCoverage {
  import opened Common
  import opened Tables
  import opened Objects
  import opened Engine
  import opened Effects
  import opened Locks
  import opened CallLocks
  import opened Lockout

  predicate Takes(s: State, call: Call, l: Lock) {
    Acquire(l) in LockScript(s, call)
  }

  lemma InAround(l: Lock, inner: Script)
    ensures Acquire(l) in Around(l, inner) && forall op :: op in inner ==> op in Around(l, inner)
  {
    assert Around(l, inner)[0] == Acquire(l);
    forall op | op in inner ensures op in Around(l, inner) {
      var i :| 0 <= i < |inner| && inner[i] == op;
      assert Around(l, inner)[i + 1] == op;
    }
  }

  lemma {:induction false} ClosingTakes(t: Table<Session>)
    ensures !AllFree(t) ==> Acquire(SlotLock) in ClosingOps(t)
  {
    ClosingNothing(t);
    if !AllFree(t) {
      assert ClosingOps(t)[0] == Acquire(SlotLock);
    }
  }

  // ----- PINs -----

  /** A call that presents a PIN, or stores one, takes the slot lock. */
  lemma PinCallsLocked(s: State, call: Call)
    requires AuthEffectOf(s, call) != AuthSame && AuthEffectOf(s, call) != Started
    ensures Takes(s, call, SlotLock)
  {
    var slot := Around(SlotLock, []);
    InAround(SlotLock, []);
    if call.InitToken? {
      InAround(SlotLock, ClosingOps(s.sessions));
    } else {
      InAround(SessionLock(call.session), slot);
    }
  }

  lemma AuthChangesLocked(c: Crypto, s: State, call: Call, after: State, reply: Reply)
    requires Makes(c, s, call, after, reply)
    ensures after.auth != s.auth ==> Takes(s, call, SlotLock) || Takes(s, call, GlobalLock)
    ensures after.auth != s.auth && !call.Initialize? ==> Takes(s, call, SlotLock)
    ensures AttemptOf(s, call).Some? ==> Takes(s, call, SlotLock)
  {
    AuthEffectIs(c, s, call, after, reply);
    if AuthEffectOf(s, call) != AuthSame && AuthEffectOf(s, call) != Started {
      PinCallsLocked(s, call);
    }
    if call.Initialize? {
      InAround(GlobalLock, []);
    }
  }

  // ----- the two tables -----

  lemma OpenLocked(s: State, call: Call, reply: Reply, e: SessionEffect)
    requires SessionEffectOk(s, call, reply, e) && e.Opened?
    ensures Takes(s, call, SlotLock) && Takes(s, call, SessionCounterLock)
  {
    assert SessionEffectIs(s, call, reply, e);
    FreeCellExists(s.sessions);
    NotFull(s.sessions);
    InAround(SessionCounterLock, []);
    InAround(SlotLock, Around(SessionCounterLock, []));
  }

  lemma NotFull<T>(t: Table<T>)
    ensures FreeFrom(t, 0) < |t| ==> Count(t) < |t|
  {
    CountExtremes(t);
  }

  lemma CloseLocked(s: State, call: Call, reply: Reply, e: SessionEffect)
    requires SessionEffectOk(s, call, reply, e) && e.Closed?
    ensures Takes(s, call, SlotLock)
  {
    assert SessionEffectIs(s, call, reply, e);
    InAround(SlotLock, []);
  }

  lemma ClearLocked(s: State, call: Call, reply: Reply, e: SessionEffect)
    requires SessionEffectOk(s, call, reply, e) && e.SessionsCleared? && !call.Initialize?
    ensures AllFree(s.sessions) || Takes(s, call, SlotLock)
  {
    assert SessionEffectIs(s, call, reply, e);
    ClosingTakes(s.sessions);
    InAround(GlobalLock, ClosingOps(s.sessions));
  }

  lemma MoveLocked(s: State, call: Call, reply: Reply, e: SessionEffect)
    requires SessionEffectOk(s, call, reply, e) && e.Moved?
    ensures s.sessions[e.i].Used? && Takes(s, call, SessionLock(s.sessions[e.i].handle))
  {
    assert SessionEffectIs(s, call, reply, e);
    var h := call.session;
    InAround(SessionLock(h), []);
    if call.Login? {
      InAround(SessionLock(h), LoginInner(NamedSession(s, h), RoleOf(call.userType)));
    }
  }

  /**
   Sessions. Opening and closing one takes the slot lock, issuing a handle its counter's lock, and changing what one
   says its own lock.
   */
  lemma SessionChangesLocked(c: Crypto, s: State, call: Call, after: State, reply: Reply, i: nat)
    requires Makes(c, s, call, after, reply) && !call.Initialize? && i < MAX_SESSIONS
    ensures s.sessions[i] != after.sessions[i] ==>
      if s.sessions[i].Used? && after.sessions[i].Used? && s.sessions[i].handle == after.sessions[i].handle
      then Takes(s, call, SessionLock(s.sessions[i].handle)) else Takes(s, call, SlotLock)
    ensures after.sessionsIssued != s.sessionsIssued ==> Takes(s, call, SlotLock) && Takes(s, call, SessionCounterLock)
  {
    var e := SessionEffectOf(c, s, call, after, reply);
    match e {
      case Opened(_, _) => OpenLocked(s, call, reply, e); FreeIsOpened(s, call, reply, e);
      case Closed(_) => CloseLocked(s, call, reply, e);
      case Moved(_, _) => MoveLocked(s, call, reply, e);
      case SessionsCleared => ClearLocked(s, call, reply, e);
      case SessionsSame =>
    }
  }

  lemma FreeIsOpened(s: State, call: Call, reply: Reply, e: SessionEffect)
    requires SessionEffectOk(s, call, reply, e) && e.Opened?
    ensures s.sessions[e.i].Free?
  {
    assert SessionEffectIs(s, call, reply, e);
  }

  lemma StoreEffectLocked(s: State, call: Call, reply: Reply, e: StoreEffect)
    requires StoreEffectOk(s, call, reply, e) && (e.Inserted? || e.Paired? || e.Removed?)
    ensures Takes(s, call, SlotLock) && (e.Inserted? || e.Paired? ==> Takes(s, call, ObjectCounterLock))
  {
    assert StoreEffectIs(s, call, reply, e);
    var one := Around(ObjectCounterLock, []);
    InAround(SlotLock, []);
    InAround(ObjectCounterLock, []);
    InAround(SlotLock, one);
    if e.Inserted? {
      NotFull(s.store.objects);
    } else if e.Paired? {
      PairLocked(s, call, e);
    }
  }

  lemma PairLocked(s: State, call: Call, e: StoreEffect)
    requires e.Paired? && HalvesOf(call, e.pub, e.priv) && UserOn(s, call.session)
    requires e.i == FreeFrom(s.store.objects, 0) < MAX_OBJECTS
    requires e.j == FreeFrom(s.store.objects, e.i + 1) < MAX_OBJECTS
    ensures Takes(s, call, SlotLock) && Takes(s, call, ObjectCounterLock)
  {
    var one := Around(ObjectCounterLock, []);
    InAround(ObjectCounterLock, []);
    assert (one + one)[0] == Acquire(ObjectCounterLock);
    InAround(SlotLock, one + one);
    assert InstallPairLocks(s.store.objects) == Around(SlotLock, one + one);
  }

  /**
   Objects. Adding or removing one, and its file, takes the slot lock, and issuing a handle its counter's lock. What a
   C_SetAttributeValue does to a label, and the freeing loop of Finalize, go without.
   */
  lemma ObjectChangesLocked(c: Crypto, s: State, call: Call, after: State, reply: Reply)
    requires Makes(c, s, call, after, reply) && !call.Initialize? && !call.Finalize? && !call.SetAttribute?
    ensures after.store != s.store ==> Takes(s, call, SlotLock)
    ensures after.store.issued != s.store.issued ==> Takes(s, call, ObjectCounterLock)
  {
    var e := StoreEffectOf(c, s, call, after, reply);
    if e.Inserted? || e.Paired? || e.Removed? {
      StoreEffectLocked(s, call, reply, e);
    } else {
      assert StoreEffectIs(s, call, reply, e);
    }
  }

  /** The library is started and stopped under the global lock. */
  lemma StartLocked(c: Crypto, s: State, call: Call, after: State, reply: Reply)
    requires Makes(c, s, call, after, reply)
    ensures after.up != s.up ==> Takes(s, call, GlobalLock)
  {
    if !call.Initialize? && !call.Finalize? {
      UntouchedUp(c, s, call, after, reply);
    } else {
      assert Step(c, s, call) == Outcome(after, reply);
      InAround(GlobalLock, []);
      InAround(GlobalLock, ClosingOps(s.sessions));
    }
  }

  // ----- looking at a session -----

  /** The same state, but for what the session in cell `i` says. */
  function Saying(s: State, i: nat, ses: Session): State
    requires i < MAX_SESSIONS && s.sessions[i].Used?
  {
    PutSession(s, i, ses)
  }

  /** The two outcomes agree in the reply and in everything but the sessions. */
  predicate Agree(x: Outcome, y: Outcome) {
    x.reply == y.reply && x.state.auth == y.state.auth && x.state.store == y.state.store && x.state.up == y.state.up
  }

  lemma SameLookups(s: State, i: nat, ses: Session, h: nat)
    requires i < MAX_SESSIONS && s.sessions[i].Used?
    ensures GetSession(Saying(s, i, ses), h) == GetSession(s, h)
    ensures Count(Saying(s, i, ses).sessions) == Count(s.sessions)
  {
    CountUpdate(s.sessions, i, Used(s.sessions[i].handle, ses));
    var t := Saying(s, i, ses).sessions;
    assert forall m :: 0 <= m < MAX_SESSIONS ==>
      (t[m].Used? <==> s.sessions[m].Used?) && (t[m].Used? ==> t[m].handle == s.sessions[m].handle);
  }

  /** The calls that never take a session's lock. */
  predicate NeedsNoSession(call: Call) {
    call.Initialize? || call.Finalize? || call.InitToken? || call.OpenSession? || call.CloseSession? ||
    call.CloseAllSessions? || call.CreateObject? || call.DestroyObject? || call.GetAttributes? || call.SetAttribute?
  }

  lemma SlotCallsDoNotLook(c: Crypto, s: State, i: nat, ses: Session, call: Call)
    requires i < MAX_SESSIONS && s.sessions[i].Used?
    requires call.Initialize? || call.Finalize? || call.InitToken? || call.OpenSession? || call.CloseSession? ||
             call.CloseAllSessions?
    ensures Agree(Step(c, Saying(s, i, ses), call), Step(c, s, call))
  {
    if call.CloseSession? {
      SameLookups(s, i, ses, call.session);
    } else {
      SameLookups(s, i, ses, 0);
    }
  }

  lemma ObjectCallsDoNotLook(c: Crypto, s: State, i: nat, ses: Session, call: Call)
    requires i < MAX_SESSIONS && s.sessions[i].Used?
    requires call.CreateObject? || call.DestroyObject? || call.GetAttributes? || call.SetAttribute?
    ensures Agree(Step(c, Saying(s, i, ses), call), Step(c, s, call))
  {
    SameLookups(s, i, ses, call.session);
  }

  /** A call that found another session, or none, or that was given too little to look. */
  lemma UnlockedLogin(c: Crypto, s: State, i: nat, ses: Session, call: Call)
    requires i < MAX_SESSIONS && s.sessions[i].Used? && call.Login?
    requires !Takes(s, call, SessionLock(s.sessions[i].handle))
    ensures Agree(Step(c, Saying(s, i, ses), call), Step(c, s, call))
  {
    NotItsLock(s, i, call);
    SameLookups(s, i, ses, call.session);
  }

  lemma UnlockedPinCall(c: Crypto, s: State, i: nat, ses: Session, call: Call)
    requires i < MAX_SESSIONS && s.sessions[i].Used? && (call.InitPin? || call.SetPin?)
    requires !Takes(s, call, SessionLock(s.sessions[i].handle))
    ensures Agree(Step(c, Saying(s, i, ses), call), Step(c, s, call))
  {
    NotItsLock(s, i, call);
    SameLookups(s, i, ses, call.session);
  }

  lemma OtherLogout(s: State, i: nat, ses: Session, h: nat)
    requires i < MAX_SESSIONS && s.sessions[i].Used? && GetSession(s, h) != At(i)
    ensures Agree(LogoutStep(Saying(s, i, ses), h), LogoutStep(s, h))
  {
    SameLookups(s, i, ses, h);
  }

  lemma OtherInfo(s: State, i: nat, ses: Session, h: nat)
    requires i < MAX_SESSIONS && s.sessions[i].Used? && GetSession(s, h) != At(i)
    ensures Agree(GetSessionInfoStep(Saying(s, i, ses), h), GetSessionInfoStep(s, h))
  {
    SameLookups(s, i, ses, h);
  }

  lemma OtherFindInit(s: State, i: nat, ses: Session, h: nat)
    requires i < MAX_SESSIONS && s.sessions[i].Used? && GetSession(s, h) != At(i)
    ensures Agree(FindInitStep(Saying(s, i, ses), h), FindInitStep(s, h))
  {
    SameLookups(s, i, ses, h);
  }

  lemma OtherFindNext(s: State, i: nat, ses: Session, h: nat, max: nat)
    requires i < MAX_SESSIONS && s.sessions[i].Used? && GetSession(s, h) != At(i)
    ensures Agree(FindNextStep(Saying(s, i, ses), h, max), FindNextStep(s, h, max))
  {
    SameLookups(s, i, ses, h);
  }

  lemma OtherFindFinal(s: State, i: nat, ses: Session, h: nat)
    requires i < MAX_SESSIONS && s.sessions[i].Used? && GetSession(s, h) != At(i)
    ensures Agree(FindFinalStep(Saying(s, i, ses), h), FindFinalStep(s, h))
  {
    SameLookups(s, i, ses, h);
  }

  lemma OtherSignInit(s: State, i: nat, ses: Session, h: nat, mechanism: nat, key: nat)
    requires i < MAX_SESSIONS && s.sessions[i].Used? && GetSession(s, h) != At(i)
    ensures Agree(SignInitStep(Saying(s, i, ses), h, mechanism, key), SignInitStep(s, h, mechanism, key))
  {
    SameLookups(s, i, ses, h);
  }

  lemma OtherVerifyInit(s: State, i: nat, ses: Session, h: nat, mechanism: nat, key: nat)
    requires i < MAX_SESSIONS && s.sessions[i].Used? && GetSession(s, h) != At(i)
    ensures Agree(VerifyInitStep(Saying(s, i, ses), h, mechanism, key), VerifyInitStep(s, h, mechanism, key))
  {
    SameLookups(s, i, ses, h);
  }

  lemma OtherSign(c: Crypto, s: State, i: nat, ses: Session, h: nat,
                  data: Option<Bytes>, room: nat, nonce: nat)
    requires i < MAX_SESSIONS && s.sessions[i].Used? && (data.Some? ==> GetSession(s, h) != At(i))
    ensures Agree(SignStep(c, Saying(s, i, ses), h, data, room, nonce), SignStep(c, s, h, data, room, nonce))
  {
    SameLookups(s, i, ses, h);
  }

  lemma OtherVerify(s: State, i: nat, ses: Session, h: nat, data: Option<Bytes>, signature: Option<Bytes>)
    requires i < MAX_SESSIONS && s.sessions[i].Used? && (data.Some? && signature.Some? ==> GetSession(s, h) != At(i))
    ensures Agree(VerifyStep(Saying(s, i, ses), h, data, signature), VerifyStep(s, h, data, signature))
  {
    SameLookups(s, i, ses, h);
  }

  lemma OtherGenerate(s: State, i: nat, ses: Session, h: nat,
                      mechanism: nat, pubT: Template, privT: Template, m: Material)
    requires i < MAX_SESSIONS && s.sessions[i].Used? && GetSession(s, h) != At(i)
    ensures Agree(GenerateKeyPairStep(Saying(s, i, ses), h, mechanism, pubT, privT, m),
                  GenerateKeyPairStep(s, h, mechanism, pubT, privT, m))
  {
    SameLookups(s, i, ses, h);
  }

  lemma UnlockedStatusCall(c: Crypto, s: State, i: nat, ses: Session, call: Call)
    requires i < MAX_SESSIONS && s.sessions[i].Used?
    requires call.Logout? || call.GetSessionInfo? || call.FindInit? || call.FindNext? || call.FindFinal?
    requires !Takes(s, call, SessionLock(s.sessions[i].handle))
    ensures Agree(Step(c, Saying(s, i, ses), call), Step(c, s, call))
  {
    NotItsLock(s, i, call);
    match call {
      case Logout(h) => OtherLogout(s, i, ses, h);
      case GetSessionInfo(h) => OtherInfo(s, i, ses, h);
      case FindInit(h) => OtherFindInit(s, i, ses, h);
      case FindNext(h, max) => OtherFindNext(s, i, ses, h, max);
      case FindFinal(h) => OtherFindFinal(s, i, ses, h);
    }
  }

  lemma UnlockedKeyCall(c: Crypto, s: State, i: nat, ses: Session, call: Call)
    requires i < MAX_SESSIONS && s.sessions[i].Used?
    requires call.GenerateKeyPair? || call.SignInit? || call.Sign? || call.VerifyInit? || call.Verify?
    requires !Takes(s, call, SessionLock(s.sessions[i].handle))
    ensures Agree(Step(c, Saying(s, i, ses), call), Step(c, s, call))
  {
    NotItsLock(s, i, call);
    match call {
      case SignInit(h, mechanism, key) => OtherSignInit(s, i, ses, h, mechanism, key);
      case Sign(h, data, room, nonce) => OtherSign(c, s, i, ses, h, data, room, nonce);
      case VerifyInit(h, mechanism, key) => OtherVerifyInit(s, i, ses, h, mechanism, key);
      case Verify(h, data, signature) => OtherVerify(s, i, ses, h, data, signature);
      case GenerateKeyPair(h, mechanism, pubT, privT, m) => OtherGenerate(s, i, ses, h, mechanism, pubT, privT, m);
    }
  }

  /** The arguments without which a call returns before it looks for its session. */
  predicate GivenEnough(call: Call) {
    match call
    case InitPin(_, pin) => pin.Some? && PinLengthOk(pin.value)
    case SetPin(_, oldPin, newPin) => oldPin.Some? && newPin.Some? && PinLengthOk(newPin.value)
    case Login(_, userType, pin) => pin.Some? && userType in {CKU_SO, CKU_USER}
    case Sign(_, data, _, _) => data.Some?
    case Verify(_, data, signature) => data.Some? && signature.Some?
    case _ => true
  }

  /** A call that does not take the lock of cell `i` has not found that cell, or was not given enough to look for it. */
  lemma NotItsLock(s: State, i: nat, call: Call)
    requires i < MAX_SESSIONS && s.sessions[i].Used? && !NeedsNoSession(call)
    requires !Takes(s, call, SessionLock(s.sessions[i].handle))
    ensures GivenEnough(call) ==> GetSession(s, call.session) != At(i)
  {
    if GivenEnough(call) && GetSession(s, call.session) == At(i) {
      OnSessionTakes(s, call);
    }
  }

  lemma OnSessionTakes(s: State, call: Call)
    requires !NeedsNoSession(call) && GivenEnough(call) && GetSession(s, call.session).At?
    ensures Takes(s, call, SessionLock(call.session))
  {
    var h := call.session;
    InAround(SessionLock(h), []);
    InAround(SessionLock(h), Around(SlotLock, []));
    if call.GenerateKeyPair? {
      assert LockScript(s, call)[0] == Acquire(SessionLock(h));
    }
  }

  /**
   Looking. Whatever a session says, a call that does not take its lock gives the same reply and does the same to
   PINs, objects and files.
   */
  lemma LooksAreLocked(c: Crypto, s: State, i: nat, ses: Session, call: Call)
    requires i < MAX_SESSIONS && s.sessions[i].Used? && !Takes(s, call, SessionLock(s.sessions[i].handle))
    ensures Agree(Step(c, Saying(s, i, ses), call), Step(c, s, call))
  {
    if call.Login? {
      UnlockedLogin(c, s, i, ses, call);
    } else if call.InitPin? || call.SetPin? {
      UnlockedPinCall(c, s, i, ses, call);
    } else if call.Logout? || call.GetSessionInfo? || call.FindInit? || call.FindNext? || call.FindFinal? {
      UnlockedStatusCall(c, s, i, ses, call);
    } else if call.GenerateKeyPair? || call.SignInit? || call.Sign? || call.VerifyInit? || call.Verify? {
      UnlockedKeyCall(c, s, i, ses, call);
    } else if call.CreateObject? || call.DestroyObject? || call.GetAttributes? || call.SetAttribute? {
      ObjectCallsDoNotLook(c, s, i, ses, call);
    } else {
      SlotCallsDoNotLook(c, s, i, ses, call);
    }
  }
}
