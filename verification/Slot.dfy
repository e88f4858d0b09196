/**
 The API calls as the code has them, on a slot made of the token, session and object sections. Every call
 is proved to be its `Step` function on the slot's `Model()`, and to have the calling thread perform exactly the
 call's lock operations (`CallLocks`), on every path. The calls that can wait for themselves say so in `hangs`.
 */
module Slot {
  import opened Common
  import opened Tables
  import opened Objects
  import opened Engine
  import opened Locks
  import opened CallLocks
  import opened Records
  import opened TokenRecords
  import opened SessionStores
  import opened ObjectStores

  class Hsm {
    var up: bool
    const token: TokenRecord
    const sessions: SessionStore
    const objects: ObjectStore
    const thread: Thread

    ghost predicate Valid()
      reads this, token, sessions, sessions.Repr, objects, objects.Repr
    {
      && sessions.Valid() && objects.Valid() && sessions.Repr !! objects.Repr
      && {this, token, sessions, objects, thread} !! sessions.Repr
      && {this, token, sessions, objects, thread} !! objects.Repr
    }

    /** Between two calls the calling thread holds no lock. */
    ghost predicate Ready()
      reads this, token, sessions, sessions.Repr, objects, objects.Repr, thread
    {
      Valid() && thread.Valid() && thread.held == {}
    }

    ghost function Model(): State
      reads this, token, sessions, objects
    {
      State(up, token.View(), sessions.table, sessions.issued, objects.View())
    }

    /** A process that has not called `C_Initialize` yet, on any disk. */
    constructor (tokenFile: Option<Bytes>, keyFiles: map<string, Bytes>)
      ensures Ready() && Boots(Model())
      ensures Model().auth.tokenFile == tokenFile && Model().store.keyFiles == keyFiles
    {
      up := false;
      token := new TokenRecord(tokenFile);
      sessions := new SessionStore();
      objects := new ObjectStore(keyFiles);
      thread := new Thread();
    }

    // ----- start and stop -----

    method Initialize() returns (rv: Rv)
      requires Ready()
      modifies this, token, sessions, sessions.Repr, objects, objects.Repr, thread
      ensures Ready() && thread.ops == old(thread.ops) + Around(GlobalLock, [])
      ensures Outcome(Model(), Just(rv)) == InitializeStep(old(Model()))
    {
      Bracket(thread.ops, GlobalLock);
      thread.Lock(GlobalLock);
      if up {
        thread.Unlock(GlobalLock);
        return AlreadyInitialized;
      }
      sessions.Clear(thread);
      objects.Clear(thread);
      token.Start(thread);
      up := true;
      thread.Unlock(GlobalLock);
      rv := OK;
    }

    method Finalize(reserved: bool) returns (rv: Rv)
      requires Ready()
      modifies this, sessions, sessions.Repr, objects, objects.Repr, thread
      ensures Ready() && thread.ops == old(thread.ops) + FinalizeLocks(old(Model()), reserved)
      ensures Outcome(Model(), Just(rv)) == FinalizeStep(old(Model()), reserved)
    {
      if reserved { return ArgumentsBad; }
      Bracket(thread.ops, GlobalLock);
      NestedBracket(thread.ops, GlobalLock, ClosingOps(sessions.table));
      thread.Lock(GlobalLock);
      if !up {
        thread.Unlock(GlobalLock);
        return NotInitialized;
      }
      var hangs := sessions.CloseEverySession(thread);
      objects.FreeAll(thread);
      up := false;
      thread.Unlock(GlobalLock);
      rv := OK;
    }

    // ----- sessions -----

    /** `hsm_get_session`. */
    method FindSession(h: nat) returns (i: nat, rv: Rv)
      requires Valid()
      ensures (if rv == OK then At(i) else Missing(rv)) == GetSession(Model(), h)
      ensures rv == OK ==> i < MAX_SESSIONS && sessions.sessions[i] != null && sessions.SessionAt(i)
    {
      i := 0;
      if !up { return i, NotInitialized; }
      i := sessions.Find(h);
      rv := if i < MAX_SESSIONS then OK else SessionHandleInvalid;
    }

    method OpenSession(slot: nat, flags: nat) returns (rv: Rv, h: nat)
      requires Ready()
      modifies sessions, sessions.Repr, thread
      ensures Ready() && fresh(sessions.Repr - old(sessions.Repr))
      ensures thread.ops == old(thread.ops) + OpenSessionLocks(old(Model()), slot, flags)
      ensures Outcome(Model(), if rv == OK then Reply(OK, Handle(h)) else Just(rv))
              == OpenSessionStep(old(Model()), slot, flags)
    {
      h := 0;
      if !up { return NotInitialized, h; }
      if slot >= 1 { return SlotIdInvalid, h; }
      if !HasFlag(flags, CKF_SERIAL_SESSION) { return SessionParallelNotSupported, h; }
      rv, h := sessions.Create(HasFlag(flags, CKF_RW_SESSION), thread);
    }

    /** `hsm_destroy_session` does all of it. */
    method CloseSession(h: nat) returns (rv: Rv)
      requires Ready()
      modifies sessions, sessions.Repr, thread
      ensures Ready() && thread.ops == old(thread.ops) + CloseSessionLocks(old(Model()))
      ensures Outcome(Model(), Just(rv)) == CloseSessionStep(old(Model()), h)
    {
      if !up { return NotInitialized; }
      var hangs;
      rv, hangs := sessions.Destroy(h, thread);
    }

    /** What `C_InitToken` and `C_CloseAllSessions` have in common: the slot lock, and the close loop under it. */
    method CloseUnderLock() returns (hangs: bool)
      requires Ready() && up
      modifies sessions, sessions.Repr, thread
      ensures Valid() && Model() == old(Model()) && thread.Valid() && thread.held == {SlotLock}
      ensures hangs <==> Count(old(sessions.table)) != 0
      ensures thread.ops == old(thread.ops) + [Acquire(SlotLock)] +
        if hangs then [] else ClosingOps(old(sessions.table))
    {
      thread.Lock(SlotLock);
      CountExtremes(sessions.table);
      hangs := sessions.CloseEverySession(thread);
      assert !hangs ==> old(sessions.table) == NoSessions();
    }

    /** A call that hangs holds the slot lock and has changed nothing; its `rv` means nothing. */
    method CloseAllSessions(slot: nat) returns (rv: Rv, hangs: bool)
      requires Ready()
      modifies sessions, sessions.Repr, thread
      ensures Valid() && thread.Valid() && (hangs <==> !Completes(old(Model()), Call.CloseAllSessions(slot)))
      ensures hangs ==> Model() == old(Model()) && thread.held == {SlotLock}
      ensures hangs ==> thread.ops == old(thread.ops) + [Acquire(SlotLock)]
      ensures !hangs ==> Ready() && thread.ops == old(thread.ops) + CloseAllLocks(old(Model()), slot)
      ensures !hangs ==> Outcome(Model(), Just(rv)) == CloseAllStep(old(Model()), slot)
    {
      hangs := false;
      if !up { return NotInitialized, hangs; }
      if slot >= 1 { return SlotIdInvalid, hangs; }
      rv := OK;
      hangs := CloseUnderLock();
      if hangs { return; }
      thread.Unlock(SlotLock);
      NestedBracket(old(thread.ops), SlotLock, ClosingOps(old(sessions.table)));
    }

    /** `C_GetSessionInfo` on the session it has found; the last case is the switch's default branch. */
    method InfoOn(session: SessionRecord) returns (info: SessionInfo)
      requires thread.Valid() && thread.held == {}
      modifies thread
      ensures thread.Valid() && thread.held == {}
      ensures thread.ops == old(thread.ops) + Around(SessionLock(session.handle), [])
      ensures var flags := if session.isReadWrite then CKF_SERIAL_SESSION + CKF_RW_SESSION else CKF_SERIAL_SESSION;
              info == SessionInfo(0, flags, StateCode(session.state))
    {
      Bracket(thread.ops, SessionLock(session.handle));
      thread.Lock(SessionLock(session.handle));
      var flags := CKF_SERIAL_SESSION;
      if session.isReadWrite {
        flags := flags + CKF_RW_SESSION;
      }
      var code := 2;
      match session.state {
        case RoPublic => code := 0;
        case RoUser => code := 1;
        case RwPublic => code := 2;
        case RwUser => code := 3;
        case RwSo => code := 4;
        case Invalid =>
      }
      info := SessionInfo(0, flags, code);
      thread.Unlock(SessionLock(session.handle));
    }

    method GetSessionInfo(h: nat) returns (rv: Rv, info: SessionInfo)
      requires Ready()
      modifies thread
      ensures Ready() && thread.ops == old(thread.ops) + OnSession(old(Model()), h, [])
      ensures Outcome(Model(), if rv == OK then Reply(OK, Info(info)) else Just(rv))
              == GetSessionInfoStep(old(Model()), h)
    {
      var i;
      info := SessionInfo(0, 0, 0);
      i, rv := FindSession(h);
      if rv != OK { return; }
      info := InfoOn(sessions.sessions[i]);
    }

    // ----- PINs -----

    /** As for `CloseAllSessions`, a call that hangs holds the slot lock and has changed nothing. */
    method InitToken(c: Crypto, slot: nat, pin: Option<Bytes>, name: Option<Block>) returns (rv: Rv, hangs: bool)
      requires Ready()
      modifies token, sessions, sessions.Repr, thread
      ensures Valid() && thread.Valid() && (hangs <==> !Completes(old(Model()), Call.InitToken(slot, pin, name)))
      ensures hangs ==> Model() == old(Model()) && thread.held == {SlotLock}
      ensures hangs ==> thread.ops == old(thread.ops) + [Acquire(SlotLock)]
      ensures !hangs ==> Ready() && thread.ops == old(thread.ops) + InitTokenLocks(old(Model()), slot, pin, name)
      ensures !hangs ==> Outcome(Model(), Just(rv)) == InitTokenStep(c, old(Model()), slot, pin, name)
    {
      hangs := false;
      if pin.None? || name.None? { return ArgumentsBad, hangs; }
      if |pin.value| < MIN_PIN || |pin.value| > MAX_PIN { return PinLenRange, hangs; }
      if !up { return NotInitialized, hangs; }
      if slot >= 1 { return SlotIdInvalid, hangs; }
      rv := OK;
      hangs := CloseUnderLock();
      if hangs { return; }
      token.StoreToken(c, pin.value, name.value, thread);
      thread.Unlock(SlotLock);
      NestedBracket(old(thread.ops), SlotLock, ClosingOps(old(sessions.table)));
    }

    /** `C_InitPIN` on the session it has found. */
    method InitPinOn(c: Crypto, session: SessionRecord, pin: Bytes) returns (rv: Rv)
      requires thread.Valid() && thread.held == {}
      modifies token, thread
      ensures thread.Valid() && thread.held == {}
      ensures thread.ops == old(thread.ops) +
        Around(SessionLock(session.handle), if session.soLoggedIn then Around(SlotLock, []) else [])
      ensures if session.soLoggedIn then rv == OK && token.View() == UserPinStored(c, old(token.View()), pin)
              else rv == UserNotLoggedIn && token.View() == old(token.View())
    {
      Bracket(thread.ops, SessionLock(session.handle));
      DoubleBracket(thread.ops, SessionLock(session.handle), SlotLock);
      thread.Lock(SessionLock(session.handle));
      if !session.soLoggedIn {
        thread.Unlock(SessionLock(session.handle));
        return UserNotLoggedIn;
      }
      thread.Lock(SlotLock);
      token.StoreUserPin(c, pin, thread);
      thread.Unlock(SlotLock);
      thread.Unlock(SessionLock(session.handle));
      rv := OK;
    }

    method InitPin(c: Crypto, h: nat, pin: Option<Bytes>) returns (rv: Rv)
      requires Ready()
      modifies token, thread
      ensures Ready() && thread.ops == old(thread.ops) + InitPinLocks(old(Model()), h, pin)
      ensures Outcome(Model(), Just(rv)) == InitPinStep(c, old(Model()), h, pin)
    {
      var i;
      if pin.None? { return ArgumentsBad; }
      if |pin.value| < MIN_PIN || |pin.value| > MAX_PIN { return PinLenRange; }
      i, rv := FindSession(h);
      if rv != OK { return; }
      rv := InitPinOn(c, sessions.sessions[i], pin.value);
    }

    /** `C_SetPIN` on the session it has found. */
    method SetPinOn(c: Crypto, session: SessionRecord, oldPin: Bytes, newPin: Bytes) returns (rv: Rv)
      requires thread.Valid() && thread.held == {}
      modifies token, thread
      ensures thread.Valid() && thread.held == {}
      ensures thread.ops == old(thread.ops) +
        Around(SessionLock(session.handle),
               if session.userLoggedIn || session.soLoggedIn then Around(SlotLock, []) else [])
      ensures PinCheck(token.View(), rv) ==
        if !session.userLoggedIn && !session.soLoggedIn then PinCheck(old(token.View()), UserNotLoggedIn)
        else PinChanged(c, old(token.View()), if session.userLoggedIn then User else SecurityOfficer, oldPin, newPin)
    {
      Bracket(thread.ops, SessionLock(session.handle));
      DoubleBracket(thread.ops, SessionLock(session.handle), SlotLock);
      thread.Lock(SessionLock(session.handle));
      if !session.userLoggedIn && !session.soLoggedIn {
        thread.Unlock(SessionLock(session.handle));
        return UserNotLoggedIn;
      }
      thread.Lock(SlotLock);
      rv := token.ChangePin(c, if session.userLoggedIn then User else SecurityOfficer, oldPin, newPin, thread);
      thread.Unlock(SlotLock);
      thread.Unlock(SessionLock(session.handle));
    }

    method SetPin(c: Crypto, h: nat, oldPin: Option<Bytes>, newPin: Option<Bytes>) returns (rv: Rv)
      requires Ready()
      modifies token, thread
      ensures Ready() && thread.ops == old(thread.ops) + SetPinLocks(old(Model()), h, oldPin, newPin)
      ensures Outcome(Model(), Just(rv)) == SetPinStep(c, old(Model()), h, oldPin, newPin)
    {
      var i;
      if oldPin.None? || newPin.None? { return ArgumentsBad; }
      if |newPin.value| < MIN_PIN || |newPin.value| > MAX_PIN { return PinLenRange; }
      i, rv := FindSession(h);
      if rv != OK { return; }
      rv := SetPinOn(c, sessions.sessions[i], oldPin.value, newPin.value);
    }

    /** The part of `C_Login` under both locks. */
    method VerifyAndLogIn(c: Crypto, i: nat, role: Role, pin: Bytes) returns (rv: Rv)
      requires Valid() && i < MAX_SESSIONS && sessions.sessions[i] != null && sessions.SessionAt(i)
      requires SessionLock(sessions.sessions[i].handle) in thread.held && SlotLock in thread.held
      requires var ses := sessions.table[i].item; !ses.user && !ses.so && (role == SecurityOfficer ==> ses.readWrite)
      modifies token, sessions, sessions.Repr
      ensures Valid() && Outcome(Model(), Just(rv)) == LoginFound(c, old(Model()), i, role, pin)
    {
      rv := token.Verify(c, role, pin, thread);
      if rv == OK {
        sessions.LogInAt(i, role, thread);
      }
    }

    /** The part of `C_Login` under the session lock. */
    method LoginChecked(c: Crypto, i: nat, role: Role, pin: Bytes) returns (rv: Rv)
      requires Valid() && i < MAX_SESSIONS && sessions.sessions[i] != null && sessions.SessionAt(i)
      requires thread.Valid() && SessionLock(sessions.sessions[i].handle) in thread.held && SlotLock !in thread.held
      modifies token, sessions, sessions.Repr, thread
      ensures Valid() && thread.Valid() && thread.held == old(thread.held)
      ensures thread.ops == old(thread.ops) + LoginInner(old(sessions.table[i].item), role)
      ensures Outcome(Model(), Just(rv)) == LoginFound(c, old(Model()), i, role, pin)
    {
      var session: SessionRecord := sessions.sessions[i];
      if session.userLoggedIn || session.soLoggedIn { return UserAlreadyLoggedIn; }
      if role == SecurityOfficer && !session.isReadWrite { return SessionReadOnly; }
      Bracket(thread.ops, SlotLock);
      thread.Lock(SlotLock);
      rv := VerifyAndLogIn(c, i, role, pin);
      thread.Unlock(SlotLock);
    }

    method Login(c: Crypto, h: nat, userType: nat, pin: Option<Bytes>) returns (rv: Rv)
      requires Ready()
      modifies token, sessions, sessions.Repr, thread
      ensures Ready() && thread.ops == old(thread.ops) + LoginLocks(old(Model()), h, userType, pin)
      ensures Outcome(Model(), Just(rv)) == LoginStep(c, old(Model()), h, userType, pin)
    {
      var i;
      if pin.None? { return ArgumentsBad; }
      if userType != CKU_SO && userType != CKU_USER { return UserTypeInvalid; }
      i, rv := FindSession(h);
      if rv != OK { return; }
      var role := if userType == CKU_SO then SecurityOfficer else User;
      NestedBracket(thread.ops, SessionLock(h), LoginInner(sessions.table[i].item, role));
      thread.Lock(SessionLock(h));
      rv := LoginChecked(c, i, role, pin.value);
      thread.Unlock(SessionLock(h));
    }

    /** The part of `C_Logout` under the session lock. */
    method LogoutAt(i: nat) returns (rv: Rv)
      requires Valid() && i < MAX_SESSIONS && sessions.sessions[i] != null && sessions.SessionAt(i)
      requires SessionLock(sessions.sessions[i].handle) in thread.held
      modifies sessions, sessions.Repr
      ensures Valid() && Outcome(Model(), Just(rv)) == LogoutFound(old(Model()), i)
    {
      var session: SessionRecord := sessions.sessions[i];
      if !session.userLoggedIn && !session.soLoggedIn { return UserNotLoggedIn; }
      sessions.LogOutAt(i, thread);
      rv := OK;
    }

    method Logout(h: nat) returns (rv: Rv)
      requires Ready()
      modifies sessions, sessions.Repr, thread
      ensures Ready() && thread.ops == old(thread.ops) + OnSession(old(Model()), h, [])
      ensures Outcome(Model(), Just(rv)) == LogoutStep(old(Model()), h)
    {
      var i;
      i, rv := FindSession(h);
      if rv != OK { return; }
      Bracket(thread.ops, SessionLock(h));
      thread.Lock(SessionLock(h));
      rv := LogoutAt(i);
      thread.Unlock(SessionLock(h));
    }

    // ----- objects -----

    /** `hsm_create_object` on a slot whose sessions it does not touch. */
    method CreateOnSlot(template: Template) returns (rv: Rv, g: nat)
      requires Ready()
      modifies objects, objects.objects, thread
      ensures Ready() && fresh(objects.Repr - old(objects.Repr))
      ensures thread.ops == old(thread.ops) + CreateLocks(old(objects.table))
      ensures Stored(objects.View(), if rv == OK then Reply(OK, Handle(g)) else Just(rv))
              == CreateIn(old(objects.View()), template)
    {
      rv, g := objects.Create(template, thread);
    }

    method CreateObject(h: nat, template: Option<Template>) returns (rv: Rv, g: nat)
      requires Ready()
      modifies objects, objects.objects, thread
      ensures Ready() && fresh(objects.Repr - old(objects.Repr))
      ensures thread.ops == old(thread.ops) + CreateObjectLocks(old(Model()), h, template)
      ensures Outcome(Model(), if rv == OK then Reply(OK, Handle(g)) else Just(rv))
              == CreateObjectStep(old(Model()), h, template)
    {
      var i;
      g := 0;
      if template.None? { return ArgumentsBad, g; }
      i, rv := FindSession(h);
      if rv != OK { return; }
      rv, g := CreateOnSlot(template.value);
    }

    method DestroyObject(h: nat, target: nat) returns (rv: Rv)
      requires Ready()
      modifies objects, objects.Repr, thread
      ensures Ready()
      ensures thread.ops == old(thread.ops) + DestroyObjectLocks(old(Model()), h)
      ensures Outcome(Model(), Just(rv)) == DestroyObjectStep(old(Model()), h, target)
    {
      var i;
      i, rv := FindSession(h);
      if rv != OK { return; }
      rv := objects.Destroy(target, thread);
    }

    /** `answered` tells whether the object was reached, so that the entries were filled in. */
    method GetAttributes(h: nat, target: nat, entries: array?<Query>) returns (rv: Rv, answered: bool)
      requires Ready()
      requires entries != null ==>
        entries !in objects.Repr && forall k :: 0 <= k < entries.Length ==> Readable(entries[k])
      modifies entries
      ensures (!answered && entries != null ==> entries[..] == old(entries[..]))
      ensures Outcome(old(Model()),
                      if answered && entries != null then Reply(rv, Attributes(entries[..])) else Just(rv))
              == GetAttributesStep(old(Model()), h, target, if entries == null then None else Some(old(entries[..])))
    {
      var i;
      answered := false;
      if entries == null { return ArgumentsBad, answered; }
      i, rv := FindSession(h);
      if rv != OK { return; }
      var k := objects.Find(target);
      if k == MAX_OBJECTS { return ObjectHandleInvalid, answered; }
      rv := objects.objects[k].GetValues(entries);
      answered := true;
    }

    method SetAttribute(h: nat, target: nat, template: Option<Template>) returns (rv: Rv)
      requires Ready()
      modifies objects, objects.Repr
      ensures Ready()
      ensures Outcome(Model(), Just(rv)) == SetAttributeStep(old(Model()), h, target, template)
    {
      var i;
      if template.None? { return ArgumentsBad; }
      i, rv := FindSession(h);
      if rv != OK { return; }
      rv := objects.SetValues(target, template.value);
    }

    // ----- finding objects -----

    /** The part of `C_FindObjectsInit` under the session lock. */
    method FindInitAt(i: nat) returns (rv: Rv)
      requires Valid() && i < MAX_SESSIONS && sessions.sessions[i] != null && sessions.SessionAt(i)
      requires SessionLock(sessions.sessions[i].handle) in thread.held
      modifies sessions, sessions.Repr
      ensures Valid() && Outcome(Model(), Just(rv)) == FindInitFound(old(Model()), i)
    {
      if sessions.sessions[i].findActive { return OperationActive; }
      sessions.StartFindAt(i, objects, thread);
      rv := OK;
    }

    method FindInit(h: nat) returns (rv: Rv)
      requires Ready()
      modifies sessions, sessions.Repr, thread
      ensures Ready() && thread.ops == old(thread.ops) + OnSession(old(Model()), h, [])
      ensures Outcome(Model(), Just(rv)) == FindInitStep(old(Model()), h)
    {
      var i;
      i, rv := FindSession(h);
      if rv != OK { return; }
      Bracket(thread.ops, SessionLock(h));
      thread.Lock(SessionLock(h));
      rv := FindInitAt(i);
      thread.Unlock(SessionLock(h));
    }

    /** The part of `C_FindObjects` under the session lock. */
    method FindNextAt(i: nat, max: nat) returns (rv: Rv, found: seq<nat>)
      requires Valid() && i < MAX_SESSIONS && sessions.sessions[i] != null && sessions.SessionAt(i)
      requires SessionLock(sessions.sessions[i].handle) in thread.held
      modifies sessions, sessions.Repr
      ensures Valid()
      ensures Outcome(Model(), if rv == OK then Reply(OK, Found(found)) else Just(rv))
          == FindNextFound(old(Model()), i, max)
    {
      found := [];
      if !sessions.sessions[i].findActive { return OperationNotInitialized, found; }
      found := sessions.PageAt(i, max, thread);
      rv := OK;
    }

    method FindNext(h: nat, max: nat) returns (rv: Rv, found: seq<nat>)
      requires Ready()
      modifies sessions, sessions.Repr, thread
      ensures Ready() && thread.ops == old(thread.ops) + OnSession(old(Model()), h, [])
      ensures Outcome(Model(), if rv == OK then Reply(OK, Found(found)) else Just(rv))
          == FindNextStep(old(Model()), h, max)
    {
      var i;
      found := [];
      i, rv := FindSession(h);
      if rv != OK { return; }
      Bracket(thread.ops, SessionLock(h));
      thread.Lock(SessionLock(h));
      rv, found := FindNextAt(i, max);
      thread.Unlock(SessionLock(h));
    }

    /** The part of `C_FindObjectsFinal` under the session lock. */
    method FindFinalAt(i: nat) returns (rv: Rv)
      requires Valid() && i < MAX_SESSIONS && sessions.sessions[i] != null && sessions.SessionAt(i)
      requires SessionLock(sessions.sessions[i].handle) in thread.held
      modifies sessions, sessions.Repr
      ensures Valid() && Outcome(Model(), Just(rv)) == FindFinalFound(old(Model()), i)
    {
      if !sessions.sessions[i].findActive { return OperationNotInitialized; }
      sessions.EndFindAt(i, thread);
      rv := OK;
    }

    method FindFinal(h: nat) returns (rv: Rv)
      requires Ready()
      modifies sessions, sessions.Repr, thread
      ensures Ready() && thread.ops == old(thread.ops) + OnSession(old(Model()), h, [])
      ensures Outcome(Model(), Just(rv)) == FindFinalStep(old(Model()), h)
    {
      var i;
      i, rv := FindSession(h);
      if rv != OK { return; }
      Bracket(thread.ops, SessionLock(h));
      thread.Lock(SessionLock(h));
      rv := FindFinalAt(i);
      thread.Unlock(SessionLock(h));
    }

    // ----- key pairs -----

    /** The login check of `C_GenerateKeyPair`; the session lock is not kept. */
    method UserLoggedInOn(session: SessionRecord) returns (user: bool)
      requires thread.Valid() && thread.held == {}
      modifies thread
      ensures thread.Valid() && thread.held == {}
      ensures thread.ops == old(thread.ops) + Around(SessionLock(session.handle), []) && user == session.userLoggedIn
    {
      Bracket(thread.ops, SessionLock(session.handle));
      thread.Lock(SessionLock(session.handle));
      user := session.userLoggedIn;
      thread.Unlock(SessionLock(session.handle));
    }

    /** `C_GenerateKeyPair` after the login check, on a slot whose sessions it does not touch. */
    method MakePairOnSlot(mechanism: nat, pubT: Template, privT: Template, m: Material) returns (rv: Rv, g: nat, p: nat)
      requires Ready()
      modifies objects, objects.objects, thread
      ensures Ready() && fresh(objects.Repr - old(objects.Repr))
      ensures thread.ops == old(thread.ops) + MakePairLocks(old(objects.table), mechanism, pubT, m)
      ensures Stored(objects.View(), if rv == OK then Reply(OK, KeyPair(g, p)) else Just(rv))
              == PairGenerated(old(objects.View()), mechanism, pubT, privT, m)
    {
      rv, g, p := objects.MakePair(mechanism, pubT, privT, m, thread);
    }

    method GenerateKeyPair(h: nat, mechanism: nat, pubT: Template, privT: Template, m: Material)
      returns (rv: Rv, g: nat, p: nat)
      requires Ready()
      modifies objects, objects.objects, thread
      ensures Ready() && fresh(objects.Repr - old(objects.Repr))
      ensures thread.ops == old(thread.ops) + GenerateKeyPairLocks(old(Model()), h, mechanism, pubT, m)
      ensures Outcome(Model(), if rv == OK then Reply(OK, KeyPair(g, p)) else Just(rv))
              == GenerateKeyPairStep(old(Model()), h, mechanism, pubT, privT, m)
    {
      var i;
      g, p := 0, 0;
      i, rv := FindSession(h);
      if rv != OK { return; }
      Joined(thread.ops, Around(SessionLock(h), []), MakePairLocks(objects.table, mechanism, pubT, m));
      var user := UserLoggedInOn(sessions.sessions[i]);
      if !user { return UserNotLoggedIn, g, p; }
      rv, g, p := MakePairOnSlot(mechanism, pubT, privT, m);
    }

    // ----- signing and verifying -----

    /** `C_SignInit` on the session found in cell `i`, under its lock. */
    method SignInitAt(i: nat, mechanism: nat, key: nat) returns (rv: Rv)
      requires Valid() && i < MAX_SESSIONS && sessions.sessions[i] != null && sessions.SessionAt(i)
      requires SessionLock(sessions.sessions[i].handle) in thread.held
      modifies sessions, sessions.Repr
      ensures Valid() && Outcome(Model(), Just(rv)) == SignInitFound(old(Model()), i, mechanism, key)
    {
      if sessions.sessions[i].opActive { return OperationActive; }
      var k := objects.Find(key);
      if k == MAX_OBJECTS { return ObjectHandleInvalid; }
      if objects.objects[k].kind != TYPE_PRIVATE_KEY { return KeyTypeInconsistent; }
      if !objects.objects[k].canSign { return KeyFunctionNotPermitted; }
      if mechanism !in SUPPORTED { return MechanismInvalid; }
      sessions.StartOperationAt(i, SignOperation, mechanism, key, thread);
      rv := OK;
    }

    method SignInit(h: nat, mechanism: nat, key: nat) returns (rv: Rv)
      requires Ready()
      modifies sessions, sessions.Repr, thread
      ensures Ready()
      ensures thread.ops == old(thread.ops) + OnSession(old(Model()), h, [])
      ensures Outcome(Model(), Just(rv)) == SignInitStep(old(Model()), h, mechanism, key)
    {
      var i;
      i, rv := FindSession(h);
      if rv != OK { return; }
      Bracket(thread.ops, SessionLock(h));
      thread.Lock(SessionLock(h));
      rv := SignInitAt(i, mechanism, key);
      thread.Unlock(SessionLock(h));
    }

    /** `C_Sign` on the session found in cell `i`, under its lock; `r` is what `hsm_sign_data` gave, if it ran. */
    method SignAt(c: Crypto, i: nat, data: Bytes, room: nat, nonce: nat) returns (rv: Rv, r: Option<Signed>)
      requires Valid() && i < MAX_SESSIONS && sessions.sessions[i] != null && sessions.SessionAt(i)
      requires SessionLock(sessions.sessions[i].handle) in thread.held
      modifies sessions, sessions.Repr
      ensures Valid()
      ensures Outcome(Model(), SignReply(rv, r)) == SignFound(c, old(Model()), i, data, room, nonce)
    {
      var session: SessionRecord := sessions.sessions[i];
      r := None;
      if !session.opActive || session.opKind != SignOperation { return OperationNotInitialized, r; }
      var k := objects.Find(session.opKey);
      if k == MAX_OBJECTS {
        sessions.AbortOperationAt(i, thread);
        return ObjectHandleInvalid, r;
      }
      var key: ObjectRecord := objects.objects[k];
      var signed := if key.kind != TYPE_PRIVATE_KEY then Signed(KeyTypeInconsistent, [], room)
                    else c.sign(key.key, session.opMechanism, data, room, nonce);
      sessions.EndOperationAt(i, thread);
      rv, r := signed.rv, Some(signed);
    }

    method Sign(c: Crypto, h: nat, data: Option<Bytes>, room: nat, nonce: nat)
      returns (rv: Rv, r: Option<Signed>)
      requires Ready()
      modifies sessions, sessions.Repr, thread
      ensures Ready()
      ensures thread.ops == old(thread.ops) + SignLocks(old(Model()), h, data)
      ensures Outcome(Model(), SignReply(rv, r)) == SignStep(c, old(Model()), h, data, room, nonce)
    {
      var i;
      r := None;
      if data.None? { return ArgumentsBad, r; }
      i, rv := FindSession(h);
      if rv != OK { return; }
      Bracket(thread.ops, SessionLock(h));
      thread.Lock(SessionLock(h));
      rv, r := SignAt(c, i, data.value, room, nonce);
      thread.Unlock(SessionLock(h));
    }

    method VerifyInit(h: nat, mechanism: nat, key: nat) returns (rv: Rv)
      requires Ready()
      modifies sessions, sessions.Repr, thread
      ensures Ready()
      ensures thread.ops == old(thread.ops) + OnSession(old(Model()), h, [])
      ensures Outcome(Model(), Just(rv)) == VerifyInitStep(old(Model()), h, mechanism, key)
    {
      var i;
      i, rv := FindSession(h);
      if rv != OK { return; }
      Bracket(thread.ops, SessionLock(h));
      thread.Lock(SessionLock(h));
      rv := VerifyInitAt(i, mechanism, key);
      thread.Unlock(SessionLock(h));
    }

    method VerifyInitAt(i: nat, mechanism: nat, key: nat) returns (rv: Rv)
      requires Valid() && i < MAX_SESSIONS && sessions.sessions[i] != null && sessions.SessionAt(i)
      requires SessionLock(sessions.sessions[i].handle) in thread.held
      modifies sessions, sessions.Repr
      ensures Valid() && Outcome(Model(), Just(rv)) == VerifyInitFound(old(Model()), i, mechanism, key)
    {
      if sessions.sessions[i].opActive { return OperationActive; }
      var k := objects.Find(key);
      if k == MAX_OBJECTS { return ObjectHandleInvalid; }
      if objects.objects[k].kind != TYPE_PUBLIC_KEY { return KeyTypeInconsistent; }
      sessions.StartOperationAt(i, VerifyOperation, mechanism, key, thread);
      rv := OK;
    }

    method VerifyAt(i: nat) returns (rv: Rv)
      requires Valid() && i < MAX_SESSIONS && sessions.sessions[i] != null && sessions.SessionAt(i)
      requires SessionLock(sessions.sessions[i].handle) in thread.held
      modifies sessions, sessions.Repr
      ensures Valid() && Outcome(Model(), Just(rv)) == VerifyFound(old(Model()), i)
    {
      var session: SessionRecord := sessions.sessions[i];
      if !session.opActive || session.opKind != VerifyOperation { return OperationNotInitialized; }
      var k := objects.Find(session.opKey);
      if k == MAX_OBJECTS {
        sessions.AbortOperationAt(i, thread);
        return ObjectHandleInvalid;
      }
      sessions.EndOperationAt(i, thread);
      rv := FunctionNotSupported;
    }

    method Verify(h: nat, data: Option<Bytes>, signature: Option<Bytes>) returns (rv: Rv)
      requires Ready()
      modifies sessions, sessions.Repr, thread
      ensures Ready()
      ensures thread.ops == old(thread.ops) + VerifyLocks(old(Model()), h, data, signature)
      ensures Outcome(Model(), Just(rv)) == VerifyStep(old(Model()), h, data, signature)
    {
      var i;
      if data.None? || signature.None? { return ArgumentsBad; }
      i, rv := FindSession(h);
      if rv != OK { return; }
      Bracket(thread.ops, SessionLock(h));
      thread.Lock(SessionLock(h));
      rv := VerifyAt(i);
      thread.Unlock(SessionLock(h));
    }
  }

  function SignReply(rv: Rv, r: Option<Signed>): Reply {
    if r.None? then Just(rv) else Reply(rv, Signature(r.value.signature, r.value.length))
  }
}
