/** The two tables as finite maps: what each call does to the maps, and when the arrays are full. */
module Refinement {
  import opened Common
  import opened Tables
  import opened Objects
  import opened Engine
  import opened HandleSupply
  import opened Effects
  import opened Runs

  lemma ClearedIsEmpty<T>(t: Table<T>)
    requires AllFree(t)
    ensures AsMap(t) == map[]
  {
    AsMapUnique(t, map[]);
  }

  // ----- sessions -----

  /** A PIN the token accepts: it is set, not locked, and has this hash. */
  predicate Accepts(c: Crypto, a: Auth, role: Role, pin: Bytes) {
    PinSet(a.token, role) && !TriesOf(a, role).locked && c.hash(pin) == PinHash(a.token, role)
  }

  ghost predicate LiveOfKind(st: Store, key: nat, kind: nat) {
    GetObject(st, key).At? && st.objects[GetObject(st, key).i].item.kind == kind
  }

  /** When session `ses` lets a call that moves it go ahead. */
  ghost predicate Lets(c: Crypto, s: State, call: Call, ses: Session)
    requires MovesSession(call)
  {
    match call
    case Login(_, userType, pin) =>
      && pin.Some? && userType in {CKU_SO, CKU_USER} && !ses.user && !ses.so && (userType == CKU_SO ==> ses.readWrite)
      && Accepts(c, s.auth, RoleOf(userType), pin.value)
    case Logout(_) => ses.user || ses.so
    case FindInit(_) => !ses.find.active
    case FindNext(_, _) => ses.find.active
    case FindFinal(_) => ses.find.active
    case SignInit(_, mechanism, key) => !ses.operation.active && Vetted(s.store, key) && mechanism in SUPPORTED
    case Sign(_, data, _, _) => data.Some? && ses.operation.active && ses.operation.kind == SignOperation
    case VerifyInit(_, _, key) => !ses.operation.active && LiveOfKind(s.store, key, TYPE_PUBLIC_KEY)
    case Verify(_, data, signature) =>
      data.Some? && signature.Some? && ses.operation.active && ses.operation.kind == VerifyOperation
  }

  /** The key of the session's operation is still there. */
  ghost predicate KeyIsLive(s: State, ses: Session) {
    GetObject(s.store, ses.operation.key).At?
  }

  /** How the reply says that the call went ahead; Sign and Verify do so when the key has gone, too. */
  ghost predicate SaysDone(s: State, call: Call, reply: Reply, ses: Session) {
    match call
    case Sign(_, _, _, _) => if KeyIsLive(s, ses) then reply.out.Signature? else reply == Just(ObjectHandleInvalid)
    case Verify(_, _, _) => reply == Just(if KeyIsLive(s, ses) then FunctionNotSupported else ObjectHandleInvalid)
    case FindNext(_, _) => reply.rv == OK
    case _ => reply == Just(OK)
  }

  /**
   A call that moves the session it names: it goes ahead exactly when the map has a session that lets it, says so
   in its reply, and updates that one entry. Otherwise it fails and the map stays as it was.
   */
  ghost predicate MoveOnMap(c: Crypto, s: State, call: Call, reply: Reply,
                            m: map<nat, Session>, after: map<nat, Session>)
    requires MovesSession(call)
  {
    var h := call.session;
    && (ChangesSessions(call, reply) <==> s.up && h in m && Lets(c, s, call, m[h]))
    && if ChangesSessions(call, reply) then
         h in after && SaysDone(s, call, reply, m[h]) && Moves(s, call, reply, m[h], after[h]) &&
         after == m[h := after[h]]
       else reply.rv != OK && after == m
  }

  /**
   What each call does to the map from handles to sessions, exactly when it succeeds, and that it does nothing to
   the map otherwise. Nothing here speaks of cells.
   */
  ghost predicate SessionCallOnMap(c: Crypto, s: State, call: Call, reply: Reply,
                                   m: map<nat, Session>, after: map<nat, Session>)
  {
    match call
    case OpenSession(slot, flags) =>
      var fits := s.up && slot < 1 && HasFlag(flags, CKF_SERIAL_SESSION) && |m| < MAX_SESSIONS;
      && (reply.rv == OK <==> fits)
      && if fits then
           && reply.out.Handle? && reply.out.handle !in m
           && after == m[reply.out.handle := FreshSession(HasFlag(flags, CKF_RW_SESSION))]
         else after == m
    case CloseSession(h) =>
      (reply.rv == OK <==> s.up && h in m) && after == if reply.rv == OK then m - {h} else m
    case Initialize => (reply.rv == OK <==> !s.up) && after == if s.up then m else map[]
    case Finalize(reserved) =>
      (reply.rv == OK <==> s.up && !reserved) && after == if reply.rv == OK then map[] else m
    case _ => if MovesSession(call) then MoveOnMap(c, s, call, reply, m, after) else after == m
  }

  lemma InsertedSession(s: State, i: nat, ses: Session)
    requires SessionHandlesOk(s) && s.sessionsIssued + 1 < TWO64 && i < MAX_SESSIONS && s.sessions[i].Free?
    ensures var h, m := SessionHandle(s.sessionsIssued), AsMap(s.sessions);
            h !in m && AsMap(s.sessions[i := Used(h, ses)]) == m[h := ses]
  {
    var h := SessionHandle(s.sessionsIssued);
    AsMapIsTable(s.sessions);
    assert !Live(s.sessions, h);
    InsertIsMap(s.sessions, i, h, ses);
  }

  lemma CountIsSize<T>(t: Table<T>)
    requires Distinct(t)
    ensures |AsMap(t)| == Count(t)
  {
    AsMapIsTable(t);
  }

  /** `hsm_create_session` has room exactly below 64 sessions. */
  lemma OpensExactlyWhen(c: Crypto, s: State, call: Call, after: State, reply: Reply)
    requires Makes(c, s, call, after, reply) && call.OpenSession?
    ensures reply.rv == OK <==>
      s.up && call.slot < 1 && HasFlag(call.flags, CKF_SERIAL_SESSION) && Count(s.sessions) < MAX_SESSIONS
  {
    assert Step(c, s, call) == Outcome(after, reply);
  }

  lemma OpenOnMap(c: Crypto, s: State, call: Call, after: State, reply: Reply)
    requires Makes(c, s, call, after, reply) && call.OpenSession? && SessionHandlesOk(s)
    requires s.sessionsIssued < TWO64 && after.sessionsIssued < TWO64
    ensures SessionCallOnMap(c, s, call, reply, AsMap(s.sessions), AsMap(after.sessions))
  {
    CountIsSize(s.sessions);
    OpensExactlyWhen(c, s, call, after, reply);
    var e := SessionEffectOf(c, s, call, after, reply);
    assert SessionEffectIs(s, call, reply, e);
    if e.Opened? {
      InsertedSession(s, e.i, FreshSession(e.readWrite));
    }
  }

  lemma CloseOnMap(c: Crypto, s: State, call: Call, after: State, reply: Reply)
    requires Makes(c, s, call, after, reply) && call.CloseSession? && Distinct(s.sessions)
    ensures SessionCallOnMap(c, s, call, reply, AsMap(s.sessions), AsMap(after.sessions))
  {
    assert Step(c, s, call) == Outcome(after, reply);
    LookupIsMap(s.sessions, call.session);
    if GetSession(s, call.session).At? {
      RemoveIsMap(s.sessions, GetSession(s, call.session).i);
    }
  }

  lemma StartOrStopOnMap(c: Crypto, s: State, call: Call, after: State, reply: Reply)
    requires Makes(c, s, call, after, reply) && (call.Initialize? || call.Finalize?)
    ensures SessionCallOnMap(c, s, call, reply, AsMap(s.sessions), AsMap(after.sessions))
  {
    assert Step(c, s, call) == Outcome(after, reply);
    if AllFree(after.sessions) {
      ClearedIsEmpty(after.sessions);
    }
  }

  /** The same condition on the cell that the lookup finds. */
  ghost predicate LetsFound(c: Crypto, s: State, call: Call)
    requires MovesSession(call)
  {
    GetSession(s, call.session).At? && Lets(c, s, call, s.sessions[GetSession(s, call.session).i].item)
  }

  /** A call goes ahead exactly when the session found lets it, and replies accordingly. */
  ghost predicate AheadExactly(c: Crypto, s: State, call: Call, reply: Reply)
    requires MovesSession(call)
  {
    && (ChangesSessions(call, reply) <==> LetsFound(c, s, call))
    && if LetsFound(c, s, call) then SaysDone(s, call, reply, s.sessions[GetSession(s, call.session).i].item)
       else reply.rv != OK
  }

  lemma LoginAhead(c: Crypto, s: State, call: Call, after: State, reply: Reply)
    requires Makes(c, s, call, after, reply) && (call.Login? || call.Logout?)
    ensures AheadExactly(c, s, call, reply)
  {
    assert Step(c, s, call) == Outcome(after, reply);
  }

  lemma FindAhead(c: Crypto, s: State, call: Call, after: State, reply: Reply)
    requires Makes(c, s, call, after, reply) && (call.FindInit? || call.FindNext? || call.FindFinal?)
    ensures AheadExactly(c, s, call, reply)
  {
    assert Step(c, s, call) == Outcome(after, reply);
  }

  lemma SignInitAhead(c: Crypto, s: State, call: Call, after: State, reply: Reply)
    requires Makes(c, s, call, after, reply) && (call.SignInit? || call.VerifyInit?)
    ensures AheadExactly(c, s, call, reply)
  {
    assert Step(c, s, call) == Outcome(after, reply);
  }

  lemma SignAhead(c: Crypto, s: State, call: Call, after: State, reply: Reply)
    requires Makes(c, s, call, after, reply) && (call.Sign? || call.Verify?)
    ensures AheadExactly(c, s, call, reply)
  {
    assert Step(c, s, call) == Outcome(after, reply);
  }

  lemma GoesAheadExactly(c: Crypto, s: State, call: Call, after: State, reply: Reply)
    requires Makes(c, s, call, after, reply) && MovesSession(call)
    ensures AheadExactly(c, s, call, reply)
  {
    if call.Login? || call.Logout? {
      LoginAhead(c, s, call, after, reply);
    } else if call.FindInit? || call.FindNext? || call.FindFinal? {
      FindAhead(c, s, call, after, reply);
    } else if call.SignInit? || call.VerifyInit? {
      SignInitAhead(c, s, call, after, reply);
    } else {
      SignAhead(c, s, call, after, reply);
    }
  }

  lemma MovedOnMap(c: Crypto, s: State, call: Call, reply: Reply, e: SessionEffect, after: State)
    requires MovesSession(call) && Distinct(s.sessions) && AheadExactly(c, s, call, reply)
    requires SessionEffectOk(s, call, reply, e) && SessionsAfter(s, e, after)
    ensures MoveOnMap(c, s, call, reply, AsMap(s.sessions), AsMap(after.sessions))
  {
    assert SessionEffectIs(s, call, reply, e);
    AsMapIsTable(s.sessions);
    LookupIsMap(s.sessions, call.session);
    if e.Moved? {
      UpdateIsMap(s.sessions, e.i, e.ses);
    }
  }

  lemma UnmovedOnMap(s: State, call: Call, reply: Reply, e: SessionEffect, after: State)
    requires !MovesSession(call) && !call.OpenSession? && !call.CloseSession? && !call.Initialize? && !call.Finalize?
    requires SessionEffectOk(s, call, reply, e) && SessionsAfter(s, e, after)
    ensures after.sessions == s.sessions
  {
    assert SessionEffectIs(s, call, reply, e);
  }

  lemma SessionStepOnMap(c: Crypto, s: State, call: Call, after: State, reply: Reply)
    requires Makes(c, s, call, after, reply) && SessionHandlesOk(s)
    requires s.sessionsIssued < TWO64 && after.sessionsIssued < TWO64
    ensures SessionCallOnMap(c, s, call, reply, AsMap(s.sessions), AsMap(after.sessions))
  {
    if call.OpenSession? {
      OpenOnMap(c, s, call, after, reply);
    } else if call.CloseSession? {
      CloseOnMap(c, s, call, after, reply);
    } else if call.Initialize? || call.Finalize? {
      StartOrStopOnMap(c, s, call, after, reply);
    } else {
      var e := SessionEffectOf(c, s, call, after, reply);
      if MovesSession(call) {
        GoesAheadExactly(c, s, call, after, reply);
        MovedOnMap(c, s, call, reply, e, after);
      } else {
        UnmovedOnMap(s, call, reply, e, after);
      }
    }
  }

  /**
   While fewer than 2^64 sessions have been opened, the session array is a finite map from handles: in every run
   each call that changes the map succeeds exactly when the map, its arguments and the rest of the state let it,
   and does to the map exactly what its reply says; every other call leaves the map alone.
   */
  lemma SessionTableIsMap(c: Crypto, r: Run, k: nat)
    requires IsRun(c, r) && k < |r.calls| && r.states[k + 1].sessionsIssued < TWO64
    ensures SessionCallOnMap(c, r.states[k], r.calls[k], r.replies[k],
                             AsMap(r.states[k].sessions), AsMap(r.states[k + 1].sessions))
    ensures |AsMap(r.states[k].sessions)| == Count(r.states[k].sessions)
  {
    RunSound(c, r, k);
    RunCounts(c, r, k, k + 1);
    assert StepAt(c, r, k);
    SessionStepOnMap(c, r.states[k], r.calls[k], r.states[k + 1], r.replies[k]);
    AsMapIsTable(r.states[k].sessions);
  }

  /** The linear search of every reachable table finds a session exactly when the map has it. */
  lemma SessionLookupIsMap(c: Crypto, r: Run, k: nat, h: nat)
    requires IsRun(c, r) && k <= |r.calls| && r.states[k].sessionsIssued < TWO64
    ensures var s, m := r.states[k], AsMap(r.states[k].sessions);
            && (GetSession(s, h).At? <==> s.up && h in m)
            && (GetSession(s, h).At? ==> s.sessions[GetSession(s, h).i].item == m[h])
  {
    RunSound(c, r, k);
    LookupIsMap(r.states[k].sessions, h);
  }

  // ----- objects -----

  /** What `C_CreateObject` does to the map from handles to objects. */
  ghost predicate CreateOnMap(s: State, call: Call, reply: Reply, m: map<nat, Object>, after: map<nat, Object>)
    requires call.CreateObject?
  {
    var fits := call.template.Some? && GetSession(s, call.session).At? && |m| < MAX_OBJECTS;
    && (reply.rv == OK <==> fits)
    && if fits then
         && reply.out.Handle? && reply.out.handle !in m
         && after == m[reply.out.handle := ParsedObject(call.template.value)]
       else after == m
  }

  ghost predicate DestroyOnMap(s: State, call: Call, reply: Reply, m: map<nat, Object>, after: map<nat, Object>)
    requires call.DestroyObject?
  {
    && (reply.rv == OK <==> GetSession(s, call.session).At? && call.target in m)
    && after == if reply.rv == OK then m - {call.target} else m
  }

  ghost predicate RelabelOnMap(s: State, call: Call, reply: Reply, m: map<nat, Object>, after: map<nat, Object>)
    requires call.SetAttribute?
  {
    if call.template.Some? && GetSession(s, call.session).At? && call.target in m then
      var (o, rv) := SetAttributes(m[call.target], call.template.value);
      reply == Just(rv) && after == m[call.target := o]
    else reply.rv != OK && after == m
  }

  /** Two new handles name the two objects, and nothing else has changed. */
  predicate PairInserted(m: map<nat, Object>, after: map<nat, Object>, out: Out, pub: Object, priv: Object) {
    && out.KeyPair?
    && var a, b := out.publicKey, out.privateKey;
       a !in m && b !in m && a != b && after == m[a := pub][b := priv]
  }

  ghost predicate GenerateOnMap(s: State, call: Call, reply: Reply, m: map<nat, Object>, after: map<nat, Object>)
    requires call.GenerateKeyPair?
  {
    var g := Generate(call.mechanism, call.publicTemplate, call.material);
    var fits := UserOn(s, call.session) && g.Keys? && |m| + 2 <= MAX_OBJECTS;
    && (reply.rv == OK <==> fits)
    && if fits then PairInserted(m, after, reply.out, PublicHalf(call.publicTemplate, g.publicKey),
                                 PrivateHalf(call.privateTemplate, g.privateKey))
       else after == m
  }

  /**
   What each call does to the map from handles to objects, when it succeeds, and that it does nothing to the map
   otherwise.
   */
  ghost predicate ObjectCallOnMap(s: State, call: Call, reply: Reply, m: map<nat, Object>, after: map<nat, Object>) {
    if call.CreateObject? then CreateOnMap(s, call, reply, m, after)
    else if call.DestroyObject? then DestroyOnMap(s, call, reply, m, after)
    else if call.SetAttribute? then RelabelOnMap(s, call, reply, m, after)
    else if call.GenerateKeyPair? then GenerateOnMap(s, call, reply, m, after)
    else if call.Initialize? || call.Finalize? then after == if reply.rv == OK then map[] else m
    else after == m
  }

  lemma InsertedIsMap(st: Store, i: nat, kind: nat, o: Object)
    requires ObjectHandlesOk(st) && st.issued < TWO28 && i < MAX_OBJECTS && st.objects[i].Free?
    ensures ObjectHandle(kind, st.issued) !in AsMap(st.objects)
    ensures Distinct(InsertObject(st, i, kind, o).objects)
    ensures AsMap(InsertObject(st, i, kind, o).objects) == AsMap(st.objects)[ObjectHandle(kind, st.issued) := o]
  {
    var h := ObjectHandle(kind, st.issued);
    SerialOfHandle(kind, st.issued);
    assert !Live(st.objects, h);
    AsMapIsTable(st.objects);
    InsertIsMap(st.objects, i, h, o);
  }

  lemma PairedIsMap(st: Store, i: nat, j: nat, pub: Object, priv: Object)
    requires ObjectHandlesOk(st) && SecretsOk(st) && st.issued + 2 <= TWO28
    requires i < j < MAX_OBJECTS && st.objects[i].Free? && st.objects[j].Free?
    requires pub.isSensitive && !pub.isExtractable
    ensures var m := AsMap(st.objects);
            var g, h := ObjectHandle(TYPE_PUBLIC_KEY, st.issued), ObjectHandle(TYPE_PRIVATE_KEY, st.issued + 1);
            && g !in m && h !in m && g != h
            && AsMap(StoreAfter(st, Paired(i, j, pub, priv)).objects) == m[g := pub][h := priv]
  {
    var m := InsertObject(st, i, TYPE_PUBLIC_KEY, pub);
    InstallOneSound(st, i, TYPE_PUBLIC_KEY, pub);
    InsertedIsMap(st, i, TYPE_PUBLIC_KEY, pub);
    InsertedIsMap(m, j, TYPE_PRIVATE_KEY, priv);
  }

  /** `hsm_create_object` has room exactly below 1024 objects. */
  lemma CreatesExactlyWhen(c: Crypto, s: State, call: Call, after: State, reply: Reply)
    requires Makes(c, s, call, after, reply) && call.CreateObject?
    ensures reply.rv == OK <==>
      call.template.Some? && GetSession(s, call.session).At? && Count(s.store.objects) < MAX_OBJECTS
  {
    assert Step(c, s, call) == Outcome(after, reply);
  }

  lemma CreatedOnMap(c: Crypto, s: State, call: Call, after: State, reply: Reply)
    requires Makes(c, s, call, after, reply) && call.CreateObject? && ObjectHandlesOk(s.store)
    requires s.store.issued <= TWO28 && after.store.issued <= TWO28
    ensures CreateOnMap(s, call, reply, AsMap(s.store.objects), AsMap(after.store.objects))
  {
    CountIsSize(s.store.objects);
    CreatesExactlyWhen(c, s, call, after, reply);
    var e := StoreEffectOf(c, s, call, after, reply);
    assert StoreEffectIs(s, call, reply, e);
    if e.Inserted? {
      InsertedIsMap(s.store, e.i, e.o.kind, e.o);
    }
  }

  lemma DestroyedOnMap(c: Crypto, s: State, call: Call, after: State, reply: Reply)
    requires Makes(c, s, call, after, reply) && call.DestroyObject? && Distinct(s.store.objects)
    ensures DestroyOnMap(s, call, reply, AsMap(s.store.objects), AsMap(after.store.objects))
  {
    assert Step(c, s, call) == Outcome(after, reply);
    LookupIsMap(s.store.objects, call.target);
    if GetObject(s.store, call.target).At? {
      RemoveIsMap(s.store.objects, GetObject(s.store, call.target).i);
    }
  }

  lemma RelabelledOnMap(c: Crypto, s: State, call: Call, after: State, reply: Reply)
    requires Makes(c, s, call, after, reply) && call.SetAttribute? && Distinct(s.store.objects)
    ensures RelabelOnMap(s, call, reply, AsMap(s.store.objects), AsMap(after.store.objects))
  {
    assert Step(c, s, call) == Outcome(after, reply);
    LookupIsMap(s.store.objects, call.target);
    if GetObject(s.store, call.target).At? && call.template.Some? {
      var i := GetObject(s.store, call.target).i;
      UpdateIsMap(s.store.objects, i, SetAttributes(s.store.objects[i].item, call.template.value).0);
    }
  }

  /** When the two scans find two cells. */
  lemma TwoCellsExactlyWhen(t: ObjectTable)
    ensures var a := FreeFrom(t, 0);
            Count(t) <= MAX_OBJECTS - 2 <==> a < MAX_OBJECTS && FreeFrom(t, a + 1) < MAX_OBJECTS
  {
    FreeCellExists(t);
    var a := FreeFrom(t, 0);
    if a < MAX_OBJECTS {
      TwoFreeCells(t, a);
    }
  }

  lemma InstallsExactlyWhen(st: Store, pub: Object, priv: Object)
    ensures var r := InstallPair(st, pub, priv);
            && (r.reply.rv == OK <==> Count(st.objects) + 2 <= MAX_OBJECTS) && (r.reply.rv != OK ==> r.store == st)
  {
    TwoCellsExactlyWhen(st.objects);
  }

  lemma PairOnMap(st: Store, e: StoreEffect)
    requires ObjectHandlesOk(st) && SecretsOk(st) && e.Paired? && StoreInRange(st, e)
    requires st.objects[e.i].Free? && st.objects[e.j].Free? && StoreAfter(st, e).issued <= TWO28
    requires e.pub.isSensitive && !e.pub.isExtractable
    ensures PairInserted(AsMap(st.objects), AsMap(StoreAfter(st, e).objects), PairHandles(st.issued), e.pub, e.priv)
  {
    PairedIsMap(st, e.i, e.j, e.pub, e.priv);
  }

  /** Installing a pair, on the map. */
  lemma InstalledOnMap(st: Store, pub: Object, priv: Object)
    requires ObjectHandlesOk(st) && SecretsOk(st)
    requires st.issued <= TWO28 && InstallPair(st, pub, priv).store.issued <= TWO28
    requires pub.isSensitive && !pub.isExtractable
    ensures var m := AsMap(st.objects);
            var Stored(u, reply) := InstallPair(st, pub, priv);
            && (reply.rv == OK <==> |m| + 2 <= MAX_OBJECTS)
            && if reply.rv == OK then PairInserted(m, AsMap(u.objects), reply.out, pub, priv) else u == st
  {
    CountIsSize(st.objects);
    InstallsExactlyWhen(st, pub, priv);
    var e := PairEffect(st, pub, priv);
    if e.Paired? {
      PairOnMap(st, e);
    }
  }

  lemma GeneratedOnMap(c: Crypto, s: State, call: Call, after: State, reply: Reply)
    requires Makes(c, s, call, after, reply) && call.GenerateKeyPair? && ObjectHandlesOk(s.store) && SecretsOk(s.store)
    requires s.store.issued <= TWO28 && after.store.issued <= TWO28
    ensures GenerateOnMap(s, call, reply, AsMap(s.store.objects), AsMap(after.store.objects))
  {
    GenerateIsInstall(c, s, call, after, reply);
    var g := Generate(call.mechanism, call.publicTemplate, call.material);
    if UserOn(s, call.session) && g.Keys? {
      InstalledOnMap(s.store, PublicHalf(call.publicTemplate, g.publicKey),
                     PrivateHalf(call.privateTemplate, g.privateKey));
    }
  }

  lemma OtherwiseOnMap(s: State, call: Call, after: State, reply: Reply, e: StoreEffect)
    requires StoreEffectOk(s, call, reply, e) && after.store == StoreAfter(s.store, e)
    requires !call.CreateObject? && !call.DestroyObject? && !call.SetAttribute? && !call.GenerateKeyPair?
    ensures ObjectCallOnMap(s, call, reply, AsMap(s.store.objects), AsMap(after.store.objects))
  {
    assert StoreEffectIs(s, call, reply, e);
    if e.StoreCleared? {
      ClearedIsEmpty(after.store.objects);
    }
  }

  lemma ObjectStepOnMap(c: Crypto, s: State, call: Call, after: State, reply: Reply)
    requires Makes(c, s, call, after, reply) && ObjectHandlesOk(s.store) && SecretsOk(s.store)
    requires s.store.issued <= TWO28 && after.store.issued <= TWO28
    ensures ObjectCallOnMap(s, call, reply, AsMap(s.store.objects), AsMap(after.store.objects))
  {
    if call.CreateObject? {
      CreatedOnMap(c, s, call, after, reply);
    } else if call.DestroyObject? {
      DestroyedOnMap(c, s, call, after, reply);
    } else if call.SetAttribute? {
      RelabelledOnMap(c, s, call, after, reply);
    } else if call.GenerateKeyPair? {
      GeneratedOnMap(c, s, call, after, reply);
    } else {
      var e := StoreEffectOf(c, s, call, after, reply);
      OtherwiseOnMap(s, call, after, reply, e);
    }
  }

  /** The same for the object array, while at most 2^28 object handles have been issued. */
  lemma ObjectTableIsMap(c: Crypto, r: Run, k: nat)
    requires IsRun(c, r) && k < |r.calls| && r.states[k + 1].store.issued <= TWO28
    ensures ObjectCallOnMap(r.states[k], r.calls[k], r.replies[k],
                            AsMap(r.states[k].store.objects), AsMap(r.states[k + 1].store.objects))
    ensures |AsMap(r.states[k].store.objects)| == Count(r.states[k].store.objects)
  {
    RunSound(c, r, k);
    RunCounts(c, r, k, k + 1);
    assert StepAt(c, r, k);
    ObjectStepOnMap(c, r.states[k], r.calls[k], r.states[k + 1], r.replies[k]);
    AsMapIsTable(r.states[k].store.objects);
  }

  // ----- full tables -----

  /** Opening is refused for lack of room exactly when all 64 cells are taken. */
  lemma OpenRefusedExactlyWhenFull(s: State, flags: nat)
    requires s.up && HasFlag(flags, CKF_SERIAL_SESSION)
    ensures OpenSessionStep(s, 0, flags).reply.rv == SessionCount <==>
      forall i :: 0 <= i < MAX_SESSIONS ==> s.sessions[i].Used?
    ensures OpenSessionStep(s, 0, flags).reply.rv == OK <==> exists i :: 0 <= i < MAX_SESSIONS && s.sessions[i].Free?
  {
    CountExtremes(s.sessions);
  }

  /** Creating is refused exactly when all 1024 cells are taken; otherwise the lowest free cell gets the object. */
  lemma CreateRefusedExactlyWhenFull(st: Store, t: Template)
    ensures CreateIn(st, t).reply.rv == HostMemory <==> forall i :: 0 <= i < MAX_OBJECTS ==> st.objects[i].Used?
    ensures CreateIn(st, t).reply.rv == OK ==>
      exists i :: 0 <= i < MAX_OBJECTS && st.objects[i].Free? && CreateIn(st, t).store.objects[i].Used? &&
                  forall k :: 0 <= k < i ==> st.objects[k].Used?
  {
    CountExtremes(st.objects);
    FreeCellExists(st.objects);
    if CreateIn(st, t).reply.rv == OK {
      var i := FreeFrom(st.objects, 0);
      assert st.objects[i].Free? && CreateIn(st, t).store.objects[i].Used?;
    }
  }

  /** `after` is `t` with the two objects in its two lowest free cells, in that order. */
  ghost predicate FillsLowestTwo(t: ObjectTable, after: ObjectTable, first: Object, second: Object) {
    exists a, b ::
      && 0 <= a < b < MAX_OBJECTS && t[a].Free? && t[b].Free?
      && (forall k :: 0 <= k < b && k != a ==> t[k].Used?)
      && after[a].Used? && after[a].item == first && after[b].Used? && after[b].item == second
      && forall k :: 0 <= k < MAX_OBJECTS && k != a && k != b ==> after[k] == t[k]
  }

  lemma FillsTwo(t: ObjectTable, a: nat, b: nat, g: nat, h: nat, first: Object, second: Object)
    requires a == FreeFrom(t, 0) < MAX_OBJECTS && b == FreeFrom(t, a + 1) < MAX_OBJECTS
    ensures var after := t[a := Used(g, first)][b := Used(h, second)];
            FillsLowestTwo(t, after, first, second) && Count(after) == Count(t) + 2
  {
    var one := t[a := Used(g, first)];
    var after := one[b := Used(h, second)];
    CountUpdate(t, a, Used(g, first));
    CountUpdate(one, b, Used(h, second));
    assert forall k :: 0 <= k < b && k != a ==> t[k].Used?;
    assert after[a] == Used(g, first) && after[b] == Used(h, second);
  }

  lemma InstalledFillsTwo(st: Store, pub: Object, priv: Object)
    requires InstallPair(st, pub, priv).reply.rv == OK
    ensures var u := InstallPair(st, pub, priv).store;
            FillsLowestTwo(st.objects, u.objects, pub, priv) && Count(u.objects) == Count(st.objects) + 2
  {
    var a := FreeFrom(st.objects, 0);
    FillsTwo(st.objects, a, FreeFrom(st.objects, a + 1), ObjectHandle(TYPE_PUBLIC_KEY, st.issued),
             ObjectHandle(TYPE_PRIVATE_KEY, st.issued + 1), pub, priv);
  }

  /**
   A generated pair is refused exactly when more than 1022 cells are taken, and then neither the table nor the
   handle counter nor a file has changed; otherwise the two lowest free cells are filled, public half first.
   */
  lemma PairRefusedExactlyWhenFull(st: Store, pub: Object, priv: Object)
    ensures var r := InstallPair(st, pub, priv);
            && (r.reply.rv == HostMemory <==> Count(st.objects) > MAX_OBJECTS - 2)
            && (r.reply.rv == HostMemory ==> r.store == st)
            && (r.reply.rv != HostMemory ==> r.reply.rv == OK && Count(r.store.objects) == Count(st.objects) + 2)
            && (r.reply.rv != HostMemory ==> FillsLowestTwo(st.objects, r.store.objects, pub, priv))
  {
    InstallsExactlyWhen(st, pub, priv);
    if InstallPair(st, pub, priv).reply.rv == OK {
      InstalledFillsTwo(st, pub, priv);
    }
  }
}
