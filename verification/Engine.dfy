/**
 The token engine as a state machine: one slot with its token fields, PIN retry state, session table
 and object table, the two allocation counters, and the disk. `Step` gives the new state and the reply
 of every API call. OpenSSL is a parameter (`Crypto`), and so is the material a key generation yields.
 */
module Engine {
  import opened Common
  import opened Tables
  import opened Objects
  import opened Storage
  import opened KeyFileNames

  const CKU_SO: nat := 0
  const CKU_USER: nat := 1
  const CKF_RW_SESSION: nat := 2
  const CKF_SERIAL_SESSION: nat := 4

  const CKM_RSA_PKCS_KEY_PAIR_GEN: nat := 0x0000
  const CKM_EC_KEY_PAIR_GEN: nat := 0x1040

  /** The mechanisms `hsm_check_mechanism_supported` accepts. */
  const SUPPORTED: set<nat> := {
    0x0000, 0x0001, 0x000D, 0x0040, 0x0041, 0x0042, 0x0043, 0x0044, 0x0045,
    0x1040, 0x1041, 0x1044, 0x1045, 0x1046, 0x0250, 0x0260, 0x0270}

  // ----- state -----

  datatype SessionState = Invalid | RoPublic | RoUser | RwPublic | RwUser | RwSo

  datatype OperationKind = NoOperation | SignOperation | VerifyOperation

  datatype Operation = Operation(kind: OperationKind, mechanism: nat, key: nat, active: bool)

  const IDLE: Operation := Operation(NoOperation, 0, 0, false)

  datatype FindData = FindData(active: bool, results: seq<nat>, count: nat, index: nat)

  /** The find cursor: the fixed result buffer, how much of it is filled, and how much was delivered. */
  type Find = f: FindData | |f.results| == MAX_FIND && f.index <= f.count <= MAX_FIND
    witness FindData(false, seq(MAX_FIND, i => 0), 0, 0)

  datatype Session = Session(
    state: SessionState, readWrite: bool, user: bool, so: bool, operation: Operation, find: Find)

  /** The retry state of one PIN. */
  datatype Tries = Tries(left: nat, locked: bool)

  const FULL_TRIES: Tries := Tries(PIN_RETRIES, false)

  datatype Role = User | SecurityOfficer

  type Sessions = t: Table<Session> | |t| == MAX_SESSIONS witness seq(MAX_SESSIONS, i => Free)

  type ObjectTable = t: Table<Object> | |t| == MAX_OBJECTS witness seq(MAX_OBJECTS, i => Free)

  /** The token fields, the PIN retry state and the token file they are written through to. */
  datatype Auth = Auth(token: TokenInfo, userTries: Tries, soTries: Tries, tokenFile: Option<Bytes>)

  /** The object table, the number of object handles issued, and the directory of key files. */
  datatype Store = Store(objects: ObjectTable, issued: nat, keyFiles: map<string, Bytes>)

  datatype State = State(up: bool, auth: Auth, sessions: Sessions, sessionsIssued: nat, store: Store)

  function NoSessions(): (t: Sessions)
    ensures AllFree(t)
  {
    seq(MAX_SESSIONS, i => Free)
  }

  function NoObjects(): (t: ObjectTable)
    ensures AllFree(t)
  {
    seq(MAX_OBJECTS, i => Free)
  }

  // ----- OpenSSL and key generation -----

  datatype Signed = Signed(rv: Rv, signature: Bytes, length: nat)

  /** SHA-256, and signing as a function of the key, mechanism, data, buffer size and randomness. */
  datatype Crypto = Crypto(hash: Bytes -> Block, sign: (KeyData, nat, Bytes, nat, nat) -> Signed)

  datatype RsaMaterial = RsaMaterial(
    modulus: Component, publicExponent: Component, privateExponent: Component, prime1: Component,
    prime2: Component, exponent1: Component, exponent2: Component, coefficient: Component)

  datatype EcMaterial = EcMaterial(point: Component, scalar: Component)

  /** What the random generator yields for one key generation, or that OpenSSL fails. */
  datatype Material = Material(succeeds: bool, rsa: RsaMaterial, ec: EcMaterial)

  // ----- calls and replies -----

  datatype Call =
    | Initialize
    | Finalize(reserved: bool)
    | InitToken(slot: nat, pin: Option<Bytes>, name: Option<Block>)
    | InitPin(session: nat, pin: Option<Bytes>)
    | SetPin(session: nat, oldPin: Option<Bytes>, newPin: Option<Bytes>)
    | OpenSession(slot: nat, flags: nat)
    | CloseSession(session: nat)
    | CloseAllSessions(slot: nat)
    | GetSessionInfo(session: nat)
    | Login(session: nat, userType: nat, pin: Option<Bytes>)
    | Logout(session: nat)
    | CreateObject(session: nat, template: Option<Template>)
    | DestroyObject(session: nat, target: nat)
    | GetAttributes(session: nat, target: nat, queries: Option<seq<ReadableQuery>>)
    | SetAttribute(session: nat, target: nat, template: Option<Template>)
    | FindInit(session: nat)
    | FindNext(session: nat, max: nat)
    | FindFinal(session: nat)
    | GenerateKeyPair(session: nat, mechanism: nat, publicTemplate: Template, privateTemplate: Template,
                      material: Material)
    | SignInit(session: nat, mechanism: nat, key: nat)
    | Sign(session: nat, data: Option<Bytes>, room: nat, nonce: nat)
    | VerifyInit(session: nat, mechanism: nat, key: nat)
    | Verify(session: nat, data: Option<Bytes>, signature: Option<Bytes>)

  datatype SessionInfo = SessionInfo(slot: nat, flags: nat, state: nat)

  datatype Out =
    | Nothing
    | Handle(handle: nat)
    | KeyPair(publicKey: nat, privateKey: nat)
    | Found(handles: seq<nat>)
    | Info(info: SessionInfo)
    | Attributes(entries: seq<Query>)
    | Signature(signature: Bytes, length: nat)

  datatype Reply = Reply(rv: Rv, out: Out)

  /** The state a call leaves and what it returns. */
  datatype Outcome = Outcome(state: State, reply: Reply)

  function Just(rv: Rv): Reply {
    Reply(rv, Nothing)
  }

  // ----- handles -----

  /** The per-type base of object handles; types outside the enumeration have none. */
  function HandleBase(kind: nat): nat {
    if kind == TYPE_PUBLIC_KEY then 0x1000_0000
    else if kind == TYPE_PRIVATE_KEY then 0x2000_0000
    else if kind == TYPE_CERTIFICATE then 0x3000_0000
    else if kind == TYPE_DATA then 0x4000_0000
    else 0
  }

  /** The static `uint32_t` counter, which starts at 1, after `issued` object handles. */
  function ObjectCounter(issued: nat): nat {
    (1 + issued) % TWO32
  }

  function ObjectHandle(kind: nat, issued: nat): nat {
    HandleBase(kind) + ObjectCounter(issued)
  }

  /** The two handles a key pair gets, public first. */
  function PairHandles(issued: nat): Out {
    KeyPair(ObjectHandle(TYPE_PUBLIC_KEY, issued), ObjectHandle(TYPE_PRIVATE_KEY, issued + 1))
  }

  function SessionHandle(issued: nat): nat {
    (1 + issued) % TWO64
  }

  // ----- lookup -----

  datatype Lookup = At(i: nat) | Missing(rv: Rv)

  /** `hsm_get_session`. */
  function GetSession(s: State, h: nat): (r: Lookup)
    ensures r.At? ==> s.up && r.i < MAX_SESSIONS && s.sessions[r.i].Used? && s.sessions[r.i].handle == h
  {
    if !s.up then Missing(NotInitialized)
    else
      var i := IndexOf(s.sessions, h);
      if i < MAX_SESSIONS then At(i) else Missing(SessionHandleInvalid)
  }

  /** `hsm_get_object`. */
  function GetObject(st: Store, h: nat): (r: Lookup)
    ensures r.At? ==> r.i < MAX_OBJECTS && st.objects[r.i].Used? && st.objects[r.i].handle == h
  {
    var i := IndexOf(st.objects, h);
    if i < MAX_OBJECTS then At(i) else Missing(ObjectHandleInvalid)
  }

  function PutSession(s: State, i: nat, ses: Session): State
    requires i < MAX_SESSIONS && s.sessions[i].Used?
  {
    s.(sessions := SetItem(s.sessions, i, ses))
  }

  // ----- start and stop -----

  function StartedAuth(a: Auth): Auth {
    Auth(LoadToken(a.tokenFile, BLANK_TOKEN), FULL_TRIES, FULL_TRIES, a.tokenFile)
  }

  function InitializeStep(s: State): Outcome {
    if s.up then Outcome(s, Just(AlreadyInitialized))
    else
      Outcome(s.(up := true, auth := StartedAuth(s.auth), sessions := NoSessions(),
                 store := s.store.(objects := NoObjects())), Just(OK))
  }

  function FinalizeStep(s: State, reserved: bool): Outcome {
    if reserved then Outcome(s, Just(ArgumentsBad))
    else if !s.up then Outcome(s, Just(NotInitialized))
    else
      Outcome(s.(up := false, sessions := NoSessions(), store := s.store.(objects := NoObjects())), Just(OK))
  }

  // ----- PINs -----

  function TriesOf(a: Auth, role: Role): Tries {
    if role == User then a.userTries else a.soTries
  }

  function PutTries(a: Auth, role: Role, t: Tries): Auth {
    if role == User then a.(userTries := t) else a.(soTries := t)
  }

  function PinSet(t: TokenInfo, role: Role): bool {
    if role == User then t.userPinSet else t.soPinSet
  }

  function PinHash(t: TokenInfo, role: Role): Block {
    if role == User then t.userHash else t.soHash
  }

  function PutHash(t: TokenInfo, role: Role, h: Block): TokenInfo {
    if role == User then t.(userHash := h) else t.(soHash := h)
  }

  predicate PinLengthOk(pin: Bytes) {
    MIN_PIN <= |pin| <= MAX_PIN
  }

  function SaveToken(a: Auth): Auth {
    a.(tokenFile := Some(EncodeToken(a.token)))
  }

  datatype PinCheck = PinCheck(auth: Auth, rv: Rv)

  /** `hsm_verify_pin`. */
  function VerifyPin(c: Crypto, a: Auth, role: Role, pin: Bytes): PinCheck {
    var t := TriesOf(a, role);
    if !PinSet(a.token, role) then PinCheck(a, UserPinNotInitialized)
    else if t.locked then PinCheck(a, PinLocked)
    else if c.hash(pin) != PinHash(a.token, role) then
      var left := if t.left > 0 then t.left - 1 else t.left;
      PinCheck(PutTries(a, role, Tries(left, left == 0)), if left == 0 then PinLocked else PinIncorrect)
    else PinCheck(PutTries(a, role, t.(left := PIN_RETRIES)), OK)
  }

  /** The label `C_InitToken` stores: as many of the caller's bytes as the PIN is long, then blanks. */
  function TokenName(pin: Bytes, name: Block): (r: Block)
    ensures forall k :: 0 <= k < 32 ==> r[k] == if k < |pin| then name[k] else 0x20
  {
    Overlay(name[..Min(|pin|, 32)], seq(32, i => 0x20))
  }

  function TokenStored(c: Crypto, a: Auth, pin: Bytes, name: Block): Auth {
    var t := a.token.(initialized := true, soPinSet := true, userPinSet := false,
                      soHash := c.hash(pin), name := TokenName(pin, name));
    SaveToken(a.(token := t, userTries := FULL_TRIES, soTries := FULL_TRIES))
  }

  function InitTokenStep(c: Crypto, s: State, slot: nat, pin: Option<Bytes>, name: Option<Block>): Outcome {
    if pin.None? || name.None? then Outcome(s, Just(ArgumentsBad))
    else if !PinLengthOk(pin.value) then Outcome(s, Just(PinLenRange))
    else if !s.up then Outcome(s, Just(NotInitialized))
    else if slot >= 1 then Outcome(s, Just(SlotIdInvalid))
    else Outcome(s.(auth := TokenStored(c, s.auth, pin.value, name.value)), Just(OK))
  }

  function UserPinStored(c: Crypto, a: Auth, pin: Bytes): Auth {
    SaveToken(a.(token := a.token.(userHash := c.hash(pin), userPinSet := true), userTries := FULL_TRIES))
  }

  function InitPinStep(c: Crypto, s: State, h: nat, pin: Option<Bytes>): Outcome {
    if pin.None? then Outcome(s, Just(ArgumentsBad))
    else if !PinLengthOk(pin.value) then Outcome(s, Just(PinLenRange))
    else match GetSession(s, h)
      case Missing(rv) => Outcome(s, Just(rv))
      case At(i) =>
        if !s.sessions[i].item.so then Outcome(s, Just(UserNotLoggedIn))
        else Outcome(s.(auth := UserPinStored(c, s.auth, pin.value)), Just(OK))
  }

  /** `C_SetPIN` for the role that is logged in. */
  function PinChanged(c: Crypto, a: Auth, role: Role, oldPin: Bytes, newPin: Bytes): PinCheck {
    var PinCheck(b, rv) := VerifyPin(c, a, role, oldPin);
    if rv != OK then PinCheck(b, rv)
    else
      var w := b.(token := PutHash(b.token, role, c.hash(newPin)));
      PinCheck(SaveToken(PutTries(w, role, TriesOf(w, role).(left := PIN_RETRIES))), OK)
  }

  function SetPinStep(c: Crypto, s: State, h: nat, oldPin: Option<Bytes>, newPin: Option<Bytes>): Outcome {
    if oldPin.None? || newPin.None? then Outcome(s, Just(ArgumentsBad))
    else if !PinLengthOk(newPin.value) then Outcome(s, Just(PinLenRange))
    else match GetSession(s, h)
      case Missing(rv) => Outcome(s, Just(rv))
      case At(i) =>
        var ses := s.sessions[i].item;
        if !ses.user && !ses.so then Outcome(s, Just(UserNotLoggedIn))
        else
          var role := if ses.user then User else SecurityOfficer;
          var PinCheck(a, rv) := PinChanged(c, s.auth, role, oldPin.value, newPin.value);
          Outcome(s.(auth := a), Just(rv))
  }

  // ----- sessions -----

  function PublicState(readWrite: bool): SessionState {
    if readWrite then RwPublic else RoPublic
  }

  function FreshSession(readWrite: bool): Session {
    Session(PublicState(readWrite), readWrite, false, false, IDLE,
            FindData(false, seq(MAX_FIND, i => 0), 0, 0))
  }

  /** The session a handle names; a fresh one stands for none. */
  function NamedSession(s: State, h: nat): Session {
    match GetSession(s, h)
    case At(i) => s.sessions[i].item
    case Missing(_) => FreshSession(false)
  }

  predicate HasFlag(flags: nat, flag: nat)
    requires flag > 0
  {
    (flags / flag) % 2 == 1
  }

  function OpenSessionStep(s: State, slot: nat, flags: nat): Outcome {
    if !s.up then Outcome(s, Just(NotInitialized))
    else if slot >= 1 then Outcome(s, Just(SlotIdInvalid))
    else if !HasFlag(flags, CKF_SERIAL_SESSION) then Outcome(s, Just(SessionParallelNotSupported))
    else if Count(s.sessions) >= MAX_SESSIONS then Outcome(s, Just(SessionCount))
    else
      FreeCellExists(s.sessions);
      var h := SessionHandle(s.sessionsIssued);
      var ses := FreshSession(HasFlag(flags, CKF_RW_SESSION));
      Outcome(s.(sessions := s.sessions[FreeFrom(s.sessions, 0) := Used(h, ses)],
          sessionsIssued := s.sessionsIssued + 1), Reply(OK, Handle(h)))
  }

  function CloseSessionStep(s: State, h: nat): Outcome {
    match GetSession(s, h)
    case Missing(rv) => Outcome(s, Just(rv))
    case At(i) => Outcome(s.(sessions := s.sessions[i := Free]), Just(OK))
  }

  function CloseAllStep(s: State, slot: nat): Outcome {
    if !s.up then Outcome(s, Just(NotInitialized))
    else if slot >= 1 then Outcome(s, Just(SlotIdInvalid))
    else Outcome(s, Just(OK))
  }

  /** The CKS_* code reported for a session state; the last line is the switch's default branch. */
  function StateCode(state: SessionState): nat {
    match state
    case RoPublic => 0
    case RoUser => 1
    case RwPublic => 2
    case RwUser => 3
    case RwSo => 4
    case Invalid => 2
  }

  function GetSessionInfoStep(s: State, h: nat): Outcome {
    match GetSession(s, h)
    case Missing(rv) => Outcome(s, Just(rv))
    case At(i) =>
      var ses := s.sessions[i].item;
      var flags := if ses.readWrite then CKF_SERIAL_SESSION + CKF_RW_SESSION else CKF_SERIAL_SESSION;
      Outcome(s, Reply(OK, Info(SessionInfo(0, flags, StateCode(ses.state)))))
  }

  function LoggedIn(ses: Session, role: Role): Session {
    if role == SecurityOfficer then ses.(so := true, state := RwSo)
    else ses.(user := true, state := if ses.readWrite then RwUser else RoUser)
  }

  /** `C_Login` on the session in cell `i`. */
  function LoginFound(c: Crypto, s: State, i: nat, role: Role, pin: Bytes): Outcome
    requires i < MAX_SESSIONS && s.sessions[i].Used?
  {
    var ses := s.sessions[i].item;
    if ses.user || ses.so then Outcome(s, Just(UserAlreadyLoggedIn))
    else if role == SecurityOfficer && !ses.readWrite then Outcome(s, Just(SessionReadOnly))
    else
      var PinCheck(a, rv) := VerifyPin(c, s.auth, role, pin);
      var v := s.(auth := a);
      Outcome(if rv == OK then PutSession(v, i, LoggedIn(ses, role)) else v, Just(rv))
  }

  function LoginStep(c: Crypto, s: State, h: nat, userType: nat, pin: Option<Bytes>): Outcome {
    if pin.None? then Outcome(s, Just(ArgumentsBad))
    else if userType != CKU_SO && userType != CKU_USER then Outcome(s, Just(UserTypeInvalid))
    else match GetSession(s, h)
      case Missing(rv) => Outcome(s, Just(rv))
      case At(i) => LoginFound(c, s, i, if userType == CKU_SO then SecurityOfficer else User, pin.value)
  }

  function LoggedOut(ses: Session): Session {
    ses.(user := false, so := false, state := PublicState(ses.readWrite))
  }

  function LogoutFound(s: State, i: nat): Outcome
    requires i < MAX_SESSIONS && s.sessions[i].Used?
  {
    var ses := s.sessions[i].item;
    if !ses.user && !ses.so then Outcome(s, Just(UserNotLoggedIn))
    else Outcome(PutSession(s, i, LoggedOut(ses)), Just(OK))
  }

  function LogoutStep(s: State, h: nat): Outcome {
    match GetSession(s, h)
    case Missing(rv) => Outcome(s, Just(rv))
    case At(i) => LogoutFound(s, i)
  }

  // ----- objects -----

  /** `hsm_storage_save_object`: only token objects are written. */
  function SaveObject(files: map<string, Bytes>, h: nat, o: Object): map<string, Bytes> {
    if o.isToken then files[KeyFileName(h) := EncodeObject(h, o)] else files
  }

  function DeleteObject(files: map<string, Bytes>, h: nat, o: Object): map<string, Bytes> {
    if o.isToken then files - {KeyFileName(h)} else files
  }

  /** The store an object call leaves and what the call returns. */
  datatype Stored = Stored(store: Store, reply: Reply)

  /** `hsm_create_object`. */
  function CreateIn(st: Store, template: Template): Stored {
    if Count(st.objects) >= MAX_OBJECTS then Stored(st, Just(HostMemory))
    else
      FreeCellExists(st.objects);
      var o := ParseTemplate(Blank(TYPE_DATA, false, false), template);
      var g := ObjectHandle(o.kind, st.issued);
      Stored(Store(st.objects[FreeFrom(st.objects, 0) := Used(g, o)], st.issued + 1, SaveObject(st.keyFiles, g, o)),
             Reply(OK, Handle(g)))
  }

  function CreateObjectStep(s: State, h: nat, template: Option<Template>): Outcome {
    if template.None? then Outcome(s, Just(ArgumentsBad))
    else match GetSession(s, h)
      case Missing(rv) => Outcome(s, Just(rv))
      case At(_) =>
        var Stored(st, r) := CreateIn(s.store, template.value);
        Outcome(s.(store := st), r)
  }

  /** `hsm_destroy_object`. */
  function DestroyIn(st: Store, target: nat): Stored {
    match GetObject(st, target)
    case Missing(rv) => Stored(st, Just(rv))
    case At(k) =>
      Stored(st.(objects := st.objects[k := Free],
                 keyFiles := DeleteObject(st.keyFiles, target, st.objects[k].item)), Just(OK))
  }

  function DestroyObjectStep(s: State, h: nat, target: nat): Outcome {
    match GetSession(s, h)
    case Missing(rv) => Outcome(s, Just(rv))
    case At(_) =>
      var Stored(st, r) := DestroyIn(s.store, target);
      Outcome(s.(store := st), r)
  }

  function GetAttributesStep(s: State, h: nat, target: nat, queries: Option<seq<ReadableQuery>>): Outcome {
    if queries.None? then Outcome(s, Just(ArgumentsBad))
    else match GetSession(s, h)
      case Missing(rv) => Outcome(s, Just(rv))
      case At(_) =>
        match GetObject(s.store, target)
        case Missing(rv) => Outcome(s, Just(rv))
        case At(k) =>
          var o := s.store.objects[k].item;
          Outcome(s, Reply(AnswerRv(o, queries.value), Attributes(AnswerAll(o, queries.value))))
  }

  /** `C_SetAttributeValue` once the session is found; no file is written. */
  function SetAttributesIn(st: Store, target: nat, template: Template): Stored {
    match GetObject(st, target)
    case Missing(rv) => Stored(st, Just(rv))
    case At(k) =>
      var (o, rv) := SetAttributes(st.objects[k].item, template);
      Stored(st.(objects := SetItem(st.objects, k, o)), Just(rv))
  }

  function SetAttributeStep(s: State, h: nat, target: nat, template: Option<Template>): Outcome {
    if template.None? then Outcome(s, Just(ArgumentsBad))
    else match GetSession(s, h)
      case Missing(rv) => Outcome(s, Just(rv))
      case At(_) =>
        var Stored(st, r) := SetAttributesIn(s.store, target, template.value);
        Outcome(s.(store := st), r)
  }

  // ----- finding objects -----

  /** The handles a search takes: the first hundred live objects in table order; nothing is matched. */
  function Snapshot(t: ObjectTable): (r: seq<nat>)
    ensures |r| == Min(Count(t), MAX_FIND)
  {
    Handles(t)[..Min(Count(t), MAX_FIND)]
  }

  /** The snapshot overwrites the front of the result buffer; the rest keeps what it had. */
  function FindStarted(f: Find, t: ObjectTable): Find {
    var hs := Snapshot(t);
    FindData(true, hs + f.results[|hs|..], |hs|, 0)
  }

  function FindInitFound(s: State, i: nat): Outcome
    requires i < MAX_SESSIONS && s.sessions[i].Used?
  {
    var ses := s.sessions[i].item;
    if ses.find.active then Outcome(s, Just(OperationActive))
    else Outcome(PutSession(s, i, ses.(find := FindStarted(ses.find, s.store.objects))), Just(OK))
  }

  function FindInitStep(s: State, h: nat): Outcome {
    match GetSession(s, h)
    case Missing(rv) => Outcome(s, Just(rv))
    case At(i) => FindInitFound(s, i)
  }

  function FindNextFound(s: State, i: nat, max: nat): Outcome
    requires i < MAX_SESSIONS && s.sessions[i].Used?
  {
    var ses := s.sessions[i].item;
    var f := ses.find;
    if !f.active then Outcome(s, Just(OperationNotInitialized))
    else
      var n := Min(max, f.count - f.index);
      Outcome(PutSession(s, i, ses.(find := f.(index := f.index + n))),
              Reply(OK, Found(f.results[f.index..f.index + n])))
  }

  function FindNextStep(s: State, h: nat, max: nat): Outcome {
    match GetSession(s, h)
    case Missing(rv) => Outcome(s, Just(rv))
    case At(i) => FindNextFound(s, i, max)
  }

  function FindEnded(f: Find): Find {
    f.(active := false, count := 0, index := 0)
  }

  function FindFinalFound(s: State, i: nat): Outcome
    requires i < MAX_SESSIONS && s.sessions[i].Used?
  {
    var ses := s.sessions[i].item;
    if !ses.find.active then Outcome(s, Just(OperationNotInitialized))
    else Outcome(PutSession(s, i, ses.(find := FindEnded(ses.find))), Just(OK))
  }

  function FindFinalStep(s: State, h: nat): Outcome {
    match GetSession(s, h)
    case Missing(rv) => Outcome(s, Just(rv))
    case At(i) => FindFinalFound(s, i)
  }

  // ----- key pairs -----

  /** The value of the first entry of the given type, or None. */
  function FirstValue(t: Template, kind: nat): (r: Option<Bytes>)
    ensures r.Some? && kind == CKA_MODULUS_BITS ==> |r.value| >= 8
  {
    if |t| == 0 then None else if t[0].kind == kind then Some(t[0].value) else FirstValue(t[1..], kind)
  }

  function RsaBits(t: Template): nat {
    var v := FirstValue(t, CKA_MODULUS_BITS);
    if v.None? then 2048 else ULong(v.value)
  }

  // OpenSSL's numbers for the three curves.
  const NID_P256: U32 := 415
  const NID_P384: U32 := 715
  const NID_P521: U32 := 716

  const OID_P256: Bytes := [0x06, 0x08, 0x2a, 0x86, 0x48, 0xce, 0x3d, 0x03, 0x01, 0x07]
  const OID_P384: Bytes := [0x06, 0x05, 0x2b, 0x81, 0x04, 0x00, 0x22]
  const OID_P521: Bytes := [0x06, 0x05, 0x2b, 0x81, 0x04, 0x00, 0x23]

  /** The curve of the first CKA_EC_PARAMS entry; P-256 when there is none or it is unknown. */
  function Curve(t: Template): U32 {
    var v := FirstValue(t, CKA_EC_PARAMS);
    if v == Some(OID_P384) then NID_P384 else if v == Some(OID_P521) then NID_P521 else NID_P256
  }

  function CurveOid(curve: U32): Component {
    if curve == NID_P384 then OID_P384 else if curve == NID_P521 then OID_P521 else OID_P256
  }

  datatype Generated = Keys(publicKey: KeyData, privateKey: KeyData) | NoKeys(rv: Rv)

  function Generate(mechanism: nat, t: Template, m: Material): Generated {
    if mechanism == CKM_RSA_PKCS_KEY_PAIR_GEN then
      var bits := RsaBits(t);
      var k := m.rsa;
      if bits != 2048 && bits != 4096 then NoKeys(KeySizeRange)
      else if !m.succeeds then NoKeys(FunctionFailed)
      else Keys(Rsa(bits, k.modulus, k.publicExponent, [], [], [], [], [], []),
                Rsa(bits, k.modulus, k.publicExponent, k.privateExponent, k.prime1, k.prime2,
                    k.exponent1, k.exponent2, k.coefficient))
    else if mechanism == CKM_EC_KEY_PAIR_GEN then
      var curve := Curve(t);
      if !m.succeeds then NoKeys(FunctionFailed)
      else Keys(Ec(curve, CurveOid(curve), m.ec.point, []), Ec(curve, CurveOid(curve), m.ec.point, m.ec.scalar))
    else NoKeys(MechanismInvalid)
  }

  function PublicHalf(t: Template, k: KeyData): Object {
    ParseTemplate(Blank(TYPE_PUBLIC_KEY, false, true), t).(key := k)
  }

  function PrivateHalf(t: Template, k: KeyData): Object {
    ParseTemplate(Blank(TYPE_PRIVATE_KEY, true, false), t).(key := k)
  }

  /** The two halves go to the two lowest free cells, under the next two handles. */
  function InstallPair(st: Store, pub: Object, priv: Object): Stored {
    var a := FreeFrom(st.objects, 0);
    if a == MAX_OBJECTS then Stored(st, Just(HostMemory))
    else
      var b := FreeFrom(st.objects, a + 1);
      if b == MAX_OBJECTS then Stored(st, Just(HostMemory))
      else
        var g := ObjectHandle(TYPE_PUBLIC_KEY, st.issued);
        var h := ObjectHandle(TYPE_PRIVATE_KEY, st.issued + 1);
        Stored(Store(st.objects[a := Used(g, pub)][b := Used(h, priv)], st.issued + 2,
                     SaveObject(SaveObject(st.keyFiles, g, pub), h, priv)), Reply(OK, KeyPair(g, h)))
  }

  /** `C_GenerateKeyPair` after the login check. */
  function PairGenerated(st: Store, mechanism: nat, pubT: Template, privT: Template, m: Material): Stored {
    match Generate(mechanism, pubT, m)
    case NoKeys(rv) => Stored(st, Just(rv))
    case Keys(pub, priv) => InstallPair(st, PublicHalf(pubT, pub), PrivateHalf(privT, priv))
  }

  function GenerateKeyPairStep(s: State, h: nat, mechanism: nat, pubT: Template, privT: Template, m: Material)
    : Outcome
  {
    match GetSession(s, h)
    case Missing(rv) => Outcome(s, Just(rv))
    case At(i) =>
      if !s.sessions[i].item.user then Outcome(s, Just(UserNotLoggedIn))
      else
        var Stored(st, r) := PairGenerated(s.store, mechanism, pubT, privT, m);
        Outcome(s.(store := st), r)
  }

  // ----- signing and verifying -----

  function SignInitFound(s: State, i: nat, mechanism: nat, key: nat): Outcome
    requires i < MAX_SESSIONS && s.sessions[i].Used?
  {
    var ses := s.sessions[i].item;
    if ses.operation.active then Outcome(s, Just(OperationActive))
    else match GetObject(s.store, key)
      case Missing(rv) => Outcome(s, Just(rv))
      case At(k) =>
        var o := s.store.objects[k].item;
        if o.kind != TYPE_PRIVATE_KEY then Outcome(s, Just(KeyTypeInconsistent))
        else if !o.canSign then Outcome(s, Just(KeyFunctionNotPermitted))
        else if mechanism !in SUPPORTED then Outcome(s, Just(MechanismInvalid))
        else Outcome(PutSession(s, i, ses.(operation := Operation(SignOperation, mechanism, key, true))), Just(OK))
  }

  function SignInitStep(s: State, h: nat, mechanism: nat, key: nat): Outcome {
    match GetSession(s, h)
    case Missing(rv) => Outcome(s, Just(rv))
    case At(i) => SignInitFound(s, i, mechanism, key)
  }

  /** `hsm_sign_data`. */
  function SignData(c: Crypto, o: Object, mechanism: nat, data: Bytes, room: nat, nonce: nat): Signed {
    if o.kind != TYPE_PRIVATE_KEY then Signed(KeyTypeInconsistent, [], room)
    else c.sign(o.key, mechanism, data, room, nonce)
  }

  function Aborted(ses: Session): Session {
    ses.(operation := ses.operation.(active := false))
  }

  function Ended(ses: Session): Session {
    ses.(operation := ses.operation.(active := false, kind := NoOperation))
  }

  function SignFound(c: Crypto, s: State, i: nat, data: Bytes, room: nat, nonce: nat): Outcome
    requires i < MAX_SESSIONS && s.sessions[i].Used?
  {
    var ses := s.sessions[i].item;
    var op := ses.operation;
    if !op.active || op.kind != SignOperation then Outcome(s, Just(OperationNotInitialized))
    else match GetObject(s.store, op.key)
      case Missing(rv) => Outcome(PutSession(s, i, Aborted(ses)), Just(rv))
      case At(k) =>
        var r := SignData(c, s.store.objects[k].item, op.mechanism, data, room, nonce);
        Outcome(PutSession(s, i, Ended(ses)), Reply(r.rv, Signature(r.signature, r.length)))
  }

  function SignStep(c: Crypto, s: State, h: nat, data: Option<Bytes>, room: nat, nonce: nat): Outcome {
    if data.None? then Outcome(s, Just(ArgumentsBad))
    else match GetSession(s, h)
      case Missing(rv) => Outcome(s, Just(rv))
      case At(i) => SignFound(c, s, i, data.value, room, nonce)
  }

  function VerifyInitFound(s: State, i: nat, mechanism: nat, key: nat): Outcome
    requires i < MAX_SESSIONS && s.sessions[i].Used?
  {
    var ses := s.sessions[i].item;
    if ses.operation.active then Outcome(s, Just(OperationActive))
    else match GetObject(s.store, key)
      case Missing(rv) => Outcome(s, Just(rv))
      case At(k) =>
        if s.store.objects[k].item.kind != TYPE_PUBLIC_KEY then Outcome(s, Just(KeyTypeInconsistent))
        else Outcome(PutSession(s, i, ses.(operation := Operation(VerifyOperation, mechanism, key, true))), Just(OK))
  }

  function VerifyInitStep(s: State, h: nat, mechanism: nat, key: nat): Outcome {
    match GetSession(s, h)
    case Missing(rv) => Outcome(s, Just(rv))
    case At(i) => VerifyInitFound(s, i, mechanism, key)
  }

  /** Verification itself is not implemented in the code and always says so. */
  function VerifyFound(s: State, i: nat): Outcome
    requires i < MAX_SESSIONS && s.sessions[i].Used?
  {
    var ses := s.sessions[i].item;
    var op := ses.operation;
    if !op.active || op.kind != VerifyOperation then Outcome(s, Just(OperationNotInitialized))
    else match GetObject(s.store, op.key)
      case Missing(rv) => Outcome(PutSession(s, i, Aborted(ses)), Just(rv))
      case At(_) => Outcome(PutSession(s, i, Ended(ses)), Just(FunctionNotSupported))
  }

  function VerifyStep(s: State, h: nat, data: Option<Bytes>, signature: Option<Bytes>): Outcome {
    if data.None? || signature.None? then Outcome(s, Just(ArgumentsBad))
    else match GetSession(s, h)
      case Missing(rv) => Outcome(s, Just(rv))
      case At(i) => VerifyFound(s, i)
  }

  // ----- one call -----

  /** The state of a process before its first `C_Initialize`, whatever the disk holds. */
  ghost predicate Boots(s: State) {
    && !s.up && AllFree(s.sessions) && s.sessionsIssued == 0
    && AllFree(s.store.objects) && s.store.issued == 0
  }

  /**
   The call returns. `C_InitToken` and `C_CloseAllSessions` close sessions while holding the slot lock
   that closing a session takes again, so with a session open they never do.
   */
  predicate Completes(s: State, call: Call) {
    match call
    case InitToken(slot, pin, name) =>
      pin.Some? && name.Some? && PinLengthOk(pin.value) && s.up && slot < 1 ==> Count(s.sessions) == 0
    case CloseAllSessions(slot) => s.up && slot < 1 ==> Count(s.sessions) == 0
    case _ => true
  }

  function Step(c: Crypto, s: State, call: Call): Outcome {
    match call
    case Initialize => InitializeStep(s)
    case Finalize(reserved) => FinalizeStep(s, reserved)
    case InitToken(slot, pin, name) => InitTokenStep(c, s, slot, pin, name)
    case InitPin(h, pin) => InitPinStep(c, s, h, pin)
    case SetPin(h, oldPin, newPin) => SetPinStep(c, s, h, oldPin, newPin)
    case OpenSession(slot, flags) => OpenSessionStep(s, slot, flags)
    case CloseSession(h) => CloseSessionStep(s, h)
    case CloseAllSessions(slot) => CloseAllStep(s, slot)
    case GetSessionInfo(h) => GetSessionInfoStep(s, h)
    case Login(h, userType, pin) => LoginStep(c, s, h, userType, pin)
    case Logout(h) => LogoutStep(s, h)
    case CreateObject(h, template) => CreateObjectStep(s, h, template)
    case DestroyObject(h, target) => DestroyObjectStep(s, h, target)
    case GetAttributes(h, target, queries) => GetAttributesStep(s, h, target, queries)
    case SetAttribute(h, target, template) => SetAttributeStep(s, h, target, template)
    case FindInit(h) => FindInitStep(s, h)
    case FindNext(h, max) => FindNextStep(s, h, max)
    case FindFinal(h) => FindFinalStep(s, h)
    case GenerateKeyPair(h, mechanism, pubT, privT, m) => GenerateKeyPairStep(s, h, mechanism, pubT, privT, m)
    case SignInit(h, mechanism, key) => SignInitStep(s, h, mechanism, key)
    case Sign(h, data, room, nonce) => SignStep(c, s, h, data, room, nonce)
    case VerifyInit(h, mechanism, key) => VerifyInitStep(s, h, mechanism, key)
    case Verify(h, data, signature) => VerifyStep(s, h, data, signature)
  }

  /** The call returns, and makes this state and this reply of `s`. */
  // Quantified over a copy: it means just what it says of `s`, but the lemmas about runs can pass it on without
  // unfolding `Step`, until one asserts `Step(c, s, call) == Outcome(after, reply)` to open it.
  ghost predicate Makes(c: Crypto, s: State, call: Call, after: State, reply: Reply) {
    forall t :: t == s ==> Completes(t, call) && Step(c, t, call) == Outcome(after, reply)
  }
}
