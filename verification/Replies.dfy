/**
 The code every call returns, told from the history of the run: which PINs were set and offered, which logins, searches
 and operations were started and ended on the session, and which sessions and objects are there.
 */
module Replies {
  import opened Common
  import opened Tables
  import opened Objects
  import opened Engine
  import opened Effects
  import opened Runs
  import opened Attributes
  import opened KeyRequests
  import opened SessionHistory
  import opened TokenHistory
  import opened Lockout
  import opened Refinement

  // ----- sessions and PINs by history -----

  /** `hsm_get_session`: OK when the session is there. */
  ghost function SessionCode(s: State, h: nat): Rv {
    if !s.up then NotInitialized else if !Live(s.sessions, h) then SessionHandleInvalid else OK
  }

  /** Somebody is logged in on session `h`. */
  ghost predicate AnyoneIn(r: Run, k: nat, h: nat)
    requires k <= |r.calls| == |r.replies|
  {
    IsUp(r, k, h, UserIn) || IsUp(r, k, h, OfficerIn)
  }

  /** An operation of either kind is under way on session `h`. */
  ghost predicate Busy(r: Run, k: nat, h: nat)
    requires k <= |r.calls| == |r.replies|
  {
    IsUp(r, k, h, Signing) || IsUp(r, k, h, Verifying)
  }

  ghost predicate OpenedReadWrite(r: Run, k: nat, h: nat)
    requires k <= |r.calls| == |r.replies|
  {
    exists j: nat :: j < k && OpenedAt(r, j, h, true)
  }

  /** What offering a PIN comes to: three wrong ones in a row lock it. */
  ghost function PinCode(c: Crypto, r: Run, k: nat, role: Role, pin: Bytes): Rv
    requires k <= |r.calls| == |r.replies| && |r.states| == |r.calls| + 1
  {
    if !HasPin(r, role, k) then UserPinNotInitialized
    else if StreakAt(c, r, role, k) >= 3 then PinLocked
    else if c.hash(pin) == PinHash(r.states[k].auth.token, role) then OK
    else if StreakAt(c, r, role, k) == 2 then PinLocked else PinIncorrect
  }

  lemma PinIsJudged(c: Crypto, r: Run, k: nat, role: Role, pin: Bytes)
    requires IsRun(c, r) && k <= |r.calls| && r.states[k].up
    ensures VerifyPin(c, r.states[k].auth, role, pin).rv == PinCode(c, r, k, role, pin)
  {
    PinFlagsAreHistory(c, r, role, k);
    RetryCountIsHistory(c, r, role, k);
  }

  lemma LookupCode(s: State, h: nat)
    ensures match GetSession(s, h)
            case At(_) => SessionCode(s, h) == OK
            case Missing(rv) => rv == SessionCode(s, h) != OK
  {
  }

  /** A session handle is returned once. */
  lemma OpenedOnce(c: Crypto, r: Run, i: nat, j: nat, k: nat, h: nat, rw: bool, other: bool)
    requires IsRun(c, r) && i < k && j < k <= |r.calls| && r.states[k].sessionsIssued < TWO64
    requires OpenedAt(r, i, h, rw) && OpenedAt(r, j, h, other)
    ensures i == j
  {
    if i < j {
      LaterOpening(c, r, i, j, k, h);
    } else if j < i {
      LaterOpening(c, r, j, i, k, h);
    }
  }

  lemma OpeningIssues(c: Crypto, r: Run, i: nat, h: nat)
    requires IsRun(c, r) && i < |r.calls| && r.calls[i].OpenSession? && r.replies[i] == Reply(OK, Handle(h))
    ensures h == SessionHandle(r.states[i].sessionsIssued)
    ensures r.states[i + 1].sessionsIssued == r.states[i].sessionsIssued + 1
  {
    StepIs(c, r, i);
  }

  lemma LaterOpening(c: Crypto, r: Run, i: nat, j: nat, k: nat, h: nat)
    requires IsRun(c, r) && i < j < k <= |r.calls| && r.states[k].sessionsIssued < TWO64
    requires r.calls[i].OpenSession? && r.replies[i] == Reply(OK, Handle(h))
    ensures !(r.calls[j].OpenSession? && r.replies[j] == Reply(OK, Handle(h)))
  {
    if r.calls[j].OpenSession? && r.replies[j] == Reply(OK, Handle(h)) {
      OpeningIssues(c, r, i, h);
      OpeningIssues(c, r, j, h);
      RunCounts(c, r, i + 1, j);
      RunCounts(c, r, j + 1, k);
      assert false;
    }
  }

  /** What the session found says, by history. */
  lemma FoundByHistory(c: Crypto, r: Run, k: nat, h: nat)
    requires IsRun(c, r) && k <= |r.calls| && r.states[k].sessionsIssued < TWO64 && GetSession(r.states[k], h).At?
    ensures var ses := NamedSession(r.states[k], h);
            && (ses.user <==> IsUp(r, k, h, UserIn)) && (ses.so <==> IsUp(r, k, h, OfficerIn))
            && (ses.find.active <==> IsUp(r, k, h, Searching))
            && (ses.operation.active && ses.operation.kind == SignOperation <==> IsUp(r, k, h, Signing))
            && (ses.operation.active && ses.operation.kind == VerifyOperation <==> IsUp(r, k, h, Verifying))
            && (ses.operation.active <==> Busy(r, k, h)) && (ses.readWrite <==> OpenedReadWrite(r, k, h))
  {
    var i := GetSession(r.states[k], h).i;
    FlagIsHistory(c, r, k, i, UserIn);
    FlagIsHistory(c, r, k, i, OfficerIn);
    FlagIsHistory(c, r, k, i, Searching);
    FlagIsHistory(c, r, k, i, Signing);
    FlagIsHistory(c, r, k, i, Verifying);
    OperationKindOk(c, r, k, i);
    ModeByHistory(c, r, k, i);
  }

  lemma FoundFlag(c: Crypto, r: Run, k: nat, h: nat, f: Flag)
    requires IsRun(c, r) && k <= |r.calls| && r.states[k].sessionsIssued < TWO64 && GetSession(r.states[k], h).At?
    ensures Shows(NamedSession(r.states[k], h), f) <==> IsUp(r, k, h, f)
  {
    FlagIsHistory(c, r, k, GetSession(r.states[k], h).i, f);
  }

  lemma FoundBusy(c: Crypto, r: Run, k: nat, h: nat)
    requires IsRun(c, r) && k <= |r.calls| && r.states[k].sessionsIssued < TWO64 && GetSession(r.states[k], h).At?
    ensures NamedSession(r.states[k], h).operation.active <==> Busy(r, k, h)
  {
    FoundByHistory(c, r, k, h);
  }

  lemma OperationKindOk(c: Crypto, r: Run, k: nat, i: nat)
    requires IsRun(c, r) && k <= |r.calls| && i < MAX_SESSIONS && r.states[k].sessions[i].Used?
    ensures var op := r.states[k].sessions[i].item.operation;
            op.active ==> op.kind == SignOperation || op.kind == VerifyOperation
  {
    RunSound(c, r, k);
  }

  lemma ModeByHistory(c: Crypto, r: Run, k: nat, i: nat)
    requires IsRun(c, r) && k <= |r.calls| && r.states[k].sessionsIssued < TWO64
    requires i < MAX_SESSIONS && r.states[k].sessions[i].Used?
    ensures r.states[k].sessions[i].item.readWrite <==> OpenedReadWrite(r, k, r.states[k].sessions[i].handle)
  {
    var h, rw := r.states[k].sessions[i].handle, r.states[k].sessions[i].item.readWrite;
    var j := ModeIsAsOpened(c, r, k, i);
    if OpenedReadWrite(r, k, h) {
      var m: nat :| m < k && OpenedAt(r, m, h, true);
      OpenedOnce(c, r, j, m, k, h, rw, true);
    }
  }

  // ----- PINs and logins -----

  /** The PIN is there and of a legal length. */
  function NewPinCode(pin: Option<Bytes>): Rv {
    if pin.None? then ArgumentsBad else if |pin.value| < 4 || |pin.value| > 32 then PinLenRange else OK
  }

  ghost function LoginCode(c: Crypto, r: Run, k: nat, h: nat, userType: nat, pin: Option<Bytes>): Rv
    requires k <= |r.calls| == |r.replies| && |r.states| == |r.calls| + 1
  {
    if pin.None? then ArgumentsBad
    else if userType != 0 && userType != 1 then UserTypeInvalid
    else if SessionCode(r.states[k], h) != OK then SessionCode(r.states[k], h)
    else if AnyoneIn(r, k, h) then UserAlreadyLoggedIn
    else if userType == 0 && !OpenedReadWrite(r, k, h) then SessionReadOnly
    else PinCode(c, r, k, if userType == 0 then SecurityOfficer else User, pin.value)
  }

  ghost function InitPinCode(r: Run, k: nat, h: nat, pin: Option<Bytes>): Rv
    requires k <= |r.calls| == |r.replies| && |r.states| == |r.calls| + 1
  {
    if NewPinCode(pin) != OK then NewPinCode(pin)
    else if SessionCode(r.states[k], h) != OK then SessionCode(r.states[k], h)
    else if !IsUp(r, k, h, OfficerIn) then UserNotLoggedIn else OK
  }

  ghost function SetPinCode(c: Crypto, r: Run, k: nat, h: nat, oldPin: Option<Bytes>, newPin: Option<Bytes>): Rv
    requires k <= |r.calls| == |r.replies| && |r.states| == |r.calls| + 1
  {
    if oldPin.None? then ArgumentsBad
    else if NewPinCode(newPin) != OK then NewPinCode(newPin)
    else if SessionCode(r.states[k], h) != OK then SessionCode(r.states[k], h)
    else if !AnyoneIn(r, k, h) then UserNotLoggedIn
    else PinCode(c, r, k, if IsUp(r, k, h, UserIn) then User else SecurityOfficer, oldPin.value)
  }

  // ----- searches and operations -----

  /** A call that needs a flag of its session on, or off. */
  ghost function FlagCode(r: Run, k: nat, h: nat, fits: bool, refusal: Rv): Rv
    requires k <= |r.calls| == |r.replies| && |r.states| == |r.calls| + 1
  {
    if SessionCode(r.states[k], h) != OK then SessionCode(r.states[k], h) else if fits then OK else refusal
  }

  /** The object found under a handle, if any. */
  function Found(st: Store, key: nat): Option<Object> {
    if GetObject(st, key).At? then Some(st.objects[GetObject(st, key).i].item) else None
  }

  ghost function SignInitCode(r: Run, k: nat, h: nat, mechanism: nat, key: nat): Rv
    requires k <= |r.calls| == |r.replies| && |r.states| == |r.calls| + 1
  {
    if SessionCode(r.states[k], h) != OK then SessionCode(r.states[k], h)
    else if Busy(r, k, h) then OperationActive
    else match Found(r.states[k].store, key)
      case None => ObjectHandleInvalid
      case Some(o) =>
        if o.kind != 3 then KeyTypeInconsistent
        else if !o.canSign then KeyFunctionNotPermitted
        else if mechanism in SUPPORTED then OK else MechanismInvalid
  }

  ghost function VerifyInitCode(r: Run, k: nat, h: nat, key: nat): Rv
    requires k <= |r.calls| == |r.replies| && |r.states| == |r.calls| + 1
  {
    if SessionCode(r.states[k], h) != OK then SessionCode(r.states[k], h)
    else if Busy(r, k, h) then OperationActive
    else match Found(r.states[k].store, key)
      case None => ObjectHandleInvalid
      case Some(o) => if o.kind != 2 then KeyTypeInconsistent else OK
  }

  ghost function SignCode(c: Crypto, r: Run, k: nat, h: nat, data: Option<Bytes>, room: nat, nonce: nat): Rv
    requires k <= |r.calls| == |r.replies| && |r.states| == |r.calls| + 1
  {
    if data.None? then ArgumentsBad
    else if SessionCode(r.states[k], h) != OK then SessionCode(r.states[k], h)
    else if !IsUp(r, k, h, Signing) then OperationNotInitialized
    else
      var op := NamedSession(r.states[k], h).operation;
      match Found(r.states[k].store, op.key)
      case None => ObjectHandleInvalid
      case Some(o) =>
        if o.kind != 3 then KeyTypeInconsistent else c.sign(o.key, op.mechanism, data.value, room, nonce).rv
  }

  ghost function VerifyCode(r: Run, k: nat, h: nat, data: Option<Bytes>, signature: Option<Bytes>): Rv
    requires k <= |r.calls| == |r.replies| && |r.states| == |r.calls| + 1
  {
    if data.None? || signature.None? then ArgumentsBad
    else if SessionCode(r.states[k], h) != OK then SessionCode(r.states[k], h)
    else if !IsUp(r, k, h, Verifying) then OperationNotInitialized
    else if Found(r.states[k].store, NamedSession(r.states[k], h).operation.key).None? then ObjectHandleInvalid
    else FunctionNotSupported
  }

  // ----- objects -----

  ghost function CreateCode(s: State, h: nat, template: Option<Template>): Rv {
    if template.None? then ArgumentsBad
    else if SessionCode(s, h) != OK then SessionCode(s, h)
    else if Count(s.store.objects) == 1024 then HostMemory else OK
  }

  ghost function DestroyCode(s: State, h: nat, target: nat): Rv {
    if SessionCode(s, h) != OK then SessionCode(s, h)
    else if !Live(s.store.objects, target) then ObjectHandleInvalid else OK
  }

  ghost function RelabelCode(s: State, h: nat, target: nat, template: Option<Template>): Rv {
    if template.None? then ArgumentsBad
    else if SessionCode(s, h) != OK then SessionCode(s, h)
    else if !Live(s.store.objects, target) then ObjectHandleInvalid
    else if LeadingLabels(template.value) < |template.value| then AttributeReadOnly else OK
  }

  ghost function GenerateCode(r: Run, k: nat, h: nat, mechanism: nat, t: Template, m: Material): Rv
    requires k <= |r.calls| == |r.replies| && |r.states| == |r.calls| + 1
  {
    if SessionCode(r.states[k], h) != OK then SessionCode(r.states[k], h)
    else if !IsUp(r, k, h, UserIn) then UserNotLoggedIn
    else if mechanism != 0 && mechanism != 0x1040 then MechanismInvalid
    else if mechanism == 0 && !AsksForSize(t, 2048) && !AsksForSize(t, 4096) then KeySizeRange
    else if !m.succeeds then FunctionFailed
    else if Count(r.states[k].store.objects) > 1022 then HostMemory else OK
  }

  // ----- start, stop and sessions -----

  function SlotCode(s: State, slot: nat): Rv {
    if !s.up then NotInitialized else if slot != 0 then SlotIdInvalid else OK
  }

  function OpenCode(s: State, slot: nat, flags: nat): Rv {
    if SlotCode(s, slot) != OK then SlotCode(s, slot)
    else if flags / 4 % 2 == 0 then SessionParallelNotSupported
    else if Count(s.sessions) == 64 then SessionCount else OK
  }

  /** The code of the call at `k`; for `C_GetAttributeValue` that of the last entry that fails. */
  ghost function CodeOf(c: Crypto, r: Run, k: nat): Rv
    requires k < |r.calls| == |r.replies| && |r.states| == |r.calls| + 1
  {
    var s := r.states[k];
    match r.calls[k]
    case Initialize => if s.up then AlreadyInitialized else OK
    case Finalize(reserved) => if reserved then ArgumentsBad else if s.up then OK else NotInitialized
    case InitToken(slot, pin, name) =>
      if name.None? then ArgumentsBad else if NewPinCode(pin) != OK then NewPinCode(pin) else SlotCode(s, slot)
    case InitPin(h, pin) => InitPinCode(r, k, h, pin)
    case SetPin(h, oldPin, newPin) => SetPinCode(c, r, k, h, oldPin, newPin)
    case OpenSession(slot, flags) => OpenCode(s, slot, flags)
    case CloseSession(h) => SessionCode(s, h)
    case CloseAllSessions(slot) => SlotCode(s, slot)
    case GetSessionInfo(h) => SessionCode(s, h)
    case Login(h, userType, pin) => LoginCode(c, r, k, h, userType, pin)
    case Logout(h) => FlagCode(r, k, h, AnyoneIn(r, k, h), UserNotLoggedIn)
    case CreateObject(h, template) => CreateCode(s, h, template)
    case DestroyObject(h, target) => DestroyCode(s, h, target)
    case GetAttributes(h, target, queries) =>
      if queries.None? then ArgumentsBad
      else if SessionCode(s, h) != OK then SessionCode(s, h)
      else (match Found(s.store, target) case None => ObjectHandleInvalid case Some(o) => AnswerRv(o, queries.value))
    case SetAttribute(h, target, template) => RelabelCode(s, h, target, template)
    case FindInit(h) => FlagCode(r, k, h, !IsUp(r, k, h, Searching), OperationActive)
    case FindNext(h, _) => FlagCode(r, k, h, IsUp(r, k, h, Searching), OperationNotInitialized)
    case FindFinal(h) => FlagCode(r, k, h, IsUp(r, k, h, Searching), OperationNotInitialized)
    case GenerateKeyPair(h, mechanism, t, _, m) => GenerateCode(r, k, h, mechanism, t, m)
    case SignInit(h, mechanism, key) => SignInitCode(r, k, h, mechanism, key)
    case Sign(h, data, room, nonce) => SignCode(c, r, k, h, data, room, nonce)
    case VerifyInit(h, _, key) => VerifyInitCode(r, k, h, key)
    case Verify(h, data, signature) => VerifyCode(r, k, h, data, signature)
  }

  predicate IsSlotCall(call: Call) {
    call.Initialize? || call.Finalize? || call.InitToken? || call.OpenSession? || call.CloseSession? ||
    call.CloseAllSessions? || call.GetSessionInfo?
  }

  predicate IsPinCall(call: Call) {
    call.InitPin? || call.SetPin? || call.Login? || call.Logout?
  }

  predicate IsObjectCall(call: Call) {
    call.CreateObject? || call.DestroyObject? || call.GetAttributes? || call.SetAttribute? || call.GenerateKeyPair?
  }

  predicate IsSearchCall(call: Call) {
    call.FindInit? || call.FindNext? || call.FindFinal?
  }

  predicate IsOperationCall(call: Call) {
    call.SignInit? || call.Sign? || call.VerifyInit? || call.Verify?
  }

  // ----- every call -----

  // Quantified over a copy, so that `ReplyIsHistory` does not open it.
  ghost predicate ReplyAt(c: Crypto, r: Run, k: nat)
    requires k < |r.calls| == |r.replies| && |r.states| == |r.calls| + 1
  {
    forall q :: q == r ==> r.replies[k].rv == CodeOf(c, q, k)
  }

  lemma LoginReplies(c: Crypto, r: Run, k: nat)
    requires IsRun(c, r) && k < |r.calls| && r.states[k].sessionsIssued < TWO64 && r.calls[k].Login?
    ensures ReplyAt(c, r, k)
  {
    var Login(h, userType, pin) := r.calls[k];
    StepIs(c, r, k);
    LookupCode(r.states[k], h);
    if GetSession(r.states[k], h).At? && pin.Some? {
      FoundByHistory(c, r, k, h);
      PinIsJudged(c, r, k, RoleOf(userType), pin.value);
    }
  }

  lemma InitPinReplies(c: Crypto, r: Run, k: nat)
    requires IsRun(c, r) && k < |r.calls| && r.states[k].sessionsIssued < TWO64 && r.calls[k].InitPin?
    ensures ReplyAt(c, r, k)
  {
    var h := r.calls[k].session;
    StepIs(c, r, k);
    LookupCode(r.states[k], h);
    if GetSession(r.states[k], h).At? {
      FoundByHistory(c, r, k, h);
    }
  }

  lemma SetPinReplies(c: Crypto, r: Run, k: nat)
    requires IsRun(c, r) && k < |r.calls| && r.states[k].sessionsIssued < TWO64 && r.calls[k].SetPin?
    ensures ReplyAt(c, r, k)
  {
    var SetPin(h, oldPin, newPin) := r.calls[k];
    StepIs(c, r, k);
    LookupCode(r.states[k], h);
    if GetSession(r.states[k], h).At? && oldPin.Some? {
      FoundByHistory(c, r, k, h);
      PinIsJudged(c, r, k, if NamedSession(r.states[k], h).user then User else SecurityOfficer, oldPin.value);
    }
  }

  lemma FlagReplies(c: Crypto, r: Run, k: nat)
    requires IsRun(c, r) && k < |r.calls| && r.states[k].sessionsIssued < TWO64
    requires r.calls[k].Logout? || r.calls[k].FindInit? || r.calls[k].FindNext? || r.calls[k].FindFinal?
    ensures ReplyAt(c, r, k)
  {
    var h := r.calls[k].session;
    StepIs(c, r, k);
    LookupCode(r.states[k], h);
    if GetSession(r.states[k], h).At? {
      FoundByHistory(c, r, k, h);
    }
  }

  // What the four calls answer in terms of the state they find.

  lemma SignInitAnswers(c: Crypto, r: Run, k: nat)
    requires IsRun(c, r) && k < |r.calls| && r.calls[k].SignInit?
    ensures var (s, call) := (r.states[k], r.calls[k]);
            r.replies[k].rv ==
              if SessionCode(s, call.session) != OK then SessionCode(s, call.session)
              else if NamedSession(s, call.session).operation.active then OperationActive
              else match Found(s.store, call.key)
                case None => ObjectHandleInvalid
                case Some(o) =>
                  if o.kind != 3 then KeyTypeInconsistent
                  else if !o.canSign then KeyFunctionNotPermitted
                  else if call.mechanism in SUPPORTED then OK else MechanismInvalid
  {
    StepIs(c, r, k);
    LookupCode(r.states[k], r.calls[k].session);
  }

  lemma VerifyInitAnswers(c: Crypto, r: Run, k: nat)
    requires IsRun(c, r) && k < |r.calls| && r.calls[k].VerifyInit?
    ensures var (s, call) := (r.states[k], r.calls[k]);
            r.replies[k].rv ==
              if SessionCode(s, call.session) != OK then SessionCode(s, call.session)
              else if NamedSession(s, call.session).operation.active then OperationActive
              else match Found(s.store, call.key)
                case None => ObjectHandleInvalid
                case Some(o) => if o.kind != 2 then KeyTypeInconsistent else OK
  {
    StepIs(c, r, k);
    LookupCode(r.states[k], r.calls[k].session);
  }

  lemma SignAnswers(c: Crypto, r: Run, k: nat)
    requires IsRun(c, r) && k < |r.calls| && r.calls[k].Sign?
    ensures var (s, call) := (r.states[k], r.calls[k]);
            var op := NamedSession(s, call.session).operation;
            r.replies[k].rv ==
              if call.data.None? then ArgumentsBad
              else if SessionCode(s, call.session) != OK then SessionCode(s, call.session)
              else if !Shows(NamedSession(s, call.session), Signing) then OperationNotInitialized
              else match Found(s.store, op.key)
                case None => ObjectHandleInvalid
                case Some(o) =>
                  if o.kind != 3 then KeyTypeInconsistent
                  else c.sign(o.key, op.mechanism, call.data.value, call.room, call.nonce).rv
  {
    StepIs(c, r, k);
    LookupCode(r.states[k], r.calls[k].session);
  }

  lemma VerifyAnswers(c: Crypto, r: Run, k: nat)
    requires IsRun(c, r) && k < |r.calls| && r.calls[k].Verify?
    ensures var (s, call) := (r.states[k], r.calls[k]);
            r.replies[k].rv ==
              if call.data.None? || call.signature.None? then ArgumentsBad
              else if SessionCode(s, call.session) != OK then SessionCode(s, call.session)
              else if !Shows(NamedSession(s, call.session), Verifying) then OperationNotInitialized
              else if Found(s.store, NamedSession(s, call.session).operation.key).None? then ObjectHandleInvalid
              else FunctionNotSupported
  {
    StepIs(c, r, k);
    LookupCode(r.states[k], r.calls[k].session);
  }

  lemma SignInitReplies(c: Crypto, r: Run, k: nat)
    requires IsRun(c, r) && k < |r.calls| && r.states[k].sessionsIssued < TWO64 && r.calls[k].SignInit?
    ensures ReplyAt(c, r, k)
  {
    SignInitAnswers(c, r, k);
    LookupCode(r.states[k], r.calls[k].session);
    if GetSession(r.states[k], r.calls[k].session).At? {
      FoundBusy(c, r, k, r.calls[k].session);
    }
  }

  lemma VerifyInitReplies(c: Crypto, r: Run, k: nat)
    requires IsRun(c, r) && k < |r.calls| && r.states[k].sessionsIssued < TWO64 && r.calls[k].VerifyInit?
    ensures ReplyAt(c, r, k)
  {
    VerifyInitAnswers(c, r, k);
    LookupCode(r.states[k], r.calls[k].session);
    if GetSession(r.states[k], r.calls[k].session).At? {
      FoundBusy(c, r, k, r.calls[k].session);
    }
  }

  lemma SignReplies(c: Crypto, r: Run, k: nat)
    requires IsRun(c, r) && k < |r.calls| && r.states[k].sessionsIssued < TWO64 && r.calls[k].Sign?
    ensures ReplyAt(c, r, k)
  {
    SignAnswers(c, r, k);
    LookupCode(r.states[k], r.calls[k].session);
    if GetSession(r.states[k], r.calls[k].session).At? {
      FoundFlag(c, r, k, r.calls[k].session, Signing);
    }
  }

  lemma VerifyReplies(c: Crypto, r: Run, k: nat)
    requires IsRun(c, r) && k < |r.calls| && r.states[k].sessionsIssued < TWO64 && r.calls[k].Verify?
    ensures ReplyAt(c, r, k)
  {
    VerifyAnswers(c, r, k);
    LookupCode(r.states[k], r.calls[k].session);
    if GetSession(r.states[k], r.calls[k].session).At? {
      FoundFlag(c, r, k, r.calls[k].session, Verifying);
    }
  }

  lemma ObjectLookup(st: Store, target: nat)
    ensures GetObject(st, target) == Missing(ObjectHandleInvalid) || GetObject(st, target).At?
    ensures GetObject(st, target).At? <==> Live(st.objects, target)
  {
  }

  lemma ObjectReplies(c: Crypto, r: Run, k: nat)
    requires IsRun(c, r) && k < |r.calls|
    requires r.calls[k].CreateObject? || r.calls[k].DestroyObject? || r.calls[k].GetAttributes?
    ensures ReplyAt(c, r, k)
  {
    StepIs(c, r, k);
    LookupCode(r.states[k], r.calls[k].session);
    if !r.calls[k].CreateObject? {
      ObjectLookup(r.states[k].store, r.calls[k].target);
    }
  }

  lemma RelabelReplies(c: Crypto, r: Run, k: nat)
    requires IsRun(c, r) && k < |r.calls| && r.calls[k].SetAttribute?
    ensures ReplyAt(c, r, k)
  {
    var SetAttribute(h, target, template) := r.calls[k];
    StepIs(c, r, k);
    LookupCode(r.states[k], h);
    ObjectLookup(r.states[k].store, target);
    if GetObject(r.states[k].store, target).At? && template.Some? {
      SetAttributesReadsBack(r.states[k].store.objects[GetObject(r.states[k].store, target).i].item, template.value);
    }
  }

  lemma GenerateReplies(c: Crypto, r: Run, k: nat)
    requires IsRun(c, r) && k < |r.calls| && r.states[k].sessionsIssued < TWO64 && r.calls[k].GenerateKeyPair?
    ensures ReplyAt(c, r, k)
  {
    var GenerateKeyPair(h, mechanism, t, privT, m) := r.calls[k];
    StepIs(c, r, k);
    LookupCode(r.states[k], h);
    if GetSession(r.states[k], h).At? {
      FoundByHistory(c, r, k, h);
      GenerationCode(r.states[k].store, mechanism, t, privT, m);
    }
  }

  /** Making the keys: the mechanism, the size, and OpenSSL. */
  function KeysCode(mechanism: nat, legalSize: bool, succeeds: bool): Rv {
    if mechanism != 0 && mechanism != 0x1040 then MechanismInvalid
    else if mechanism == 0 && !legalSize then KeySizeRange
    else if !succeeds then FunctionFailed else OK
  }

  ghost predicate AsksLegalSize(t: Template) {
    AsksForSize(t, 2048) || AsksForSize(t, 4096)
  }

  lemma LegalSize(t: Template, bits: nat)
    requires AsksForSize(t, bits)
    ensures AsksLegalSize(t) <==> bits == 2048 || bits == 4096
  {
    AsksForOne(t, bits, 2048, NID_P256, NID_P256);
    AsksForOne(t, bits, 4096, NID_P256, NID_P256);
  }

  lemma GeneratedCode(mechanism: nat, t: Template, m: Material)
    ensures var code := KeysCode(mechanism, AsksLegalSize(t), m.succeeds);
            match Generate(mechanism, t, m) case NoKeys(rv) => rv == code != OK case Keys(_, _) => code == OK
  {
    BitsAsked(t);
    LegalSize(t, RsaBits(t));
  }

  /** And then room for two. */
  lemma GenerationCode(st: Store, mechanism: nat, t: Template, privT: Template, m: Material)
    ensures var code := KeysCode(mechanism, AsksLegalSize(t), m.succeeds);
            PairGenerated(st, mechanism, t, privT, m).reply.rv ==
              if code != OK then code else if Count(st.objects) > 1022 then HostMemory else OK
  {
    GeneratedCode(mechanism, t, m);
    var g := Generate(mechanism, t, m);
    if g.Keys? {
      InstallsExactlyWhen(st, PublicHalf(t, g.publicKey), PrivateHalf(privT, g.privateKey));
    }
  }

  lemma SlotReplies(c: Crypto, r: Run, k: nat)
    requires IsRun(c, r) && k < |r.calls|
    requires r.calls[k].Initialize? || r.calls[k].Finalize? || r.calls[k].InitToken? || r.calls[k].OpenSession? ||
             r.calls[k].CloseSession? || r.calls[k].CloseAllSessions? || r.calls[k].GetSessionInfo?
    ensures ReplyAt(c, r, k)
  {
    StepIs(c, r, k);
    if r.calls[k].CloseSession? || r.calls[k].GetSessionInfo? {
      LookupCode(r.states[k], r.calls[k].session);
    }
  }

  /** While fewer than 2^64 sessions have been opened, the code of every call of every run is that of its history. */
  lemma ReplyIsHistory(c: Crypto, r: Run, k: nat)
    requires IsRun(c, r) && k < |r.calls| && r.states[k].sessionsIssued < TWO64
    ensures ReplyAt(c, r, k)
  {
    match r.calls[k] {
      case Login(_, _, _) => LoginReplies(c, r, k);
      case InitPin(_, _) => InitPinReplies(c, r, k);
      case SetPin(_, _, _) => SetPinReplies(c, r, k);
      case Logout(_) => FlagReplies(c, r, k);
      case FindInit(_) => FlagReplies(c, r, k);
      case FindNext(_, _) => FlagReplies(c, r, k);
      case FindFinal(_) => FlagReplies(c, r, k);
      case SignInit(_, _, _) => SignInitReplies(c, r, k);
      case VerifyInit(_, _, _) => VerifyInitReplies(c, r, k);
      case Sign(_, _, _, _) => SignReplies(c, r, k);
      case Verify(_, _, _) => VerifyReplies(c, r, k);
      case CreateObject(_, _) => ObjectReplies(c, r, k);
      case DestroyObject(_, _) => ObjectReplies(c, r, k);
      case GetAttributes(_, _, _) => ObjectReplies(c, r, k);
      case SetAttribute(_, _, _) => RelabelReplies(c, r, k);
      case GenerateKeyPair(_, _, _, _, _) => GenerateReplies(c, r, k);
      case _ => SlotReplies(c, r, k);
    }
  }

  /** What goes with a code: only a Sign that reached an object and an attribute read report on failure, too. */
  predicate OutputFits(call: Call, reply: Reply) {
    match reply.out
    case Nothing =>
      reply.rv == OK ==> !call.OpenSession? && !call.CreateObject? && !call.GenerateKeyPair? && !call.FindNext? &&
                         !call.GetSessionInfo? && !call.GetAttributes? && !call.Sign?
    case Handle(_) => reply.rv == OK && (call.OpenSession? || call.CreateObject?)
    case KeyPair(_, _) => reply.rv == OK && call.GenerateKeyPair?
    case Found(_) => reply.rv == OK && call.FindNext?
    case Info(_) => reply.rv == OK && call.GetSessionInfo?
    case Attributes(_) => call.GetAttributes?
    case Signature(_, _) => call.Sign?
  }

  lemma SlotOutputs(c: Crypto, r: Run, k: nat)
    requires IsRun(c, r) && k < |r.calls| && IsSlotCall(r.calls[k])
    ensures OutputFits(r.calls[k], r.replies[k])
  {
    StepIs(c, r, k);
  }

  lemma PinOutputs(c: Crypto, r: Run, k: nat)
    requires IsRun(c, r) && k < |r.calls| && IsPinCall(r.calls[k])
    ensures OutputFits(r.calls[k], r.replies[k])
  {
    StepIs(c, r, k);
  }

  lemma ObjectOutputs(c: Crypto, r: Run, k: nat)
    requires IsRun(c, r) && k < |r.calls| && IsObjectCall(r.calls[k])
    ensures OutputFits(r.calls[k], r.replies[k])
  {
    StepIs(c, r, k);
  }

  lemma SearchOutputs(c: Crypto, r: Run, k: nat)
    requires IsRun(c, r) && k < |r.calls| && IsSearchCall(r.calls[k])
    ensures OutputFits(r.calls[k], r.replies[k])
  {
    StepIs(c, r, k);
  }

  lemma OperationOutputs(c: Crypto, r: Run, k: nat)
    requires IsRun(c, r) && k < |r.calls| && IsOperationCall(r.calls[k])
    ensures OutputFits(r.calls[k], r.replies[k])
  {
    StepIs(c, r, k);
  }

  /** Every reply has the output that its call and its code call for. */
  lemma OutputsFit(c: Crypto, r: Run, k: nat)
    requires IsRun(c, r) && k < |r.calls|
    ensures OutputFits(r.calls[k], r.replies[k])
  {
    if IsSlotCall(r.calls[k]) {
      SlotOutputs(c, r, k);
    } else if IsPinCall(r.calls[k]) {
      PinOutputs(c, r, k);
    } else if IsObjectCall(r.calls[k]) {
      ObjectOutputs(c, r, k);
    } else if IsSearchCall(r.calls[k]) {
      SearchOutputs(c, r, k);
    } else {
      OperationOutputs(c, r, k);
    }
  }
}
