/**
 The lock operations of every call, on every path, and what they mean for threads that make any calls in any
 order: which calls return, and that threads whose calls return never deadlock and always finish.
 */
module CallLocks {
  import opened Common
  import opened Tables
  import opened Objects
  import opened Engine
  import opened Locks

  // ----- the operations of one call -----

  /** A close loop: closing a session takes and releases the slot lock. */
  function ClosingOps(t: Table<Session>): Script {
    if |t| == 0 then []
    else ClosingOps(t[..|t| - 1]) + if t[|t| - 1].Used? then Around(SlotLock, []) else []
  }

  function FinalizeLocks(s: State, reserved: bool): Script {
    if reserved then [] else Around(GlobalLock, if s.up then ClosingOps(s.sessions) else [])
  }

  /** The close loop of `C_InitToken` and `C_CloseAllSessions` runs under the slot lock. */
  function CloseAllLocks(s: State, slot: nat): Script {
    if !s.up || slot >= 1 then [] else Around(SlotLock, ClosingOps(s.sessions))
  }

  function InitTokenLocks(s: State, slot: nat, pin: Option<Bytes>, name: Option<Block>): Script {
    if pin.None? || name.None? || !PinLengthOk(pin.value) then [] else CloseAllLocks(s, slot)
  }

  /** Under the lock of session `h`, once it is found. */
  function OnSession(s: State, h: nat, inner: Script): Script {
    if GetSession(s, h).At? then Around(SessionLock(h), inner) else []
  }

  function InitPinLocks(s: State, h: nat, pin: Option<Bytes>): Script {
    if pin.None? || !PinLengthOk(pin.value) then []
    else OnSession(s, h, if NamedSession(s, h).so then Around(SlotLock, []) else [])
  }

  function SetPinLocks(s: State, h: nat, oldPin: Option<Bytes>, newPin: Option<Bytes>): Script {
    if oldPin.None? || newPin.None? || !PinLengthOk(newPin.value) then []
    else OnSession(s, h, if NamedSession(s, h).user || NamedSession(s, h).so then Around(SlotLock, []) else [])
  }

  function CreateSessionLocks(t: Sessions): Script {
    Around(SlotLock, if Count(t) >= MAX_SESSIONS then [] else Around(SessionCounterLock, []))
  }

  function OpenSessionLocks(s: State, slot: nat, flags: nat): Script {
    if !s.up || slot >= 1 || !HasFlag(flags, CKF_SERIAL_SESSION) then [] else CreateSessionLocks(s.sessions)
  }

  function CloseSessionLocks(s: State): Script {
    if s.up then Around(SlotLock, []) else []
  }

  function LoginInner(ses: Session, role: Role): Script {
    if ses.user || ses.so || (role == SecurityOfficer && !ses.readWrite) then [] else Around(SlotLock, [])
  }

  function LoginLocks(s: State, h: nat, userType: nat, pin: Option<Bytes>): Script {
    if pin.None? || (userType != CKU_SO && userType != CKU_USER) then []
    else OnSession(s, h, LoginInner(NamedSession(s, h), if userType == CKU_SO then SecurityOfficer else User))
  }

  function CreateLocks(t: ObjectTable): Script {
    Around(SlotLock, if Count(t) >= MAX_OBJECTS then [] else Around(ObjectCounterLock, []))
  }

  function CreateObjectLocks(s: State, h: nat, template: Option<Template>): Script {
    if template.None? || GetSession(s, h).Missing? then [] else CreateLocks(s.store.objects)
  }

  function DestroyObjectLocks(s: State, h: nat): Script {
    if GetSession(s, h).At? then Around(SlotLock, []) else []
  }

  /** Two handles are drawn, one after the other, once two free cells are found. */
  function PairHandleLocks(t: ObjectTable): Script {
    var a := FreeFrom(t, 0);
    if a == MAX_OBJECTS || FreeFrom(t, a + 1) == MAX_OBJECTS then []
    else Around(ObjectCounterLock, []) + Around(ObjectCounterLock, [])
  }

  function InstallPairLocks(t: ObjectTable): Script {
    Around(SlotLock, PairHandleLocks(t))
  }

  function MakePairLocks(t: ObjectTable, mechanism: nat, pubT: Template, m: Material): Script {
    if Generate(mechanism, pubT, m).NoKeys? then [] else InstallPairLocks(t)
  }

  /** The session lock is dropped again before the keys are generated and the slot lock is taken. */
  function GenerateKeyPairLocks(s: State, h: nat, mechanism: nat, pubT: Template, m: Material): Script {
    OnSession(s, h, []) +
    if GetSession(s, h).At? && NamedSession(s, h).user then MakePairLocks(s.store.objects, mechanism, pubT, m) else []
  }

  function SignLocks(s: State, h: nat, data: Option<Bytes>): Script {
    if data.None? then [] else OnSession(s, h, [])
  }

  function VerifyLocks(s: State, h: nat, data: Option<Bytes>, signature: Option<Bytes>): Script {
    if data.None? || signature.None? then [] else OnSession(s, h, [])
  }

  /** The lock operations of a call made in a state; attributes are read and written without any. */
  function LockScript(s: State, call: Call): Script {
    match call
    case Initialize => Around(GlobalLock, [])
    case Finalize(reserved) => FinalizeLocks(s, reserved)
    case InitToken(slot, pin, name) => InitTokenLocks(s, slot, pin, name)
    case InitPin(h, pin) => InitPinLocks(s, h, pin)
    case SetPin(h, oldPin, newPin) => SetPinLocks(s, h, oldPin, newPin)
    case OpenSession(slot, flags) => OpenSessionLocks(s, slot, flags)
    case CloseSession(_) => CloseSessionLocks(s)
    case CloseAllSessions(slot) => CloseAllLocks(s, slot)
    case GetSessionInfo(h) => OnSession(s, h, [])
    case Login(h, userType, pin) => LoginLocks(s, h, userType, pin)
    case Logout(h) => OnSession(s, h, [])
    case CreateObject(h, template) => CreateObjectLocks(s, h, template)
    case DestroyObject(h, _) => DestroyObjectLocks(s, h)
    case GetAttributes(_, _, _) => []
    case SetAttribute(_, _, _) => []
    case FindInit(h) => OnSession(s, h, [])
    case FindNext(h, _) => OnSession(s, h, [])
    case FindFinal(h) => OnSession(s, h, [])
    case GenerateKeyPair(h, mechanism, pubT, _, m) => GenerateKeyPairLocks(s, h, mechanism, pubT, m)
    case SignInit(h, _, _) => OnSession(s, h, [])
    case Sign(h, data, _, _) => SignLocks(s, h, data)
    case VerifyInit(h, _, _) => OnSession(s, h, [])
    case Verify(h, data, signature) => VerifyLocks(s, h, data, signature)
  }

  // ----- every call but the two that close under the slot lock keeps the discipline -----

  lemma {:induction false} ClosingBalanced(t: Table<Session>)
    ensures Balanced(ClosingOps(t), Rank(SlotLock))
  {
    EmptyBalanced(Rank(SlotLock));
    EmptyBalanced(Rank(SlotLock) + 1);
    if |t| != 0 {
      ClosingBalanced(t[..|t| - 1]);
      AroundBalanced(SlotLock, [], Rank(SlotLock));
      JoinedBalanced(ClosingOps(t[..|t| - 1]), if t[|t| - 1].Used? then Around(SlotLock, []) else [], Rank(SlotLock));
    }
  }

  lemma {:induction false} ClosingNothing(t: Table<Session>)
    ensures AllFree(t) ==> ClosingOps(t) == []
    ensures !AllFree(t) ==> |ClosingOps(t)| > 0 && ClosingOps(t)[0] == Acquire(SlotLock)
  {
    if |t| != 0 {
      ClosingNothing(t[..|t| - 1]);
      assert t[|t| - 1].Free? && !AllFree(t) ==> !AllFree(t[..|t| - 1]);
    }
  }

  lemma InnerBalanced(l: Lock, m: Lock)
    requires Rank(l) < Rank(m)
    ensures Balanced(Around(m, []), Rank(l) + 1) && Balanced(Around(l, Around(m, [])), 0)
    ensures Balanced(Around(l, []), 0) && Balanced([], 0)
  {
    EmptyBalanced(0);
    EmptyBalanced(Rank(l) + 1);
    EmptyBalanced(Rank(m) + 1);
    AroundBalanced(m, [], Rank(l) + 1);
    AroundBalanced(l, Around(m, []), 0);
    AroundBalanced(l, [], 0);
  }

  lemma PairBalanced(t: ObjectTable)
    ensures Balanced(InstallPairLocks(t), 0)
  {
    var one := Around(ObjectCounterLock, []);
    InnerBalanced(SlotLock, ObjectCounterLock);
    JoinedBalanced(one, one, Rank(SlotLock) + 1);
    AroundBalanced(SlotLock, one + one, 0);
  }

  lemma GenerateBalanced(s: State, h: nat, mechanism: nat, pubT: Template, m: Material)
    ensures Balanced(GenerateKeyPairLocks(s, h, mechanism, pubT, m), 0)
  {
    InnerBalanced(SessionLock(h), SlotLock);
    PairBalanced(s.store.objects);
    JoinedBalanced(OnSession(s, h, []),
                   if GetSession(s, h).At? && NamedSession(s, h).user
                   then MakePairLocks(s.store.objects, mechanism, pubT, m) else [], 0);
  }

  lemma FinalizeBalanced(s: State, reserved: bool)
    ensures Balanced(FinalizeLocks(s, reserved), 0)
  {
    EmptyBalanced(0);
    EmptyBalanced(Rank(GlobalLock) + 1);
    ClosingBalanced(s.sessions);
    AroundBalanced(GlobalLock, if s.up then ClosingOps(s.sessions) else [], 0);
  }

  /** The calls that run a close loop under the slot lock. */
  predicate ClosesUnderLock(call: Call) {
    call.InitToken? || call.CloseAllSessions?
  }

  lemma OtherCallBalanced(s: State, call: Call)
    requires !ClosesUnderLock(call)
    ensures Balanced(LockScript(s, call), 0)
  {
    InnerBalanced(GlobalLock, SlotLock);
    InnerBalanced(SlotLock, SessionCounterLock);
    InnerBalanced(SlotLock, ObjectCounterLock);
    if call.Finalize? {
      FinalizeBalanced(s, call.reserved);
    } else if call.GenerateKeyPair? {
      GenerateBalanced(s, call.session, call.mechanism, call.publicTemplate, call.material);
    } else if !call.Initialize? && !call.OpenSession? {
      InnerBalanced(SessionLock(call.session), SlotLock);
    }
  }

  // ----- which calls return -----

  lemma CloseLoopReturns(s: State, call: Call)
    requires ClosesUnderLock(call)
    ensures Completes(s, call) ==> Balanced(LockScript(s, call), 0)
    ensures !Completes(s, call) ==> RelocksAt(LockScript(s, call), 0, SlotLock)
  {
    InnerBalanced(SlotLock, SessionCounterLock);
    CountExtremes(s.sessions);
    ClosingNothing(s.sessions);
  }

  /** Every call of every state either keeps the discipline or takes the slot lock twice right away. */
  lemma CallBalancedOrStuck(s: State, call: Call)
    ensures Completes(s, call) ==> Balanced(LockScript(s, call), 0)
    ensures !Completes(s, call) ==> RelocksAt(LockScript(s, call), 0, SlotLock)
  {
    if ClosesUnderLock(call) {
      CloseLoopReturns(s, call);
    } else {
      OtherCallBalanced(s, call);
    }
  }

  /**
   A call takes its locks in rising rank and releases them all, on every path, exactly when it is not a
   `C_InitToken` or `C_CloseAllSessions` that gets as far as its close loop with a session open.
   */
  lemma CallDisciplinedExactlyWhen(s: State, call: Call)
    ensures Disciplined(LockScript(s, call)) <==> Completes(s, call)
  {
    CallBalancedOrStuck(s, call);
    if Completes(s, call) {
      BalancedIsDisciplined(LockScript(s, call), 0);
    } else {
      RelockingIsUndisciplined(LockScript(s, call), 0, SlotLock);
    }
  }

  // ----- threads that make calls -----

  /** A call in the state the thread finds. */
  datatype Visit = Visit(state: State, call: Call)

  predicate Returns(v: Visit) {
    Completes(v.state, v.call)
  }

  /** A thread makes its calls one after the other, each in whatever state the others have left. */
  function ThreadScript(visits: seq<Visit>): Script {
    if |visits| == 0 then []
    else
      var last := visits[|visits| - 1];
      ThreadScript(visits[..|visits| - 1]) + LockScript(last.state, last.call)
  }

  function Scripts(threads: seq<seq<Visit>>): (scripts: seq<Script>)
    ensures |scripts| == |threads| && forall t :: 0 <= t < |threads| ==> scripts[t] == ThreadScript(threads[t])
  {
    seq(|threads|, t requires 0 <= t < |threads| => ThreadScript(threads[t]))
  }

  ghost predicate AllReturn(threads: seq<seq<Visit>>) {
    forall t, i :: 0 <= t < |threads| && 0 <= i < |threads[t]| ==> Returns(threads[t][i])
  }

  lemma {:induction false} ThreadBalanced(visits: seq<Visit>)
    requires forall i :: 0 <= i < |visits| ==> Returns(visits[i])
    ensures Balanced(ThreadScript(visits), 0)
  {
    if |visits| == 0 {
      EmptyBalanced(0);
    } else {
      var front, last := visits[..|visits| - 1], visits[|visits| - 1];
      assert forall i :: 0 <= i < |front| ==> front[i] == visits[i];
      ThreadBalanced(front);
      CallBalancedOrStuck(last.state, last.call);
      JoinedBalanced(ThreadScript(front), LockScript(last.state, last.call), 0);
    }
  }

  lemma CallsAreDisciplined(threads: seq<seq<Visit>>)
    requires AllReturn(threads)
    ensures AllDisciplined(Scripts(threads))
  {
    forall t | 0 <= t < |threads| ensures Disciplined(ThreadScript(threads[t])) {
      ThreadBalanced(threads[t]);
      BalancedIsDisciplined(ThreadScript(threads[t]), 0);
    }
  }

  /**
   Deadlock freedom. Wherever any number of threads are in any calls that return, made in any states, either all
   of them have finished or one of them can go on.
   */
  lemma CallsNeverDeadlock(threads: seq<seq<Visit>>, pcs: seq<nat>)
    requires AllReturn(threads) && Located(Scripts(threads), pcs)
    ensures Finished(Scripts(threads), pcs) || exists t: nat :: CanStep(Scripts(threads), pcs, t)
  {
    CallsAreDisciplined(threads);
    DeadlockFree(Scripts(threads), pcs);
  }

  /** Completion. Every schedule of such threads that nobody can continue has finished all, with every lock free. */
  lemma CallsComplete(threads: seq<seq<Visit>>, schedule: seq<nat>, after: seq<nat>)
    requires AllReturn(threads) && Leads(Scripts(threads), Start(Scripts(threads)), schedule, after)
    ensures Located(Scripts(threads), after)
    ensures |schedule| <= Remaining(Scripts(threads), Start(Scripts(threads)))
    ensures (forall t: nat :: !CanStep(Scripts(threads), after, t)) ==>
      Finished(Scripts(threads), after) && forall t: nat, l :: !Owner(Scripts(threads), after, t, l)
  {
    CallsAreDisciplined(threads);
    EveryScheduleCompletes(Scripts(threads), schedule, after);
  }

  /** Wherever such threads are, some schedule finishes them all. */
  lemma CallsCanAlwaysFinish(threads: seq<seq<Visit>>, pcs: seq<nat>) returns (schedule: seq<nat>, after: seq<nat>)
    requires AllReturn(threads) && Located(Scripts(threads), pcs)
    ensures Leads(Scripts(threads), pcs, schedule, after)
    ensures Located(Scripts(threads), after) && Finished(Scripts(threads), after)
  {
    CallsAreDisciplined(threads);
    schedule, after := CompletionReachable(Scripts(threads), pcs);
  }

  /** A call that does not return leaves its mark in the thread's script. */
  lemma {:induction false} NoReturnRelocks(visits: seq<Visit>, i: nat) returns (n: nat)
    requires i < |visits| && !Returns(visits[i])
    ensures RelocksAt(ThreadScript(visits), n, SlotLock)
    decreases |visits|
  {
    var front, last := visits[..|visits| - 1], visits[|visits| - 1];
    if i == |visits| - 1 {
      CallBalancedOrStuck(last.state, last.call);
      n := |ThreadScript(front)|;
    } else {
      n := NoReturnRelocks(front, i);
    }
  }

  ghost predicate CanFinish(scripts: seq<Script>) {
    exists schedule, after ::
      Leads(scripts, Start(scripts), schedule, after) && Located(scripts, after) && Finished(scripts, after)
  }

  /** Threads can all finish, under some schedule, exactly when every call they make returns. */
  lemma FinishExactlyWhenCallsReturn(threads: seq<seq<Visit>>)
    ensures CanFinish(Scripts(threads)) <==> AllReturn(threads)
  {
    var scripts := Scripts(threads);
    if AllReturn(threads) {
      CallsAreDisciplined(threads);
      var schedule, after := CompletionReachable(scripts, Start(scripts));
    } else {
      var t, i :| 0 <= t < |threads| && 0 <= i < |threads[t]| && !Returns(threads[t][i]);
      var n := NoReturnRelocks(threads[t], i);
      forall schedule, after | Leads(scripts, Start(scripts), schedule, after)
        ensures Located(scripts, after) && !Finished(scripts, after)
      {
        RelockingThreadIsStuck(scripts, Start(scripts), t, n, SlotLock, schedule, after);
      }
    }
  }
}
