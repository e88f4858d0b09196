/** The session state machine over whole runs, and how little sessions see of each other. */
module SessionMachine {
  import opened Common
  import opened Tables
  import opened Objects
  import opened Engine
  import opened Effects
  import opened Runs

  /** In every reachable state a session's `state` is the function of its mode and login flags, and valid. */
  lemma ReachableSessions(c: Crypto, r: Run, k: nat, h: nat, ses: Session)
    requires IsRun(c, r) && k <= |r.calls| && Holds(r.states[k].sessions, h, ses)
    ensures !(ses.user && ses.so) && (ses.so ==> ses.readWrite)
    ensures ses.state == ExpectedState(ses) && ses.state != Invalid
    ensures ses.operation.active ==> ses.operation.kind == SignOperation || ses.operation.kind == VerifyOperation
  {
    RunSound(c, r, k);
  }

  /** What `C_GetSessionInfo` reports, in terms of the mode and the logins alone. */
  lemma InfoIsExact(c: Crypto, r: Run, k: nat, h: nat) returns (ses: Session)
    requires IsRun(c, r) && k < |r.calls| && r.calls[k] == GetSessionInfo(h) && r.replies[k].rv == OK
    ensures Holds(r.states[k].sessions, h, ses) && r.replies[k].out.Info?
    ensures var info := r.replies[k].out.info;
            && info.flags == (if ses.readWrite then 6 else 4)
            && info.state == if ses.so then 4 else if ses.readWrite then (if ses.user then 3 else 2)
                             else if ses.user then 1 else 0
  {
    StepIs(c, r, k);
    var i := GetSession(r.states[k], h).i;
    ses := r.states[k].sessions[i].item;
    assert r.states[k].sessions[i] == Used(h, ses);
    ReachableSessions(c, r, k, h, ses);
  }

  /** The session a call names, if it names one. */
  predicate IsOn(call: Call, h: nat) {
    match call
    case Initialize => false
    case Finalize(_) => false
    case InitToken(_, _, _) => false
    case OpenSession(_, _) => false
    case CloseAllSessions(_) => false
    case _ => call.session == h
  }

  /** A call leaves every session it does not name exactly as it was, unless it stops the library. */
  lemma OtherSessionsUntouched(c: Crypto, r: Run, k: nat, i: nat)
    requires IsRun(c, r) && k < |r.calls| && i < MAX_SESSIONS && r.states[k].sessions[i].Used?
    requires !IsOn(r.calls[k], r.states[k].sessions[i].handle) && r.calls[k] != Finalize(false)
    ensures r.states[k + 1].sessions[i] == r.states[k].sessions[i]
  {
    RunSound(c, r, k);
    var e := SessionsAt(c, r, k);
    assert SessionEffectIs(r.states[k], r.calls[k], r.replies[k], e);
  }

  /**
   A Sign call on an active sign operation ends it whatever it returns, a short buffer included: the next Sign
   on the session is refused.
   */
  lemma SignEndsOperation(c: Crypto, s: State, h: nat, data: Bytes, room: nat, nonce: nat)
    requires GetSession(s, h).At?
    ensures var t := SignStep(c, s, h, Some(data), room, nonce).state;
            && GetSession(t, h) == GetSession(s, h)
            && !(t.sessions[GetSession(s, h).i].item.operation.active &&
                 t.sessions[GetSession(s, h).i].item.operation.kind == SignOperation)
            && forall more: Bytes, space: nat, other: nat ::
                 SignStep(c, t, h, Some(more), space, other).reply.rv == OperationNotInitialized
  {
    var i := GetSession(s, h).i;
    var t := SignStep(c, s, h, Some(data), room, nonce).state;
    SameIndex(s.sessions, t.sessions, h);
  }

  lemma SameIndex(t: Sessions, u: Sessions, h: nat)
    requires forall k :: 0 <= k < MAX_SESSIONS ==>
      (t[k].Used? <==> u[k].Used?) && (t[k].Used? ==> t[k].handle == u[k].handle)
    ensures IndexOf(t, h) == IndexOf(u, h)
  {
  }
}
