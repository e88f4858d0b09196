/**
 What a session says, told from the calls made on its handle alone: who is logged in, whether a search or an operation
 is under way, and its mode. While fewer than 2^64 sessions have been opened.
 */
module SessionHistory {
  import opened Common
  import opened Tables
  import opened Engine
  import opened Effects
  import opened Runs
  import opened SessionMachine

  // ----- what is raised and lowered by calls -----

  datatype Flag = UserIn | OfficerIn | Searching | Signing | Verifying

  /** What the session says. */
  predicate Shows(ses: Session, f: Flag) {
    match f
    case UserIn => ses.user
    case OfficerIn => ses.so
    case Searching => ses.find.active
    case Signing => ses.operation.active && ses.operation.kind == SignOperation
    case Verifying => ses.operation.active && ses.operation.kind == VerifyOperation
  }

  /** The call and its reply switch the flag of session `h` on. */
  predicate Raises(call: Call, reply: Reply, h: nat, f: Flag) {
    match f
    case UserIn => call.Login? && call.session == h && call.userType == CKU_USER && reply.rv == OK
    case OfficerIn => call.Login? && call.session == h && call.userType == CKU_SO && reply.rv == OK
    case Searching => call.FindInit? && call.session == h && reply.rv == OK
    case Signing => call.SignInit? && call.session == h && reply.rv == OK
    case Verifying => call.VerifyInit? && call.session == h && reply.rv == OK
  }

  /** The call and its reply switch it off: an operation ends as soon as its key has been looked up. */
  predicate Lowers(call: Call, reply: Reply, h: nat, f: Flag) {
    match f
    case UserIn => call.Logout? && call.session == h && reply.rv == OK
    case OfficerIn => call.Logout? && call.session == h && reply.rv == OK
    case Searching => call.FindFinal? && call.session == h && reply.rv == OK
    case Signing => call.Sign? && call.session == h && (reply.out.Signature? || reply.rv == ObjectHandleInvalid)
    case Verifying =>
      call.Verify? && call.session == h && (reply.rv == FunctionNotSupported || reply.rv == ObjectHandleInvalid)
  }

  /** Call `j` switched the flag on, and none before `k` has switched it off again. */
  ghost predicate RaisedSince(r: Run, j: nat, k: nat, h: nat, f: Flag)
    requires j < k <= |r.calls| == |r.replies|
  {
    Raises(r.calls[j], r.replies[j], h, f) &&
    forall m :: j < m < k ==> !Lowers(r.calls[m], r.replies[m], h, f)
  }

  /** By the calls and replies before `k` the flag of session `h` is on. */
  ghost predicate IsUp(r: Run, k: nat, h: nat, f: Flag)
    requires k <= |r.calls| == |r.replies|
  {
    exists j: nat :: j < k && RaisedSince(r, j, k, h, f)
  }

  lemma IsUpStep(r: Run, k: nat, h: nat, f: Flag)
    requires k < |r.calls| == |r.replies|
    ensures IsUp(r, k + 1, h, f) <==>
      Raises(r.calls[k], r.replies[k], h, f) || (IsUp(r, k, h, f) && !Lowers(r.calls[k], r.replies[k], h, f))
  {
    if IsUp(r, k + 1, h, f) {
      var j: nat :| j < k + 1 && RaisedSince(r, j, k + 1, h, f);
      if j < k {
        assert RaisedSince(r, j, k, h, f);
      }
    }
    if Raises(r.calls[k], r.replies[k], h, f) {
      assert RaisedSince(r, k, k + 1, h, f);
    } else if IsUp(r, k, h, f) && !Lowers(r.calls[k], r.replies[k], h, f) {
      var j: nat :| j < k && RaisedSince(r, j, k, h, f);
      assert RaisedSince(r, j, k + 1, h, f);
    }
  }

  // ----- one call -----

  /** A session that is open after a call was open before, in the same cell, or was opened by it. */
  lemma CellStep(s: State, call: Call, reply: Reply, e: SessionEffect, after: State, i: nat)
    requires SessionEffectOk(s, call, reply, e) && SessionsAfter(s, e, after)
    requires i < MAX_SESSIONS && after.sessions[i].Used?
    ensures (s.sessions[i].Used? && s.sessions[i].handle == after.sessions[i].handle) ||
            (call.OpenSession? && reply == Reply(OK, Handle(after.sessions[i].handle))
             && after.sessions[i].handle == SessionHandle(s.sessionsIssued)
             && after.sessions[i].item == FreshSession(HasFlag(call.flags, CKF_RW_SESSION)))
  {
    assert SessionEffectIs(s, call, reply, e);
  }

  lemma MoveFlag(s: State, call: Call, reply: Reply, was: Session, now: Session, f: Flag)
    requires MovesSession(call) && ChangesSessions(call, reply) && Moves(s, call, reply, was, now) && SessionOk(was)
    ensures Shows(now, f) <==>
      Raises(call, reply, call.session, f) || (Shows(was, f) && !Lowers(call, reply, call.session, f))
  {
  }

  lemma UnmovedFlag(s: State, call: Call, reply: Reply, e: SessionEffect, h: nat, f: Flag)
    requires SessionEffectOk(s, call, reply, e) && (e.Moved? ==> MovesSession(call) && call.session != h)
    ensures !Raises(call, reply, h, f) && !Lowers(call, reply, h, f)
  {
    assert SessionEffectIs(s, call, reply, e);
  }

  lemma MovedIsNamed(s: State, call: Call, reply: Reply, e: SessionEffect)
    requires SessionEffectOk(s, call, reply, e) && e.Moved?
    ensures MovesSession(call) && ChangesSessions(call, reply) && s.sessions[e.i].handle == call.session
    ensures Moves(s, call, reply, s.sessions[e.i].item, e.ses)
  {
    assert SessionEffectIs(s, call, reply, e);
  }

  /** What one call does to a flag of a session that stays open. */
  lemma FlagStep(s: State, call: Call, reply: Reply, e: SessionEffect, after: State, i: nat, f: Flag)
    requires SessionEffectOk(s, call, reply, e) && SessionsAfter(s, e, after) && Distinct(s.sessions)
    requires i < MAX_SESSIONS && after.sessions[i].Used? && s.sessions[i].Used?
    requires s.sessions[i].handle == after.sessions[i].handle && SessionOk(s.sessions[i].item)
    ensures var h := s.sessions[i].handle;
            Shows(after.sessions[i].item, f) <==>
              Raises(call, reply, h, f) || (Shows(s.sessions[i].item, f) && !Lowers(call, reply, h, f))
  {
    if e.Moved? {
      MovedIsNamed(s, call, reply, e);
    }
    if e.Moved? && e.i == i {
      MoveFlag(s, call, reply, s.sessions[i].item, e.ses, f);
    } else {
      UnmovedFlag(s, call, reply, e, s.sessions[i].handle, f);
      UnmovedCell(s, call, reply, e, after, i);
    }
  }

  lemma UnmovedCell(s: State, call: Call, reply: Reply, e: SessionEffect, after: State, i: nat)
    requires SessionEffectOk(s, call, reply, e) && SessionsAfter(s, e, after) && !(e.Moved? && e.i == i)
    requires i < MAX_SESSIONS && after.sessions[i].Used? && s.sessions[i].Used?
    ensures after.sessions[i] == s.sessions[i]
  {
    assert SessionEffectIs(s, call, reply, e);
  }

  predicate ShowsNothing(ses: Session) {
    forall f :: !Shows(ses, f)
  }

  /** A call that switches a flag on names a session that is open. */
  lemma RaisedIsOpen(c: Crypto, r: Run, j: nat, h: nat, f: Flag)
    requires IsRun(c, r) && j < |r.calls| && Raises(r.calls[j], r.replies[j], h, f)
    ensures Live(r.states[j].sessions, h)
  {
    var e := SessionsAt(c, r, j);
    assert SessionEffectIs(r.states[j], r.calls[j], r.replies[j], e);
  }

  // ----- over runs -----

  /** A handle that is opened at `k` has not been named with success before. */
  lemma NothingRaisedBefore(c: Crypto, r: Run, k: nat, h: nat, f: Flag)
    requires IsRun(c, r) && k <= |r.calls| && h == SessionHandle(r.states[k].sessionsIssued)
    requires r.states[k].sessionsIssued + 1 < TWO64
    ensures !IsUp(r, k, h, f)
  {
    if IsUp(r, k, h, f) {
      var j: nat :| j < k && RaisedSince(r, j, k, h, f);
      RaisedIsOpen(c, r, j, h, f);
      RunSound(c, r, j);
      RunCounts(c, r, j, k);
      assert false;
    }
  }

  lemma SessionsOkAt(c: Crypto, r: Run, k: nat)
    requires IsRun(c, r) && k <= |r.calls| && r.states[k].sessionsIssued < TWO64
    ensures Distinct(r.states[k].sessions) && SessionsOk(r.states[k].sessions)
  {
    RunSound(c, r, k);
  }

  /**
   A session says what the history of calls on its handle says: the user is logged in exactly when a C_Login for the
   user succeeded and no C_Logout since, and likewise for the officer, the search and the two kinds of operation.
   */
  lemma {:induction false} FlagIsHistory(c: Crypto, r: Run, k: nat, i: nat, f: Flag)
    requires IsRun(c, r) && k <= |r.calls| && r.states[k].sessionsIssued < TWO64
    requires i < MAX_SESSIONS && r.states[k].sessions[i].Used?
    ensures Shows(r.states[k].sessions[i].item, f) <==> IsUp(r, k, r.states[k].sessions[i].handle, f)
  {
    if k == 0 {
      assert false;
    }
    var s, after := r.states[k - 1], r.states[k];
    var h := after.sessions[i].handle;
    RunCounts(c, r, k - 1, k);
    SessionsOkAt(c, r, k - 1);
    var e := SessionsAt(c, r, k - 1);
    CellStep(s, r.calls[k - 1], r.replies[k - 1], e, after, i);
    IsUpStep(r, k - 1, h, f);
    if s.sessions[i].Used? && s.sessions[i].handle == h {
      FlagIsHistory(c, r, k - 1, i, f);
      FlagStep(s, r.calls[k - 1], r.replies[k - 1], e, after, i, f);
    } else {
      OpenedNow(c, r, k - 1, i, e);
      NothingRaisedBefore(c, r, k - 1, h, f);
    }
  }

  lemma OpenedNow(c: Crypto, r: Run, k: nat, i: nat, e: SessionEffect)
    requires IsRun(c, r) && k < |r.calls| && i < MAX_SESSIONS && r.states[k + 1].sessions[i].Used?
    requires SessionEffectOk(r.states[k], r.calls[k], r.replies[k], e) && SessionsAfter(r.states[k], e, r.states[k + 1])
    requires !(r.states[k].sessions[i].Used? && r.states[k].sessions[i].handle == r.states[k + 1].sessions[i].handle)
    ensures r.calls[k].OpenSession? && r.states[k + 1].sessionsIssued == r.states[k].sessionsIssued + 1
    ensures r.states[k + 1].sessions[i].handle == SessionHandle(r.states[k].sessionsIssued)
    ensures ShowsNothing(r.states[k + 1].sessions[i].item)
  {
    assert SessionEffectIs(r.states[k], r.calls[k], r.replies[k], e);
  }

  /** An open session was opened under its handle by a call that asked for its mode. */
  ghost predicate OpenedAt(r: Run, j: nat, h: nat, readWrite: bool)
    requires j < |r.calls| == |r.replies|
  {
    && r.calls[j].OpenSession? && r.replies[j] == Reply(OK, Handle(h))
    && (readWrite <==> r.calls[j].flags / 2 % 2 == 1)
  }

  lemma MoveKeepsMode(s: State, call: Call, reply: Reply, e: SessionEffect, after: State, i: nat)
    requires SessionEffectOk(s, call, reply, e) && SessionsAfter(s, e, after)
    requires i < MAX_SESSIONS && after.sessions[i].Used? && s.sessions[i].Used?
    ensures after.sessions[i].item.readWrite == s.sessions[i].item.readWrite
  {
    assert SessionEffectIs(s, call, reply, e);
  }

  lemma {:induction false} ModeIsAsOpened(c: Crypto, r: Run, k: nat, i: nat) returns (j: nat)
    requires IsRun(c, r) && k <= |r.calls| && i < MAX_SESSIONS && r.states[k].sessions[i].Used?
    ensures j < k && OpenedAt(r, j, r.states[k].sessions[i].handle, r.states[k].sessions[i].item.readWrite)
  {
    if k == 0 {
      assert false;
    }
    var s, after := r.states[k - 1], r.states[k];
    var e := SessionsAt(c, r, k - 1);
    CellStep(s, r.calls[k - 1], r.replies[k - 1], e, after, i);
    if s.sessions[i].Used? && s.sessions[i].handle == after.sessions[i].handle {
      MoveKeepsMode(s, r.calls[k - 1], r.replies[k - 1], e, after, i);
      j := ModeIsAsOpened(c, r, k - 1, i);
    } else {
      j := k - 1;
    }
  }

  /** The state a session reports, from the mode it was opened in and the history of logins. */
  ghost predicate Reports(r: Run, j: nat, k: nat, h: nat, info: SessionInfo)
    requires j < k <= |r.calls| == |r.replies|
  {
    var rw := r.calls[j].OpenSession? && r.calls[j].flags / 2 % 2 == 1;
    && info.slot == 0 && info.flags == (if rw then 6 else 4)
    && info.state == if IsUp(r, k, h, OfficerIn) then 4
                     else if IsUp(r, k, h, UserIn) then (if rw then 3 else 1)
                     else if rw then 2 else 0
  }

  /** What `C_GetSessionInfo` reports is a function of the calls made on the handle. */
  lemma InfoIsHistory(c: Crypto, r: Run, k: nat, h: nat) returns (j: nat)
    requires IsRun(c, r) && k < |r.calls| && r.states[k].sessionsIssued < TWO64
    requires r.calls[k] == GetSessionInfo(h) && r.replies[k].rv == OK
    ensures j < k && r.calls[j].OpenSession? && r.replies[j] == Reply(OK, Handle(h))
    ensures r.replies[k].out.Info? && Reports(r, j, k, h, r.replies[k].out.info)
  {
    var i := InfoReads(c, r, k, h);
    j := ModeIsAsOpened(c, r, k, i);
    FlagIsHistory(c, r, k, i, UserIn);
    FlagIsHistory(c, r, k, i, OfficerIn);
  }

  lemma InfoReads(c: Crypto, r: Run, k: nat, h: nat) returns (i: nat)
    requires IsRun(c, r) && k < |r.calls| && r.calls[k] == GetSessionInfo(h) && r.replies[k].rv == OK
    ensures i < MAX_SESSIONS && r.states[k].sessions[i].Used? && r.states[k].sessions[i].handle == h
    ensures r.replies[k].out.Info?
    ensures var ses, info := r.states[k].sessions[i].item, r.replies[k].out.info;
            && info.slot == 0 && info.flags == (if ses.readWrite then 6 else 4)
            && info.state == if ses.so then 4 else if ses.readWrite then (if ses.user then 3 else 2)
                             else if ses.user then 1 else 0
  {
    StepIs(c, r, k);
    i := GetSession(r.states[k], h).i;
    RunSound(c, r, k);
  }

  // ----- what a call leaves alone -----

  /** A login changes who is logged in, a search call the search, and an operation call the operation. */
  predicate TouchesOnly(call: Call, was: Session, now: Session) {
    if call.Login? || call.Logout? then now == was.(user := now.user, so := now.so, state := now.state)
    else if call.FindInit? || call.FindNext? || call.FindFinal? then now == was.(find := now.find)
    else now == was.(operation := now.operation)
  }

  /**
   A successful C_Logout leaves nobody logged in, a login just the one it names; and no call changes anything about a
   session that is not its business.
   */
  lemma MovesTouchOnly(c: Crypto, r: Run, k: nat) returns (was: Session, now: Session)
    requires IsRun(c, r) && k < |r.calls| && MovesSession(r.calls[k]) && ChangesSessions(r.calls[k], r.replies[k])
    ensures Holds(r.states[k].sessions, r.calls[k].session, was)
    ensures Holds(r.states[k + 1].sessions, r.calls[k].session, now)
    ensures TouchesOnly(r.calls[k], was, now)
    ensures r.calls[k].Logout? ==> (was.user || was.so) && !now.user && !now.so
    ensures r.calls[k].Login? ==>
      !was.user && !was.so && (now.user <==> r.calls[k].userType == CKU_USER) && (now.so <==> !now.user)
  {
    var e := SessionsAt(c, r, k);
    assert SessionEffectIs(r.states[k], r.calls[k], r.replies[k], e);
    was, now := r.states[k].sessions[e.i].item, e.ses;
    assert r.states[k].sessions[e.i] == Used(r.calls[k].session, was);
    assert r.states[k + 1].sessions[e.i] == Used(r.calls[k].session, now);
  }
}
