/** The session section of `hsm_slot_t`: the pointer array, its count, and the handle counter. */
module SessionStores {
  import opened Common
  import opened Tables
  import opened Engine
  import opened Locks
  import opened CallLocks
  import opened ObjectStores
  import opened Records

  class SessionStore {
    const sessions: array<SessionRecord?>
    var sessionCount: nat
    var nextHandle: nat

    // The table the array stands for, the number of handles issued, and the footprint.
    ghost var table: Sessions
    ghost var issued: nat
    ghost var Repr: set<object>

    ghost predicate SessionAt(i: nat)
      requires i < sessions.Length && i < MAX_SESSIONS
      reads this`table, this`Repr, sessions, Repr
    {
      match table[i]
      case Free => sessions[i] == null
      case Used(h, ses) =>
        var r := sessions[i];
        && r != null && r in Repr && r.findResults in Repr && r.Valid() && r.handle == h && r.View() == ses
    }

    ghost predicate Apart(i: nat, j: nat)
      requires i < sessions.Length && j < sessions.Length
      reads sessions
    {
      sessions[i] != null && sessions[j] != null ==>
        sessions[i] != sessions[j] && sessions[i].findResults != sessions[j].findResults
    }

    ghost predicate Valid()
      reads this, Repr
    {
      && this !in Repr && sessions in Repr && sessions.Length == MAX_SESSIONS
      && sessionCount == Count(table) && nextHandle == SessionHandle(issued)
      && (forall i :: 0 <= i < MAX_SESSIONS ==> SessionAt(i))
      && (forall i, j :: 0 <= i < j < MAX_SESSIONS ==> Apart(i, j))
    }

    constructor ()
      ensures Valid() && fresh(Repr) && AllFree(table) && issued == 0
    {
      sessions := new SessionRecord?[MAX_SESSIONS](i => null);
      sessionCount, nextHandle := 0, 1;
      table, issued := NoSessions(), 0;
      new;
      Repr := {sessions};
      CountExtremes(table);
    }

    /** Only the record in cell `i` changed, and the table was brought up to date with it. */
    twostate lemma OneSessionChanged(i: nat)
      requires old(Valid()) && i < MAX_SESSIONS && old(sessions[i]) != null
      requires Repr == old(Repr) && sessionCount == old(sessionCount)
      requires nextHandle == old(nextHandle) && issued == old(issued)
      requires forall o :: o in Repr && o != old(sessions[i]) && o != old(sessions[i]).findResults
                 ==> unchanged(o)
      requires sessions[i] != null && sessions[i] == old(sessions[i]) && sessions[i].Valid()
      requires old(table)[i].Used? && table == SetItem(old(table), i, sessions[i].View())
      ensures Valid()
    {
      CountUpdate(old(table), i, Used(sessions[i].handle, sessions[i].View()));
      assert unchanged(sessions);
      forall k | 0 <= k < MAX_SESSIONS ensures SessionAt(k) {
        assert old(SessionAt(k)) && old(SessionAt(i));
        assert k < i ==> old(Apart(k, i));
        assert i < k ==> old(Apart(i, k));
      }
      forall k, l | 0 <= k < l < MAX_SESSIONS ensures Apart(k, l) {
        assert old(Apart(k, l));
      }
    }

    /** What a change to one record leaves alone. */
    twostate predicate Kept()
      reads this
    {
      Repr == old(Repr) && issued == old(issued)
    }

    /** The scan of `hsm_get_session` and `hsm_destroy_session`. */
    method Find(h: nat) returns (i: nat)
      requires Valid()
      ensures i == IndexOf(table, h)
      ensures i < MAX_SESSIONS ==> sessions[i] != null && SessionAt(i)
    {
      i := 0;
      while i < MAX_SESSIONS
        invariant i <= MAX_SESSIONS
        invariant IndexOf(table, h) == IndexFrom(table, h, i)
      {
        assert SessionAt(i);
        if sessions[i] != null && sessions[i].handle == h {
          return;
        }
        i := i + 1;
      }
    }

    /** `C_FindObjectsInit` on the session in cell `i`. */
    method StartFindAt(i: nat, objects: ObjectStore, thread: Thread)
      requires Valid() && i < MAX_SESSIONS && sessions[i] != null && objects.Valid() && Repr !! objects.Repr
      requires SessionLock(sessions[i].handle) in thread.held
      modifies this`table, sessions[i], sessions[i].findResults
      ensures Valid() && Kept() && old(table)[i].Used?
      ensures var ses := old(table)[i].item;
              table == SetItem(old(table), i, ses.(find := FindStarted(ses.find, objects.table)))
    {
      assert SessionAt(i);
      objects.FindInto(sessions[i], thread);
      table := SetItem(table, i, sessions[i].View());
      OneSessionChanged(i);
    }

    method LogInAt(i: nat, role: Role, thread: Thread)
      requires Valid() && i < MAX_SESSIONS && sessions[i] != null
      requires SessionLock(sessions[i].handle) in thread.held
      modifies this`table, sessions[i]
      ensures Valid() && Kept() && old(table)[i].Used?
      ensures table == SetItem(old(table), i, LoggedIn(old(table)[i].item, role))
    {
      assert SessionAt(i);
      sessions[i].LogIn(role, thread);
      table := SetItem(table, i, sessions[i].View());
      OneSessionChanged(i);
    }

    method LogOutAt(i: nat, thread: Thread)
      requires Valid() && i < MAX_SESSIONS && sessions[i] != null
      requires SessionLock(sessions[i].handle) in thread.held
      modifies this`table, sessions[i]
      ensures Valid() && Kept() && old(table)[i].Used?
      ensures table == SetItem(old(table), i, LoggedOut(old(table)[i].item))
    {
      assert SessionAt(i);
      sessions[i].LogOut(thread);
      table := SetItem(table, i, sessions[i].View());
      OneSessionChanged(i);
    }

    method PageAt(i: nat, max: nat, thread: Thread) returns (found: seq<nat>)
      requires Valid() && i < MAX_SESSIONS && sessions[i] != null
      requires SessionLock(sessions[i].handle) in thread.held
      modifies this`table, sessions[i]
      ensures Valid() && Kept() && old(table)[i].Used?
      ensures var ses := old(table)[i].item;
              var f := ses.find;
              var n := Min(max, f.count - f.index);
              && found == f.results[f.index..f.index + n]
              && table == SetItem(old(table), i, ses.(find := f.(index := f.index + n)))
    {
      assert SessionAt(i);
      found := sessions[i].Page(max, thread);
      table := SetItem(table, i, sessions[i].View());
      OneSessionChanged(i);
    }

    method EndFindAt(i: nat, thread: Thread)
      requires Valid() && i < MAX_SESSIONS && sessions[i] != null
      requires SessionLock(sessions[i].handle) in thread.held
      modifies this`table, sessions[i]
      ensures Valid() && Kept() && old(table)[i].Used?
      ensures var ses := old(table)[i].item;
              table == SetItem(old(table), i, ses.(find := FindEnded(ses.find)))
    {
      assert SessionAt(i);
      sessions[i].EndFind(thread);
      table := SetItem(table, i, sessions[i].View());
      OneSessionChanged(i);
    }

    method StartOperationAt(i: nat, kind: OperationKind, mechanism: nat, key: nat, thread: Thread)
      requires Valid() && i < MAX_SESSIONS && sessions[i] != null
      requires SessionLock(sessions[i].handle) in thread.held
      modifies this`table, sessions[i]
      ensures Valid() && Kept() && old(table)[i].Used?
      ensures var ses := old(table)[i].item;
              table == SetItem(old(table), i, ses.(operation := Operation(kind, mechanism, key, true)))
    {
      assert SessionAt(i);
      sessions[i].StartOperation(kind, mechanism, key, thread);
      table := SetItem(table, i, sessions[i].View());
      OneSessionChanged(i);
    }

    method AbortOperationAt(i: nat, thread: Thread)
      requires Valid() && i < MAX_SESSIONS && sessions[i] != null
      requires SessionLock(sessions[i].handle) in thread.held
      modifies this`table, sessions[i]
      ensures Valid() && Kept() && old(table)[i].Used?
      ensures var ses := old(table)[i].item;
              table == SetItem(old(table), i, Aborted(ses))
    {
      assert SessionAt(i);
      sessions[i].AbortOperation(thread);
      table := SetItem(table, i, sessions[i].View());
      OneSessionChanged(i);
    }

    method EndOperationAt(i: nat, thread: Thread)
      requires Valid() && i < MAX_SESSIONS && sessions[i] != null
      requires SessionLock(sessions[i].handle) in thread.held
      modifies this`table, sessions[i]
      ensures Valid() && Kept() && old(table)[i].Used?
      ensures var ses := old(table)[i].item;
              table == SetItem(old(table), i, Ended(ses))
    {
      assert SessionAt(i);
      sessions[i].EndOperation(thread);
      table := SetItem(table, i, sessions[i].View());
      OneSessionChanged(i);
    }

    /** A new record goes into the free cell `i`. */
    method PutSessionRecord(i: nat, session: SessionRecord, thread: Thread)
      requires Valid() && sessionCount < MAX_SESSIONS && i < MAX_SESSIONS && table[i].Free?
      requires session.Valid() && {session, session.findResults} !! Repr
      requires SlotLock in thread.held
      modifies sessions, this`sessionCount, this`table, this`Repr
      ensures Valid() && Repr == old(Repr) + {session, session.findResults} && issued == old(issued)
      ensures table == old(table)[i := Used(session.handle, session.View())]
    {
      CountUpdate(table, i, Used(session.handle, session.View()));
      sessions[i] := session;
      sessionCount := sessionCount + 1;
      table := table[i := Used(session.handle, session.View())];
      Repr := Repr + {session, session.findResults};
      forall k | 0 <= k < MAX_SESSIONS ensures SessionAt(k) {
        assert old(SessionAt(k));
      }
      forall k, l | 0 <= k < l < MAX_SESSIONS ensures Apart(k, l) {
        assert old(Apart(k, l)) && old(SessionAt(k)) && old(SessionAt(l));
      }
    }

    /** The scan for a free cell in `hsm_create_session`; with the count below 64 it cannot run off the end. */
    method FreeSessionCell() returns (i: nat)
      requires Valid() && sessionCount < MAX_SESSIONS
      ensures i == FreeFrom(table, 0) < MAX_SESSIONS
    {
      FreeCellExists(table);
      i := 0;
      while i < MAX_SESSIONS && sessions[i] != null
        invariant i < MAX_SESSIONS && FreeFrom(table, 0) == FreeFrom(table, i)
      {
        assert SessionAt(i);
        i := i + 1;
      }
      assert SessionAt(i);
    }

    /** The next session handle, under its own lock. */
    method GenerateHandle(thread: Thread) returns (h: nat)
      requires Valid() && thread !in Repr && thread.Valid() && SessionCounterLock !in thread.held
      modifies this`nextHandle, this`issued, thread
      ensures Valid() && h == SessionHandle(old(issued)) && issued == old(issued) + 1
      ensures thread.Valid() && thread.held == old(thread.held)
      ensures thread.ops == old(thread.ops) + Around(SessionCounterLock, [])
    {
      thread.Lock(SessionCounterLock);
      h := nextHandle;
      nextHandle := (nextHandle + 1) % TWO64;
      issued := issued + 1;
      thread.Unlock(SessionCounterLock);
      Bracket(old(thread.ops), SessionCounterLock);
    }

    /** `hsm_create_session` under the slot lock, after the count check. */
    method InstallSession(readWrite: bool, thread: Thread) returns (h: nat)
      requires Valid() && sessionCount < MAX_SESSIONS
      requires thread !in Repr && thread.Valid() && SlotLock in thread.held && SessionCounterLock !in thread.held
      modifies sessions, this`sessionCount, this`nextHandle
      modifies this`table, this`issued, this`Repr, thread
      ensures Valid() && fresh(Repr - old(Repr))
      ensures thread.Valid() && thread.held == old(thread.held)
      ensures thread.ops == old(thread.ops) + Around(SessionCounterLock, [])
      ensures h == SessionHandle(old(issued)) && issued == old(issued) + 1
      ensures FreeFrom(old(table), 0) < MAX_SESSIONS
      ensures table == old(table)[FreeFrom(old(table), 0) := Used(h, FreshSession(readWrite))]
    {
      var i := FreeSessionCell();
      h := GenerateHandle(thread);
      var session := new SessionRecord(h, readWrite);
      PutSessionRecord(i, session, thread);
    }

    /** `hsm_create_session`. */
    method Create(readWrite: bool, thread: Thread) returns (rv: Rv, h: nat)
      requires Valid() && thread !in Repr && thread.Valid() && thread.held == {}
      modifies sessions, this`sessionCount, this`nextHandle
      modifies this`table, this`issued, this`Repr, thread
      ensures Valid() && fresh(Repr - old(Repr)) && thread.Valid() && thread.held == {}
      ensures thread.ops == old(thread.ops) + CreateSessionLocks(old(table))
      ensures if Count(old(table)) >= MAX_SESSIONS then
                rv == SessionCount && table == old(table) && issued == old(issued)
              else rv == OK && h == SessionHandle(old(issued)) && issued == old(issued) + 1 &&
                   FreeFrom(old(table), 0) < MAX_SESSIONS &&
                   table == old(table)[FreeFrom(old(table), 0) := Used(h, FreshSession(readWrite))]
    {
      h := 0;
      Bracket(thread.ops, SlotLock);
      NestedBracket(thread.ops, SlotLock, Around(SessionCounterLock, []));
      thread.Lock(SlotLock);
      if sessionCount >= MAX_SESSIONS {
        thread.Unlock(SlotLock);
        return SessionCount, h;
      }
      h := InstallSession(readWrite, thread);
      thread.Unlock(SlotLock);
      rv := OK;
    }

    /** `hsm_destroy_session` once the cell is found. */
    method FreeSession(i: nat, thread: Thread)
      requires Valid() && i < MAX_SESSIONS && sessions[i] != null
      requires SlotLock in thread.held
      modifies sessions, this`sessionCount, this`table
      ensures Valid() && Kept() && old(sessionCount) > 0 && table == old(table)[i := Free]
      ensures sessions[..] == old(sessions[..])[i := null]
    {
      assert SessionAt(i);
      CountUpdate(table, i, Free);
      sessions[i] := null;
      sessionCount := sessionCount - 1;
      table := table[i := Free];
      forall k | 0 <= k < MAX_SESSIONS ensures SessionAt(k) {
        assert old(SessionAt(k));
      }
      forall k, l | 0 <= k < l < MAX_SESSIONS ensures Apart(k, l) {
        assert old(Apart(k, l));
      }
    }

    /** `hsm_destroy_session` on a running library: it takes the slot lock, so in a thread that has it, it hangs. */
    method Destroy(h: nat, thread: Thread) returns (rv: Rv, hangs: bool)
      requires Valid() && thread !in Repr && thread.Valid()
      modifies sessions, this`sessionCount, this`table, thread
      ensures Valid() && Kept() && thread.Valid() && thread.held == old(thread.held)
      ensures hangs <==> SlotLock in thread.held
      ensures hangs ==> table == old(table) && thread.ops == old(thread.ops)
      ensures !hangs ==> thread.ops == old(thread.ops) + Around(SlotLock, [])
      ensures !hangs ==> var i := IndexOf(old(table), h);
                         if i < MAX_SESSIONS then rv == OK && table == old(table)[i := Free]
                         else rv == SessionHandleInvalid && table == old(table)
    {
      rv := OK;
      Bracket(thread.ops, SlotLock);
      hangs := thread.LockOrHang(SlotLock);
      if hangs { return; }
      var i := Find(h);
      if i == MAX_SESSIONS {
        thread.Unlock(SlotLock);
        return SessionHandleInvalid, false;
      }
      FreeSession(i, thread);
      thread.Unlock(SlotLock);
    }

    /**
     The close loop of `hsm_cleanup_slot`, `C_InitToken` and `C_CloseAllSessions`. It closes each session by
     handle, and each time exactly the cell it stands on goes, because the cells below are free already. In a
     thread that holds the slot lock it hangs at the first open session, with nothing changed.
     */
    method CloseEverySession(thread: Thread) returns (hangs: bool)
      requires Valid() && thread !in Repr && thread.Valid()
      modifies sessions, this`sessionCount, this`table, thread
      ensures Valid() && Kept() && thread.Valid() && thread.held == old(thread.held)
      ensures hangs <==> SlotLock in thread.held && !AllFree(old(table))
      ensures hangs ==> table == old(table) && thread.ops == old(thread.ops)
      ensures !hangs ==> table == NoSessions() && sessionCount == 0
      ensures !hangs ==> thread.ops == old(thread.ops) + ClosingOps(old(table))
    {
      ghost var was := table;
      for i := 0 to MAX_SESSIONS
        invariant Valid() && Kept() && thread.Valid() && thread.held == old(thread.held)
        invariant thread.ops == old(thread.ops) + ClosingOps(was[..i])
        invariant SlotLock in thread.held ==> table == was && forall k :: 0 <= k < i ==> was[k] == Free
        invariant forall k :: 0 <= k < i ==> table[k] == Free
        invariant forall k :: i <= k < MAX_SESSIONS ==> table[k] == was[k]
      {
        assert SessionAt(i);
        assert was[..i + 1][..i] == was[..i];
        if sessions[i] != null {
          var rv;
          assert IndexOf(table, sessions[i].handle) == i;
          Joined(old(thread.ops), ClosingOps(was[..i]), Around(SlotLock, []));
          rv, hangs := Destroy(sessions[i].handle, thread);
          if hangs {
            ClosingNothing(was[..i]);
            return;
          }
        }
      }
      CountExtremes(table);
      assert table == NoSessions() && was[..MAX_SESSIONS] == was;
      hangs := false;
    }

    /** What `memset` and the zeroed counts of `hsm_init_slot` leave. */
    method Clear(thread: Thread)
      requires Valid()
      requires GlobalLock in thread.held
      modifies this`sessionCount, this`table, sessions
      ensures Valid() && Kept() && table == NoSessions()
    {
      forall i | 0 <= i < MAX_SESSIONS {
        sessions[i] := null;
      }
      sessionCount := 0;
      table := NoSessions();
      CountExtremes(table);
    }
  }
}
