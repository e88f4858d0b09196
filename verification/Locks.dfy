/**
 The locking discipline. A thread's calls amount to a script of lock operations. A script is
 disciplined when every lock is taken in strictly rising rank (global, one session, slot, a handle
 counter), released last-in first-out, and nothing is held at the end. Any number of threads running
 disciplined scripts can always go on until all are done; a thread that takes a lock twice cannot.
 */
module Locks {
  import opened Common

  datatype Lock = GlobalLock | SessionLock(handle: nat) | SlotLock | SessionCounterLock | ObjectCounterLock

  datatype LockOp = Acquire(lock: Lock) | Release(lock: Lock)

  type Script = seq<LockOp>

  function Rank(l: Lock): (r: nat)
    ensures r <= 3
  {
    match l
    case GlobalLock => 0
    case SessionLock(_) => 1
    case SlotLock => 2
    case SessionCounterLock => 3
    case ObjectCounterLock => 3
  }

  /** Held locks, the latest on top. */
  datatype Stack = Empty | Push(top: Lock, rest: Stack)

  predicate Above(l: Lock, held: Stack) {
    held.Empty? || Rank(held.top) < Rank(l)
  }

  predicate On(l: Lock, held: Stack) {
    held.Push? && (held.top == l || On(l, held.rest))
  }

  /** The locks held after a script, or None once the script has broken the discipline. */
  function HeldAfter(script: Script): Option<Stack> {
    if |script| == 0 then Some(Empty)
    else
      var before := HeldAfter(script[..|script| - 1]);
      if before.None? then None
      else
        var held := before.value;
        match script[|script| - 1]
        case Acquire(l) => if Above(l, held) then Some(Push(l, held)) else None
        case Release(l) => if held.Push? && held.top == l then Some(held.rest) else None
  }

  predicate Disciplined(script: Script) {
    HeldAfter(script) == Some(Empty)
  }

  // ----- the thread that runs a call -----

  /** Whether the last operation of `ops` on `l` took it: a definition that needs no discipline. */
  predicate Owns(ops: Script, l: Lock) {
    |ops| > 0 &&
    if ops[|ops| - 1].lock == l then ops[|ops| - 1].Acquire? else Owns(ops[..|ops| - 1], l)
  }

  ghost predicate HoldsWhatItOwns(held: set<Lock>, ops: Script) {
    forall l :: l in held <==> Owns(ops, l)
  }

  lemma OneMoreOperation(held: set<Lock>, ops: Script, l: Lock)
    requires HoldsWhatItOwns(held, ops)
    ensures HoldsWhatItOwns(held + {l}, ops + [Acquire(l)])
    ensures HoldsWhatItOwns(held - {l}, ops + [Release(l)])
  {
    assert (ops + [Acquire(l)])[..|ops|] == ops;
    assert (ops + [Release(l)])[..|ops|] == ops;
  }

  /** The calling thread: the locks it holds, and every lock operation it has performed. */
  class Thread {
    var held: set<Lock>
    ghost var ops: Script

    // Quantified over a copy, so that callers carry it along without replaying the operations.
    ghost predicate Valid()
      reads this
    {
      forall s :: s == ops ==> HoldsWhatItOwns(held, s)
    }

    constructor ()
      ensures Valid() && held == {} && ops == []
    {
      held, ops := {}, [];
    }

    /** `HSM_LOCK` on a lock the thread does not hold. */
    method Lock(l: Lock)
      requires Valid() && l !in held
      modifies this
      ensures Valid() && held == old(held) + {l} && ops == old(ops) + [Acquire(l)]
    {
      OneMoreOperation(held, ops, l);
      held, ops := held + {l}, ops + [Acquire(l)];
    }

    /** `HSM_LOCK` on any lock: a thread that holds it already waits for itself and never goes on. */
    method LockOrHang(l: Lock) returns (hangs: bool)
      requires Valid()
      modifies this
      ensures Valid() && (hangs <==> l in old(held)) && held == old(held) + {l}
      ensures ops == if hangs then old(ops) else old(ops) + [Acquire(l)]
    {
      hangs := l in held;
      if !hangs {
        Lock(l);
      }
    }

    /** `HSM_UNLOCK`. */
    method Unlock(l: Lock)
      requires Valid() && l in held
      modifies this
      ensures Valid() && held == old(held) - {l} && ops == old(ops) + [Release(l)]
    {
      OneMoreOperation(held, ops, l);
      held, ops := held - {l}, ops + [Release(l)];
    }
  }

  /** A lock taken, `inner`, and the lock released. */
  function Around(l: Lock, inner: Script): Script {
    [Acquire(l)] + inner + [Release(l)]
  }

  lemma Bracket(ops: Script, l: Lock)
    ensures ops + [Acquire(l)] + [Release(l)] == ops + Around(l, [])
  {
  }

  lemma NestedBracket(ops: Script, l: Lock, inner: Script)
    ensures ops + [Acquire(l)] + inner + [Release(l)] == ops + Around(l, inner)
  {
  }

  lemma DoubleBracket(ops: Script, l: Lock, m: Lock)
    ensures ops + [Acquire(l)] + [Acquire(m)] + [Release(m)] + [Release(l)] == ops + Around(l, Around(m, []))
  {
    Bracket(ops + [Acquire(l)], m);
  }

  lemma Joined(ops: Script, a: Script, b: Script)
    ensures ops + a + b == ops + (a + b)
  {
  }

  // ----- scripts made of brackets are disciplined -----

  predicate Below(held: Stack, floor: nat) {
    held.Push? ==> Rank(held.top) < floor
  }

  /** Run on top of locks of rank below `floor`, the script keeps the discipline and leaves just those locks. */
  ghost predicate Balanced(script: Script, floor: nat) {
    forall before {:trigger HeldAfter(before + script)} ::
      HeldAfter(before).Some? && Below(HeldAfter(before).value, floor) ==>
        HeldAfter(before + script) == HeldAfter(before)
  }

  lemma EmptyBalanced(floor: nat)
    ensures Balanced([], floor)
  {
    forall before: Script ensures before + [] == before {
    }
  }

  lemma JoinedBalanced(a: Script, b: Script, floor: nat)
    requires Balanced(a, floor) && Balanced(b, floor)
    ensures Balanced(a + b, floor)
  {
    forall before: Script ensures before + (a + b) == before + a + b {
    }
  }

  lemma HeldAfterAround(before: Script, l: Lock, inner: Script)
    requires HeldAfter(before).Some? && Above(l, HeldAfter(before).value) && Balanced(inner, Rank(l) + 1)
    ensures HeldAfter(before + Around(l, inner)) == HeldAfter(before)
  {
    var taken := before + [Acquire(l)];
    assert taken[..|before|] == before;
    assert HeldAfter(taken + inner) == HeldAfter(taken);
    var whole := taken + inner + [Release(l)];
    assert whole[..|whole| - 1] == taken + inner;
    assert before + Around(l, inner) == whole;
  }

  lemma AroundBalanced(l: Lock, inner: Script, floor: nat)
    requires floor <= Rank(l) && Balanced(inner, Rank(l) + 1)
    ensures Balanced(Around(l, inner), floor)
  {
    forall before: Script | HeldAfter(before).Some? && Below(HeldAfter(before).value, floor)
      ensures HeldAfter(before + Around(l, inner)) == HeldAfter(before)
    {
      HeldAfterAround(before, l, inner);
    }
  }

  lemma BalancedIsDisciplined(script: Script, floor: nat)
    requires Balanced(script, floor)
    ensures Disciplined(script)
  {
    assert [] + script == script;
  }

  // ----- threads -----

  /** Every thread is somewhere in its script. */
  ghost predicate Located(scripts: seq<Script>, pcs: seq<nat>) {
    |pcs| == |scripts| && forall t :: 0 <= t < |pcs| ==> pcs[t] <= |scripts[t]|
  }

  ghost predicate Owner(scripts: seq<Script>, pcs: seq<nat>, t: nat, l: Lock)
    requires Located(scripts, pcs)
  {
    t < |pcs| && Owns(scripts[t][..pcs[t]], l)
  }

  /** A thread can go on unless its next operation takes a lock that some thread, even itself, owns. */
  ghost predicate CanStep(scripts: seq<Script>, pcs: seq<nat>, t: nat)
    requires Located(scripts, pcs)
  {
    && t < |pcs| && pcs[t] < |scripts[t]|
    && (scripts[t][pcs[t]].Acquire? ==> forall u: nat :: !Owner(scripts, pcs, u, scripts[t][pcs[t]].lock))
  }

  /** The threads named in `schedule` go on one after the other and lead from `pcs` to `after`. */
  ghost predicate Leads(scripts: seq<Script>, pcs: seq<nat>, schedule: seq<nat>, after: seq<nat>)
    requires Located(scripts, pcs)
    decreases |schedule|
  {
    if |schedule| == 0 then after == pcs
    else
      var t := schedule[0];
      CanStep(scripts, pcs, t) && Leads(scripts, pcs[t := pcs[t] + 1], schedule[1..], after)
  }

  function Start(scripts: seq<Script>): (pcs: seq<nat>)
    ensures Located(scripts, pcs)
  {
    seq(|scripts|, i => 0)
  }

  ghost predicate Finished(scripts: seq<Script>, pcs: seq<nat>)
    requires Located(scripts, pcs)
  {
    forall t :: 0 <= t < |pcs| ==> pcs[t] == |scripts[t]|
  }

  /** The lock operations still to be done. */
  function Remaining(scripts: seq<Script>, pcs: seq<nat>): int
    requires |scripts| == |pcs|
  {
    if |pcs| == 0 then 0
    else
      var n := |pcs| - 1;
      Remaining(scripts[..n], pcs[..n]) + |scripts[n]| - pcs[n]
  }

  ghost predicate AllDisciplined(scripts: seq<Script>) {
    forall t :: 0 <= t < |scripts| ==> Disciplined(scripts[t])
  }

  // ----- what discipline says about ownership -----

  lemma {:induction false} PrefixHeld(script: Script, n: nat)
    requires n <= |script| && HeldAfter(script).Some?
    ensures HeldAfter(script[..n]).Some?
    decreases |script|
  {
    if n == |script| {
      assert script[..n] == script;
    } else {
      PrefixHeld(script[..|script| - 1], n);
      assert script[..|script| - 1][..n] == script[..n];
    }
  }

  ghost predicate Rising(held: Stack) {
    held.Push? ==> Rising(held.rest) && forall l :: On(l, held.rest) ==> Rank(l) < Rank(held.top)
  }

  /** The stack of a disciplined script is exactly what it owns, in rising rank. */
  lemma {:induction false} HeldIsOwned(ops: Script)
    requires HeldAfter(ops).Some?
    ensures Rising(HeldAfter(ops).value)
    ensures forall l :: Owns(ops, l) <==> On(l, HeldAfter(ops).value)
  {
    if |ops| != 0 {
      HeldIsOwned(ops[..|ops| - 1]);
    }
  }

  // ----- deadlock freedom -----

  /** Follow the chain of owners from a waiting thread: ranks rise, so it ends at one that can go on. */
  lemma FindRunnable(scripts: seq<Script>, pcs: seq<nat>, t: nat) returns (u: nat)
    requires Located(scripts, pcs) && AllDisciplined(scripts)
    requires t < |pcs| && pcs[t] < |scripts[t]|
    ensures CanStep(scripts, pcs, u)
    decreases 3 - Rank(scripts[t][pcs[t]].lock)
  {
    if CanStep(scripts, pcs, t) {
      return t;
    }
    var l := scripts[t][pcs[t]].lock;
    var v: nat :| Owner(scripts, pcs, v, l);
    var done := scripts[v][..pcs[v]];
    PrefixHeld(scripts[v], pcs[v]);
    HeldIsOwned(done);
    assert On(l, HeldAfter(done).value);
    var whole := scripts[v];
    assert whole[..|whole|] == whole;
    assert pcs[v] < |whole|;
    var next := scripts[v][..pcs[v] + 1];
    PrefixHeld(scripts[v], pcs[v] + 1);
    assert next[..|next| - 1] == done;
    if scripts[v][pcs[v]].Release? {
      return v;
    }
    u := FindRunnable(scripts, pcs, v);
  }

  /** No deadlock: while some thread is unfinished, some thread can go on. */
  lemma DeadlockFree(scripts: seq<Script>, pcs: seq<nat>)
    requires Located(scripts, pcs) && AllDisciplined(scripts)
    ensures Finished(scripts, pcs) || exists t: nat :: CanStep(scripts, pcs, t)
  {
    if !Finished(scripts, pcs) {
      var t: nat :| t < |pcs| && pcs[t] != |scripts[t]|;
      var u := FindRunnable(scripts, pcs, t);
    }
  }

  lemma {:induction false} RemainingStep(scripts: seq<Script>, pcs: seq<nat>, t: nat)
    requires Located(scripts, pcs) && t < |pcs| && pcs[t] < |scripts[t]|
    ensures Remaining(scripts, pcs[t := pcs[t] + 1]) == Remaining(scripts, pcs) - 1
  {
    var n := |pcs| - 1;
    var after := pcs[t := pcs[t] + 1];
    if t == n {
      assert after[..n] == pcs[..n];
    } else {
      RemainingStep(scripts[..n], pcs[..n], t);
      assert after[..n] == pcs[..n][t := pcs[t] + 1];
    }
  }

  lemma {:induction false} RemainingNatural(scripts: seq<Script>, pcs: seq<nat>)
    requires Located(scripts, pcs)
    ensures Remaining(scripts, pcs) >= 0
    ensures Remaining(scripts, pcs) == 0 <==> Finished(scripts, pcs)
  {
    if |pcs| != 0 {
      var n := |pcs| - 1;
      RemainingNatural(scripts[..n], pcs[..n]);
      assert forall t :: 0 <= t < n ==> pcs[..n][t] == pcs[t] && scripts[..n][t] == scripts[t];
      if Finished(scripts, pcs) {
        assert Finished(scripts[..n], pcs[..n]);
      }
      if Remaining(scripts, pcs) == 0 {
        assert Finished(scripts[..n], pcs[..n]);
      }
    }
  }

  /** Every schedule spends exactly one remaining operation per step. */
  lemma {:induction false} ScheduleSpends(scripts: seq<Script>, pcs: seq<nat>, schedule: seq<nat>, after: seq<nat>)
    requires Located(scripts, pcs) && Leads(scripts, pcs, schedule, after)
    ensures Located(scripts, after)
    ensures Remaining(scripts, after) == Remaining(scripts, pcs) - |schedule|
    decreases |schedule|
  {
    if |schedule| != 0 {
      var t := schedule[0];
      RemainingStep(scripts, pcs, t);
      ScheduleSpends(scripts, pcs[t := pcs[t] + 1], schedule[1..], after);
    }
  }

  /**
   Completion in every interleaving: no schedule is longer than the scripts together, and one that
   nobody can continue has finished every thread with every lock free.
   */
  lemma EveryScheduleCompletes(scripts: seq<Script>, schedule: seq<nat>, after: seq<nat>)
    requires AllDisciplined(scripts) && Leads(scripts, Start(scripts), schedule, after)
    ensures Located(scripts, after)
    ensures |schedule| <= Remaining(scripts, Start(scripts))
    ensures (forall t: nat :: !CanStep(scripts, after, t)) <==> |schedule| == Remaining(scripts, Start(scripts))
    ensures (forall t: nat :: !CanStep(scripts, after, t)) ==>
      Finished(scripts, after) && forall t: nat, l :: !Owner(scripts, after, t, l)
  {
    ScheduleSpends(scripts, Start(scripts), schedule, after);
    RemainingNatural(scripts, after);
    if forall t: nat :: !CanStep(scripts, after, t) {
      DeadlockFree(scripts, after);
      forall t: nat, l ensures !Owner(scripts, after, t, l) {
        if t < |after| {
          assert scripts[t][..after[t]] == scripts[t];
          HeldIsOwned(scripts[t]);
        }
      }
    }
  }

  /** Every state a schedule reaches can be continued to completion. */
  lemma CompletionReachable(scripts: seq<Script>, pcs: seq<nat>) returns (schedule: seq<nat>, after: seq<nat>)
    requires Located(scripts, pcs) && AllDisciplined(scripts)
    ensures Leads(scripts, pcs, schedule, after)
    ensures Located(scripts, after) && Finished(scripts, after)
    decreases Remaining(scripts, pcs)
  {
    RemainingNatural(scripts, pcs);
    if Finished(scripts, pcs) {
      return [], pcs;
    }
    DeadlockFree(scripts, pcs);
    var t: nat :| CanStep(scripts, pcs, t);
    RemainingStep(scripts, pcs, t);
    var next := pcs[t := pcs[t] + 1];
    RemainingNatural(scripts, next);
    var rest, end := CompletionReachable(scripts, next);
    schedule, after := [t] + rest, end;
    assert schedule[1..] == rest;
  }

  // ----- mutual exclusion -----

  ghost predicate Exclusive(scripts: seq<Script>, pcs: seq<nat>)
    requires Located(scripts, pcs)
  {
    forall t: nat, u: nat, l :: Owner(scripts, pcs, t, l) && Owner(scripts, pcs, u, l) ==> t == u
  }

  /** A step keeps it so that a lock has at most one owner. */
  lemma {:induction false} MutualExclusion(scripts: seq<Script>, pcs: seq<nat>, schedule: seq<nat>, after: seq<nat>)
    requires Located(scripts, pcs) && Exclusive(scripts, pcs) && Leads(scripts, pcs, schedule, after)
    ensures Located(scripts, after) && Exclusive(scripts, after)
    decreases |schedule|
  {
    if |schedule| != 0 {
      var t := schedule[0];
      var next := pcs[t := pcs[t] + 1];
      var ops := scripts[t][..next[t]];
      assert ops[..|ops| - 1] == scripts[t][..pcs[t]];
      forall l, u: nat ensures Owner(scripts, next, u, l) ==>
          Owner(scripts, pcs, u, l) || (u == t && scripts[t][pcs[t]] == Acquire(l)) {
      }
      MutualExclusion(scripts, next, schedule[1..], after);
    }
  }

  /** From the start of any scripts, disciplined or not, no schedule gives a lock two owners. */
  lemma NoTwoOwners(scripts: seq<Script>, schedule: seq<nat>, after: seq<nat>)
    requires Leads(scripts, Start(scripts), schedule, after)
    ensures Located(scripts, after) && Exclusive(scripts, after)
  {
    forall t: nat, l ensures !Owner(scripts, Start(scripts), t, l) {
      if t < |scripts| {
        assert scripts[t][..Start(scripts)[t]] == [];
      }
    }
    MutualExclusion(scripts, Start(scripts), schedule, after);
  }

  // ----- a thread that takes a lock it holds -----

  /** At operation `n` the script takes lock `l`, and takes it again next. */
  predicate RelocksAt(script: Script, n: nat, l: Lock) {
    n + 1 < |script| && script[n] == script[n + 1] == Acquire(l)
  }

  lemma RelockingIsUndisciplined(script: Script, n: nat, l: Lock)
    requires RelocksAt(script, n, l)
    ensures HeldAfter(script).None?
  {
    var one, two := script[..n + 1], script[..n + 2];
    assert two[..n + 1] == one;
    if HeldAfter(script).Some? {
      PrefixHeld(script, n + 1);
      PrefixHeld(script, n + 2);
    }
  }

  /** Whatever the others do, such a thread never gets past its second attempt, so the threads never all finish. */
  lemma {:induction false} RelockingThreadIsStuck(
    scripts: seq<Script>, pcs: seq<nat>, t: nat, n: nat, l: Lock, schedule: seq<nat>, after: seq<nat>)
    requires Located(scripts, pcs) && t < |pcs| && RelocksAt(scripts[t], n, l) && pcs[t] <= n + 1
    requires Leads(scripts, pcs, schedule, after)
    ensures Located(scripts, after) && after[t] <= n + 1 && !Finished(scripts, after)
    decreases |schedule|
  {
    if |schedule| == 0 {
      assert pcs[t] != |scripts[t]|;
    } else {
      var v := schedule[0];
      if v == t && pcs[t] == n + 1 {
        var done := scripts[t][..n + 1];
        assert done[|done| - 1] == Acquire(l);
        assert Owner(scripts, pcs, t, l);
      }
      RelockingThreadIsStuck(scripts, pcs[v := pcs[v] + 1], t, n, l, schedule[1..], after);
    }
  }
}
