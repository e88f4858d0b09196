/** Runs of the engine from a fresh process, and what every state of every run satisfies. */
module Runs {
  import opened Common
  import opened Tables
  import opened Objects
  import opened Engine
  import opened HandleSupply
  import opened Effects

  /** A run: `states[k+1]` and `replies[k]` are what `calls[k]` makes of `states[k]`. */
  datatype Run = Run(states: seq<State>, calls: seq<Call>, replies: seq<Reply>)

  ghost predicate StepAt(c: Crypto, r: Run, k: nat)
    requires k < |r.calls| == |r.replies| && |r.states| == |r.calls| + 1
  {
    Makes(c, r.states[k], r.calls[k], r.states[k + 1], r.replies[k])
  }

  ghost predicate IsRun(c: Crypto, r: Run) {
    && |r.states| == |r.calls| + 1 && |r.replies| == |r.calls|
    && Boots(r.states[0])
    && forall k {:trigger StepAt(c, r, k)} :: 0 <= k < |r.calls| ==> StepAt(c, r, k)
  }

  lemma StepIs(c: Crypto, r: Run, k: nat)
    requires IsRun(c, r) && k < |r.calls|
    ensures Completes(r.states[k], r.calls[k])
    ensures Step(c, r.states[k], r.calls[k]) == Outcome(r.states[k + 1], r.replies[k])
  {
    assert StepAt(c, r, k);
  }

  // ----- sessions -----

  /** The state a session must show for its mode and login flags. */
  function ExpectedState(ses: Session): SessionState {
    if ses.so then RwSo
    else if ses.user then (if ses.readWrite then RwUser else RoUser)
    else if ses.readWrite then RwPublic else RoPublic
  }

  predicate SessionOk(ses: Session) {
    && !(ses.user && ses.so)
    && (ses.so ==> ses.readWrite)
    && ses.state == ExpectedState(ses)
    && (ses.operation.active ==> ses.operation.kind != NoOperation)
  }

  ghost predicate SessionsOk(t: Sessions) {
    forall i :: 0 <= i < MAX_SESSIONS && t[i].Used? ==> SessionOk(t[i].item)
  }

  ghost predicate SessionHandlesOk(s: State) {
    s.sessionsIssued < TWO64 ==>
      && Distinct(s.sessions)
      && forall i :: 0 <= i < MAX_SESSIONS && s.sessions[i].Used? ==> 1 <= s.sessions[i].handle <= s.sessionsIssued
  }

  // ----- PINs -----

  predicate TriesOk(t: Tries) {
    t.left <= PIN_RETRIES && (t.locked <==> t.left == 0)
  }

  // ----- objects -----

  /** `h` is one of the first `issued` handles. */
  predicate Issued(h: nat, issued: nat) {
    1 <= h < TWO32 && Serial(h) <= issued
  }

  ghost predicate ObjectHandlesOk(st: Store) {
    st.issued <= TWO28 ==>
      && Distinct(st.objects)
      && forall i :: 0 <= i < MAX_OBJECTS && st.objects[i].Used? ==> Issued(st.objects[i].handle, st.issued)
  }

  ghost predicate SecretsOk(st: Store) {
    forall i :: 0 <= i < MAX_OBJECTS && st.objects[i].Used? ==>
      st.objects[i].item.isSensitive && !st.objects[i].item.isExtractable
  }

  ghost predicate Sound(s: State) {
    && SessionsOk(s.sessions) && SessionHandlesOk(s)
    && (s.up ==> TriesOk(s.auth.userTries) && TriesOk(s.auth.soTries))
    && (!s.up ==> AllFree(s.sessions) && AllFree(s.store.objects))
    && ObjectHandlesOk(s.store) && SecretsOk(s.store)
  }

  // ----- every step keeps soundness -----

  lemma SessionsStayOk(s: State, call: Call, reply: Reply, e: SessionEffect, after: State)
    requires SessionsOk(s.sessions) && SessionEffectOk(s, call, reply, e) && SessionsAfter(s, e, after)
    ensures SessionsOk(after.sessions)
  {
    assert SessionEffectIs(s, call, reply, e);
  }

  lemma SessionHandlesStayOk(s: State, call: Call, reply: Reply, e: SessionEffect, after: State)
    requires SessionHandlesOk(s) && SessionEffectOk(s, call, reply, e) && SessionsAfter(s, e, after)
    ensures SessionHandlesOk(after)
  {
    assert SessionEffectIs(s, call, reply, e);
  }

  lemma InstallOneSound(st: Store, i: nat, kind: nat, o: Object)
    requires ObjectHandlesOk(st) && SecretsOk(st) && i < MAX_OBJECTS && st.objects[i].Free?
    requires o.isSensitive && !o.isExtractable
    ensures var u := InsertObject(st, i, kind, o); ObjectHandlesOk(u) && SecretsOk(u)
  {
    if st.issued < TWO28 {
      SerialOfHandle(kind, st.issued);
    }
  }

  lemma StoreStaysSound(s: State, call: Call, reply: Reply, e: StoreEffect)
    requires ObjectHandlesOk(s.store) && SecretsOk(s.store) && StoreEffectOk(s, call, reply, e)
    ensures ObjectHandlesOk(StoreAfter(s.store, e)) && SecretsOk(StoreAfter(s.store, e))
  {
    assert StoreEffectIs(s, call, reply, e);
    match e {
      case Inserted(i, o) => InstallOneSound(s.store, i, o.kind, o);
      case Paired(i, j, pub, priv) =>
        InstallOneSound(s.store, i, TYPE_PUBLIC_KEY, pub);
        InstallOneSound(InsertObject(s.store, i, TYPE_PUBLIC_KEY, pub), j, TYPE_PRIVATE_KEY, priv);
      case _ =>
    }
  }

  ghost predicate AuthOk(a: Auth) {
    TriesOk(a.userTries) && TriesOk(a.soTries)
  }

  lemma AuthStaysSound(c: Crypto, a: Auth, e: AuthEffect)
    requires AuthOk(a) || e.Started?
    ensures AuthOk(AuthAfter(c, a, e))
  {
  }

  /** A call that needs the library running changes nothing when it is not. */
  lemma DownStaysEmpty(c: Crypto, s: State, call: Call, after: State, reply: Reply)
    requires Makes(c, s, call, after, reply) && !s.up && AllFree(s.sessions) && AllFree(s.store.objects)
    ensures AllFree(after.sessions) && AllFree(after.store.objects)
  {
    var e := SessionEffectOf(c, s, call, after, reply);
    var f := StoreEffectOf(c, s, call, after, reply);
    assert SessionEffectIs(s, call, reply, e) && StoreEffectIs(s, call, reply, f);
  }

  lemma UpAfter(c: Crypto, s: State, call: Call, after: State, reply: Reply)
    requires Makes(c, s, call, after, reply) && (!s.up ==> AllFree(s.sessions) && AllFree(s.store.objects))
    ensures after.up && !s.up ==> AuthEffectOf(s, call) == Started
    ensures !after.up ==> AllFree(after.sessions) && AllFree(after.store.objects)
  {
    if call.Initialize? || call.Finalize? {
      assert Step(c, s, call) == Outcome(after, reply);
    } else {
      UntouchedUp(c, s, call, after, reply);
      if !s.up {
        DownStaysEmpty(c, s, call, after, reply);
      }
    }
  }

  lemma StepSound(c: Crypto, s: State, call: Call, after: State, reply: Reply)
    requires Makes(c, s, call, after, reply) && Sound(s)
    ensures Sound(after)
  {
    var e := SessionEffectOf(c, s, call, after, reply);
    SessionsStayOk(s, call, reply, e, after);
    SessionHandlesStayOk(s, call, reply, e, after);
    var f := StoreEffectOf(c, s, call, after, reply);
    StoreStaysSound(s, call, reply, f);
    AuthEffectIs(c, s, call, after, reply);
    UpAfter(c, s, call, after, reply);
    if after.up {
      AuthStaysSound(c, s.auth, AuthEffectOf(s, call));
    }
  }

  lemma {:induction false} RunSound(c: Crypto, r: Run, k: nat)
    requires IsRun(c, r) && k <= |r.calls|
    ensures Sound(r.states[k])
  {
    if k != 0 {
      RunSound(c, r, k - 1);
      assert StepAt(c, r, k - 1);
      StepSound(c, r.states[k - 1], r.calls[k - 1], r.states[k], r.replies[k - 1]);
    }
  }

  // ----- the counters only grow -----

  lemma EffectCounts(s: State, e: SessionEffect, f: StoreEffect, after: State)
    requires SessionsInRange(s, e) && SessionsAfter(s, e, after)
    requires StoreInRange(s.store, f) && after.store == StoreAfter(s.store, f)
    ensures s.sessionsIssued <= after.sessionsIssued && s.store.issued <= after.store.issued
  {
  }

  lemma StepCounts(c: Crypto, s: State, call: Call, after: State, reply: Reply)
    requires Makes(c, s, call, after, reply)
    ensures s.sessionsIssued <= after.sessionsIssued && s.store.issued <= after.store.issued
  {
    var e := SessionEffectOf(c, s, call, after, reply);
    var f := StoreEffectOf(c, s, call, after, reply);
    EffectCounts(s, e, f, after);
  }

  lemma {:induction false} RunCounts(c: Crypto, r: Run, j: nat, k: nat)
    requires IsRun(c, r) && j <= k <= |r.calls|
    ensures r.states[j].sessionsIssued <= r.states[k].sessionsIssued
    ensures r.states[j].store.issued <= r.states[k].store.issued
    decreases k
  {
    if j < k {
      RunCounts(c, r, j, k - 1);
      assert StepAt(c, r, k - 1);
      StepCounts(c, r.states[k - 1], r.calls[k - 1], r.states[k], r.replies[k - 1]);
    }
  }

  // ----- the effect of the call at a place in a run -----

  lemma AuthAt(c: Crypto, r: Run, k: nat)
    requires IsRun(c, r) && k < |r.calls|
    ensures r.states[k + 1].auth == AuthAfter(c, r.states[k].auth, AuthEffectOf(r.states[k], r.calls[k]))
  {
    assert StepAt(c, r, k);
    AuthEffectIs(c, r.states[k], r.calls[k], r.states[k + 1], r.replies[k]);
  }

  lemma SessionsAt(c: Crypto, r: Run, k: nat) returns (e: SessionEffect)
    requires IsRun(c, r) && k < |r.calls|
    ensures SessionEffectOk(r.states[k], r.calls[k], r.replies[k], e) && SessionsAfter(r.states[k], e, r.states[k + 1])
  {
    assert StepAt(c, r, k);
    e := SessionEffectOf(c, r.states[k], r.calls[k], r.states[k + 1], r.replies[k]);
  }

  lemma StoreAt(c: Crypto, r: Run, k: nat) returns (e: StoreEffect)
    requires IsRun(c, r) && k < |r.calls|
    ensures StoreEffectOk(r.states[k], r.calls[k], r.replies[k], e)
    ensures r.states[k + 1].store == StoreAfter(r.states[k].store, e)
  {
    assert StepAt(c, r, k);
    e := StoreEffectOf(c, r.states[k], r.calls[k], r.states[k + 1], r.replies[k]);
  }

  /** `up` changes exactly at a successful Initialize or Finalize. */
  lemma UpAt(c: Crypto, r: Run, k: nat)
    requires IsRun(c, r) && k < |r.calls|
    ensures r.states[k + 1].up <==>
      if r.calls[k].Initialize? then true
      else if r.calls[k].Finalize? && !r.calls[k].reserved then false
      else r.states[k].up
  {
    StepIs(c, r, k);
    if !r.calls[k].Initialize? && !r.calls[k].Finalize? {
      UntouchedUp(c, r.states[k], r.calls[k], r.states[k + 1], r.replies[k]);
    }
  }
}
