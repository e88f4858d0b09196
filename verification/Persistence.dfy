/** The token file is written through: what a restart, or a crash between calls, brings back. */
module Persistence {
  import opened Common
  import opened Storage
  import opened Engine
  import opened Effects
  import opened Runs

  /** A start from this disk would load exactly the token fields in memory. */
  predicate WrittenThrough(a: Auth) {
    LoadToken(a.tokenFile, BLANK_TOKEN) == a.token
  }

  lemma EffectWritesThrough(c: Crypto, a: Auth, e: AuthEffect)
    requires WrittenThrough(a) || e.Started?
    ensures WrittenThrough(AuthAfter(c, a, e))
  {
    TokenRoundTrip(AuthAfter(c, a, e).token, BLANK_TOKEN);
  }

  /** At every call boundary of every run, loading the token file gives the six fields in memory. */
  lemma {:induction false} TokenWrittenThrough(c: Crypto, r: Run, k: nat)
    requires IsRun(c, r) && k <= |r.calls| && r.states[k].up
    ensures WrittenThrough(r.states[k].auth)
  {
    AuthAt(c, r, k - 1);
    UpAt(c, r, k - 1);
    if r.states[k - 1].up {
      TokenWrittenThrough(c, r, k - 1);
    }
    EffectWritesThrough(c, r.states[k - 1].auth, AuthEffectOf(r.states[k - 1], r.calls[k - 1]));
  }

  /** Once a file of the engine's own is there, its bytes are the encoding of the fields from then on. */
  lemma {:induction false} OwnFileStaysExact(c: Crypto, r: Run, j: nat, k: nat)
    requires IsRun(c, r) && j <= k <= |r.calls|
    requires r.states[j].auth.tokenFile == Some(EncodeToken(r.states[j].auth.token))
    ensures r.states[k].auth.tokenFile == Some(EncodeToken(r.states[k].auth.token))
    decreases k
  {
    if j < k {
      OwnFileStaysExact(c, r, j, k - 1);
      AuthAt(c, r, k - 1);
      TokenRoundTrip(r.states[k - 1].auth.token, BLANK_TOKEN);
      EffectKeepsExact(c, r.states[k - 1].auth, AuthEffectOf(r.states[k - 1], r.calls[k - 1]));
    }
  }

  lemma EffectKeepsExact(c: Crypto, a: Auth, e: AuthEffect)
    requires a.tokenFile == Some(EncodeToken(a.token))
    ensures AuthAfter(c, a, e).tokenFile == Some(EncodeToken(AuthAfter(c, a, e).token))
  {
    TokenRoundTrip(a.token, BLANK_TOKEN);
  }

  /** While the library is down, nothing touches the token fields or the file. */
  lemma {:induction false} DownKeepsAuth(c: Crypto, r: Run, j: nat, k: nat)
    requires IsRun(c, r) && j <= k <= |r.calls|
    requires forall m :: j <= m < k ==> !r.states[m].up && !r.calls[m].Initialize?
    ensures r.states[k].auth == r.states[j].auth
    decreases k
  {
    if j < k {
      DownKeepsAuth(c, r, j, k - 1);
      AuthAt(c, r, k - 1);
    }
  }

  /**
   Restart. A Finalize at `j`, any failing calls, and an Initialize at `k` bring back both PIN hashes, the
   three flags and the label; the retry counts are full again and the locks open, whatever they were.
   */
  lemma RestartRestores(c: Crypto, r: Run, j: nat, k: nat)
    requires IsRun(c, r) && j < k < |r.calls|
    requires r.states[j].up && r.calls[j].Finalize? && !r.calls[j].reserved
    requires forall m :: j < m < k ==> !r.calls[m].Initialize?
    requires r.calls[k].Initialize?
    ensures r.replies[k].rv == OK
    ensures var a := r.states[k + 1].auth;
            a.token == r.states[j].auth.token && a.userTries == FULL_TRIES && a.soTries == FULL_TRIES
  {
    TokenWrittenThrough(c, r, j);
    UpAt(c, r, j);
    AuthAt(c, r, j);
    DownUntil(c, r, j + 1, k);
    DownKeepsAuth(c, r, j + 1, k);
    AuthAt(c, r, k);
    StepIs(c, r, k);
  }

  lemma {:induction false} DownUntil(c: Crypto, r: Run, j: nat, k: nat)
    requires IsRun(c, r) && j <= k <= |r.calls| && !r.states[j].up
    requires forall m :: j <= m < k ==> !r.calls[m].Initialize?
    ensures forall m :: j <= m <= k ==> !r.states[m].up
    decreases k
  {
    if j < k {
      DownUntil(c, r, j, k - 1);
      UpAt(c, r, k - 1);
    }
  }

  /**
   Across such a restart every PIN is judged as before, except that a lock is lifted: after it a PIN is accepted
   exactly when its hash is the stored one, and before it exactly when, besides, the role was not locked.
   */
  lemma RestartJudgesAlike(c: Crypto, r: Run, j: nat, k: nat, role: Role, pin: Bytes)
    requires IsRun(c, r) && j < k < |r.calls|
    requires r.states[j].up && r.calls[j].Finalize? && !r.calls[j].reserved
    requires forall m :: j < m < k ==> !r.calls[m].Initialize?
    requires r.calls[k].Initialize?
    ensures var before, after := r.states[j].auth, r.states[k + 1].auth;
            && (VerifyPin(c, after, role, pin).rv == OK <==>
                  PinSet(before.token, role) && c.hash(pin) == PinHash(before.token, role))
            && (VerifyPin(c, before, role, pin).rv == OK <==>
                  VerifyPin(c, after, role, pin).rv == OK && !TriesOf(before, role).locked)
  {
    RestartRestores(c, r, j, k);
  }

  // ----- the label -----

  /** `C_InitToken` stores the caller's label exactly when it is blank from the length of the PIN on. */
  lemma LabelStoredExactlyWhen(pin: Bytes, name: Block)
    ensures TokenName(pin, name) == name <==> forall k :: |pin| <= k < 32 ==> name[k] == 0x20
  {
    var stored := TokenName(pin, name);
    if forall k :: |pin| <= k < 32 ==> name[k] == 0x20 {
      assert forall k :: 0 <= k < 32 ==> stored[k] == name[k];
    }
  }

  /** A label of fourteen letters set with a ten-byte PIN is cut to ten. */
  lemma LongLabelIsCut()
    ensures exists pin: Bytes, name: Block :: PinLengthOk(pin) && TokenName(pin, name) != name
  {
    var pin: Bytes := seq(10, i => 0x31);
    var name: Block := seq(32, i => if i < 14 then 0x41 else 0x20);
    assert PinLengthOk(pin) && TokenName(pin, name)[10] != name[10];
  }
}
