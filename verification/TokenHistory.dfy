/** Which PINs are initialised, and the token's label, told from the calls of a run, across any number of restarts. */
module TokenHistory {
  import opened Common
  import opened Storage
  import opened Engine
  import opened Effects
  import opened Runs
  import opened Persistence

  predicate InitsToken(call: Call, reply: Reply) {
    call.InitToken? && reply.rv == OK
  }

  predicate InitsPin(call: Call, reply: Reply) {
    call.InitPin? && reply.rv == OK
  }

  /** The fields that a start from the present disk would load. */
  function OnDisk(a: Auth): TokenInfo {
    LoadToken(a.tokenFile, BLANK_TOKEN)
  }

  // ----- one call -----

  /** What a call does to the flags and the label: a `C_InitToken` sets all four, a `C_InitPIN` one. */
  predicate FlagsAfter(t: TokenInfo, call: Call, reply: Reply, u: TokenInfo) {
    if InitsToken(call, reply) then
      && u.initialized && u.soPinSet && !u.userPinSet && call.pin.Some? && call.name.Some?
      && forall k :: 0 <= k < 32 ==> u.name[k] == if k < |call.pin.value| then call.name.value[k] else 0x20
    else
      && u.userPinSet == (t.userPinSet || InitsPin(call, reply))
      && u.soPinSet == t.soPinSet && u.initialized == t.initialized && u.name == t.name
  }

  lemma SavedIsOnDisk(a: Auth)
    ensures OnDisk(SaveToken(a)) == a.token
  {
    TokenRoundTrip(a.token, BLANK_TOKEN);
  }

  predicate SameFlags(t: TokenInfo, u: TokenInfo) {
    u.userPinSet == t.userPinSet && u.soPinSet == t.soPinSet && u.initialized == t.initialized && u.name == t.name
  }

  lemma ChangeKeepsFlags(c: Crypto, a: Auth, role: Role, oldPin: Bytes, newPin: Bytes)
    requires WrittenThrough(a)
    ensures SameFlags(OnDisk(a), OnDisk(PinChanged(c, a, role, oldPin, newPin).auth))
  {
    var PinCheck(b, rv) := VerifyPin(c, a, role, oldPin);
    assert b.token == a.token && b.tokenFile == a.tokenFile;
    var w := b.(token := PutHash(b.token, role, c.hash(newPin)));
    SavedIsOnDisk(PutTries(w, role, TriesOf(w, role).(left := PIN_RETRIES)));
  }

  lemma EffectOnDisk(c: Crypto, a: Auth, e: AuthEffect)
    requires WrittenThrough(a) || e.AuthSame? || e.Started?
    ensures var t, u := OnDisk(a), OnDisk(AuthAfter(c, a, e));
            match e
            case TokenSet(pin, name) =>
              u.initialized && u.soPinSet && !u.userPinSet && u.name == TokenName(pin, name)
            case UserPinSet(_) => SameFlags(t.(userPinSet := true), u)
            case _ => SameFlags(t, u)
  {
    match e {
      case TokenSet(pin, name) => SavedIsOnDisk(AuthAfter(c, a, e));
      case UserPinSet(pin) => SavedIsOnDisk(AuthAfter(c, a, e));
      case Changed(role, pin, newPin) => ChangeKeepsFlags(c, a, role, pin, newPin);
      case _ =>
    }
  }

  /** Which calls set the token or the user PIN. */
  lemma EffectIsInit(c: Crypto, s: State, call: Call, after: State, reply: Reply)
    requires Makes(c, s, call, after, reply)
    ensures InitsToken(call, reply) <==> AuthEffectOf(s, call).TokenSet?
    ensures InitsToken(call, reply) ==>
      call.pin.Some? && call.name.Some? && AuthEffectOf(s, call) == TokenSet(call.pin.value, call.name.value)
    ensures InitsPin(call, reply) <==> AuthEffectOf(s, call).UserPinSet?
  {
    assert Step(c, s, call) == Outcome(after, reply);
  }

  lemma DownIsIdle(s: State, call: Call)
    requires !s.up
    ensures AuthEffectOf(s, call).AuthSame? || AuthEffectOf(s, call).Started?
  {
  }

  lemma FlagsStep(c: Crypto, r: Run, k: nat)
    requires IsRun(c, r) && k < |r.calls|
    ensures FlagsAfter(OnDisk(r.states[k].auth), r.calls[k], r.replies[k], OnDisk(r.states[k + 1].auth))
  {
    AuthAt(c, r, k);
    if r.states[k].up {
      TokenWrittenThrough(c, r, k);
    } else {
      DownIsIdle(r.states[k], r.calls[k]);
    }
    assert StepAt(c, r, k);
    EffectIsInit(c, r.states[k], r.calls[k], r.states[k + 1], r.replies[k]);
    EffectOnDisk(c, r.states[k].auth, AuthEffectOf(r.states[k], r.calls[k]));
  }

  // ----- over runs -----

  ghost predicate NoInitToken(r: Run, a: nat, b: nat)
    requires a <= b <= |r.calls| == |r.replies|
  {
    forall m :: a <= m < b ==> !InitsToken(r.calls[m], r.replies[m])
  }

  /** Call `j` initialised the user PIN, and no `C_InitToken` before `k` has reset it. */
  ghost predicate PinInitialised(r: Run, j: nat, k: nat)
    requires j < k <= |r.calls| == |r.replies|
  {
    InitsPin(r.calls[j], r.replies[j]) && NoInitToken(r, j + 1, k)
  }

  /**
   By the calls before `k` the user has a PIN: a `C_InitPIN` succeeded and no `C_InitToken` since, or no `C_InitToken`
   ever did and the token file the process found has one.
   */
  ghost predicate UserHasPin(r: Run, k: nat)
    requires k <= |r.calls| == |r.replies| && |r.states| == |r.calls| + 1
  {
    || (exists j: nat :: j < k && PinInitialised(r, j, k))
    || (NoInitToken(r, 0, k) && OnDisk(r.states[0].auth).userPinSet)
  }

  /** The officer has one once a `C_InitToken` succeeded, or when the token file the process found has one. */
  ghost predicate OfficerHasPin(r: Run, k: nat)
    requires k <= |r.calls| == |r.replies| && |r.states| == |r.calls| + 1
  {
    !NoInitToken(r, 0, k) || OnDisk(r.states[0].auth).soPinSet
  }

  ghost predicate HasPin(r: Run, role: Role, k: nat)
    requires k <= |r.calls| == |r.replies| && |r.states| == |r.calls| + 1
  {
    if role == User then UserHasPin(r, k) else OfficerHasPin(r, k)
  }

  lemma UserHasPinStep(r: Run, k: nat)
    requires k < |r.calls| == |r.replies| && |r.states| == |r.calls| + 1
    ensures UserHasPin(r, k + 1) <==>
      !InitsToken(r.calls[k], r.replies[k]) && (UserHasPin(r, k) || InitsPin(r.calls[k], r.replies[k]))
  {
    if UserHasPin(r, k + 1) && !(NoInitToken(r, 0, k + 1) && OnDisk(r.states[0].auth).userPinSet) {
      var j: nat :| j < k + 1 && PinInitialised(r, j, k + 1);
      assert j < k ==> PinInitialised(r, j, k);
    }
    if !InitsToken(r.calls[k], r.replies[k]) {
      if InitsPin(r.calls[k], r.replies[k]) {
        assert PinInitialised(r, k, k + 1);
      } else if j: nat :| j < k && PinInitialised(r, j, k) {
        assert PinInitialised(r, j, k + 1);
      }
    }
  }

  lemma {:induction false} DiskFlagsAreHistory(c: Crypto, r: Run, k: nat)
    requires IsRun(c, r) && k <= |r.calls|
    ensures OnDisk(r.states[k].auth).userPinSet <==> UserHasPin(r, k)
    ensures OnDisk(r.states[k].auth).soPinSet <==> OfficerHasPin(r, k)
    ensures OnDisk(r.states[k].auth).initialized <==> !NoInitToken(r, 0, k) || OnDisk(r.states[0].auth).initialized
  {
    if k != 0 {
      DiskFlagsAreHistory(c, r, k - 1);
      FlagsStep(c, r, k - 1);
      UserHasPinStep(r, k - 1);
    }
  }

  /** A PIN counts as initialised exactly when the calls of the run say so, across any number of restarts. */
  lemma PinFlagsAreHistory(c: Crypto, r: Run, role: Role, k: nat)
    requires IsRun(c, r) && k <= |r.calls| && r.states[k].up
    ensures PinSet(r.states[k].auth.token, role) <==> HasPin(r, role, k)
    ensures r.states[k].auth.token.initialized <==> !NoInitToken(r, 0, k) || OnDisk(r.states[0].auth).initialized
  {
    TokenWrittenThrough(c, r, k);
    DiskFlagsAreHistory(c, r, k);
  }

  // ----- the label -----

  lemma {:induction false} DiskLabelStays(c: Crypto, r: Run, j: nat, k: nat)
    requires IsRun(c, r) && j <= k <= |r.calls| && NoInitToken(r, j, k)
    ensures OnDisk(r.states[k].auth).name == OnDisk(r.states[j].auth).name
    decreases k
  {
    if j < k {
      DiskLabelStays(c, r, j, k - 1);
      FlagsStep(c, r, k - 1);
    }
  }

  /** The label is the one the last successful `C_InitToken` was given, cut at the length of its PIN. */
  lemma LabelIsLastSet(c: Crypto, r: Run, j: nat, k: nat)
    requires IsRun(c, r) && j < k <= |r.calls| && r.states[k].up
    requires InitsToken(r.calls[j], r.replies[j]) && NoInitToken(r, j + 1, k)
    ensures r.calls[j].pin.Some? && r.calls[j].name.Some?
    ensures forall i :: 0 <= i < 32 ==>
      r.states[k].auth.token.name[i] == if i < |r.calls[j].pin.value| then r.calls[j].name.value[i] else 0x20
  {
    FlagsStep(c, r, j);
    DiskLabelStays(c, r, j + 1, k);
    TokenWrittenThrough(c, r, k);
  }

  /** Without one it is that of the token file the process found, or blank zeros. */
  lemma LabelAsFound(c: Crypto, r: Run, k: nat)
    requires IsRun(c, r) && k <= |r.calls| && r.states[k].up && NoInitToken(r, 0, k)
    ensures r.states[k].auth.token.name == OnDisk(r.states[0].auth).name
  {
    DiskLabelStays(c, r, 0, k);
    TokenWrittenThrough(c, r, k);
  }
}
