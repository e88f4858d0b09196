/** The retry counters and stored hashes as summaries of the history of a run. */
module Lockout {
  import opened Common
  import opened Storage
  import opened Engine
  import opened Effects
  import opened Runs
  import opened Persistence
  import opened TokenHistory

  /** What a call means for one PIN, told from the PIN presented and not from the retry counter. */
  datatype PinEvent = NoEvent | Wrong | Right | Reset

  /** A PIN presented for a role counts once that role's PIN has been initialised. */
  function Presented(c: Crypto, t: TokenInfo, role: Role, pin: Bytes): PinEvent {
    if !PinSet(t, role) then NoEvent else if c.hash(pin) == PinHash(t, role) then Right else Wrong
  }

  function EventOf(c: Crypto, s: State, call: Call, role: Role): PinEvent {
    match AuthEffectOf(s, call)
    case AuthSame => NoEvent
    case Started => Reset
    case TokenSet(_, _) => Reset
    case UserPinSet(_) => if role == User then Reset else NoEvent
    case Checked(r, pin) => if r == role then Presented(c, s.auth.token, role, pin) else NoEvent
    case Changed(r, pin, _) => if r == role then Presented(c, s.auth.token, role, pin) else NoEvent
  }

  /**
   Consecutive wrong PINs since the last reset, start or right PIN, wrong ones offered to a locked PIN included;
   a right PIN no longer helps once three wrong ones are on record.
   */
  function Streak(n: nat, e: PinEvent): nat {
    match e
    case NoEvent => n
    case Wrong => n + 1
    case Right => if n >= PIN_RETRIES then n else 0
    case Reset => 0
  }

  function StreakAt(c: Crypto, r: Run, role: Role, k: nat): nat
    requires k <= |r.calls| && |r.states| == |r.calls| + 1
  {
    if k == 0 then 0 else Streak(StreakAt(c, r, role, k - 1), EventOf(c, r.states[k - 1], r.calls[k - 1], role))
  }

  predicate Summarises(t: Tries, streak: nat) {
    t.left == (if streak >= PIN_RETRIES then 0 else PIN_RETRIES - streak) && (t.locked <==> streak >= PIN_RETRIES)
  }

  lemma EffectSummarises(c: Crypto, s: State, call: Call, role: Role, n: nat)
    requires Summarises(TriesOf(s.auth, role), n) || AuthEffectOf(s, call) == Started
    ensures Summarises(TriesOf(AuthAfter(c, s.auth, AuthEffectOf(s, call)), role), Streak(n, EventOf(c, s, call, role)))
  {
  }

  /** In every run, for each role, the retry count and the lock are the summary of the history. */
  lemma {:induction false} RetryCountIsHistory(c: Crypto, r: Run, role: Role, k: nat)
    requires IsRun(c, r) && k <= |r.calls| && r.states[k].up
    ensures Summarises(TriesOf(r.states[k].auth, role), StreakAt(c, r, role, k))
  {
    if k != 0 {
      AuthAt(c, r, k - 1);
      UpAt(c, r, k - 1);
      if r.states[k - 1].up {
        RetryCountIsHistory(c, r, role, k - 1);
      }
      EffectSummarises(c, r.states[k - 1], r.calls[k - 1], role, StreakAt(c, r, role, k - 1));
    }
  }

  /** The role whose PIN a call presents, if it gets that far. */
  function AttemptOf(s: State, call: Call): Option<(Role, Bytes)> {
    match AuthEffectOf(s, call)
    case Checked(role, pin) => Some((role, pin))
    case Changed(role, pin, _) => Some((role, pin))
    case _ => None
  }

  lemma AttemptReply(c: Crypto, s: State, call: Call, after: State, reply: Reply)
    requires Makes(c, s, call, after, reply) && AttemptOf(s, call).Some?
    ensures var (role, pin) := AttemptOf(s, call).value; reply.rv == VerifyPin(c, s.auth, role, pin).rv
  {
    assert Step(c, s, call) == Outcome(after, reply);
  }

  /** What a caller who presents a PIN is told, from the history alone. */
  lemma AttemptIsJudgedByHistory(c: Crypto, r: Run, k: nat, role: Role, pin: Bytes)
    requires IsRun(c, r) && k < |r.calls| && r.states[k].up && AttemptOf(r.states[k], r.calls[k]) == Some((role, pin))
    ensures r.replies[k].rv ==
      match EventOf(c, r.states[k], r.calls[k], role)
      case Wrong => if StreakAt(c, r, role, k) + 1 >= PIN_RETRIES then PinLocked else PinIncorrect
      case Right => if StreakAt(c, r, role, k) >= PIN_RETRIES then PinLocked else OK
      case _ => UserPinNotInitialized
  {
    RetryCountIsHistory(c, r, role, k);
    assert StepAt(c, r, k);
    AttemptReply(c, r.states[k], r.calls[k], r.states[k + 1], r.replies[k]);
  }

  /** Call `k` neither resets the PIN outright nor stops the library. */
  ghost predicate NoReset(c: Crypto, r: Run, role: Role, k: nat)
    requires k < |r.calls| && |r.states| == |r.calls| + 1
  {
    EventOf(c, r.states[k], r.calls[k], role) != Reset && r.states[k + 1].up
  }

  /**
   A locked PIN stays locked, whatever PINs are offered, until an InitToken, for the user an InitPIN, or a
   restart.
   */
  lemma {:induction false} LockedStaysLocked(c: Crypto, r: Run, role: Role, j: nat, k: nat)
    requires IsRun(c, r) && j <= k <= |r.calls| && r.states[j].up && TriesOf(r.states[j].auth, role).locked
    requires forall m {:trigger NoReset(c, r, role, m)} :: j <= m < k ==> NoReset(c, r, role, m)
    ensures r.states[k].up && StreakAt(c, r, role, k) >= PIN_RETRIES && TriesOf(r.states[k].auth, role).locked
    decreases k
  {
    if j < k {
      LockedStaysLocked(c, r, role, j, k - 1);
      assert NoReset(c, r, role, k - 1);
    }
    RetryCountIsHistory(c, r, role, k);
  }

  // ----- at most three wrong comparisons -----

  /** The number of wrong PINs that were really compared by the calls from `a` up to `b`. */
  function ComparedWrong(c: Crypto, r: Run, role: Role, a: nat, b: nat): nat
    requires a <= b <= |r.calls| && |r.states| == |r.calls| + 1
    decreases b
  {
    if a == b then 0
    else
      var wrong := EventOf(c, r.states[b - 1], r.calls[b - 1], role) == Wrong
                   && !TriesOf(r.states[b - 1].auth, role).locked;
      ComparedWrong(c, r, role, a, b - 1) + if wrong then 1 else 0
  }

  /** Call `k` does not reset the PIN's history, neither outright nor by a right PIN that still helps. */
  ghost predicate Calm(c: Crypto, r: Run, role: Role, k: nat)
    requires k < |r.calls| && |r.states| == |r.calls| + 1
  {
    var e := EventOf(c, r.states[k], r.calls[k], role);
    r.states[k].up && e != Reset && (e == Right ==> TriesOf(r.states[k].auth, role).locked)
  }

  ghost predicate Undisturbed(c: Crypto, r: Run, role: Role, a: nat, b: nat)
    requires a <= b <= |r.calls| && |r.states| == |r.calls| + 1
  {
    forall k {:trigger Calm(c, r, role, k)} :: a <= k < b ==> Calm(c, r, role, k)
  }

  lemma CappedStep(n: nat, e: PinEvent, locked: bool)
    requires (locked <==> n >= PIN_RETRIES) && e != Reset && (e == Right ==> locked)
    ensures Min(Streak(n, e), PIN_RETRIES) == Min(n, PIN_RETRIES) + if e == Wrong && !locked then 1 else 0
  {
  }

  /** One more call of an undisturbed stretch moves the capped streak and the count of comparisons alike. */
  lemma ComparedStep(c: Crypto, r: Run, role: Role, a: nat, k: nat, b: nat)
    requires IsRun(c, r) && a < k <= b <= |r.calls| && Undisturbed(c, r, role, a, b)
    ensures Min(StreakAt(c, r, role, k), PIN_RETRIES) - Min(StreakAt(c, r, role, k - 1), PIN_RETRIES)
            == ComparedWrong(c, r, role, a, k) - ComparedWrong(c, r, role, a, k - 1)
  {
    assert Calm(c, r, role, k - 1);
    RetryCountIsHistory(c, r, role, k - 1);
    CappedStep(StreakAt(c, r, role, k - 1), EventOf(c, r.states[k - 1], r.calls[k - 1], role),
               TriesOf(r.states[k - 1].auth, role).locked);
  }

  predicate Level(f: nat -> int, k: nat) {
    k > 0 && f(k) == f(k - 1)
  }

  lemma {:induction false} Telescopes(f: nat -> int, a: nat, b: nat)
    requires a <= b && forall k: nat :: a < k <= b ==> Level(f, k)
    ensures f(b) == f(a)
    decreases b
  {
    if a < b {
      Telescopes(f, a, b - 1);
      assert Level(f, b);
    }
  }

  /** The capped streak after `k` calls, less the wrong PINs compared since the `a`-th. */
  function Surplus(c: Crypto, r: Run, role: Role, a: nat, k: nat): int
    requires a <= k <= |r.calls| && |r.states| == |r.calls| + 1
  {
    Min(StreakAt(c, r, role, k), PIN_RETRIES) - ComparedWrong(c, r, role, a, k)
  }

  /** Over such a stretch at most three wrong PINs are compared, however many are tried. */
  lemma AtMostThreeCompared(c: Crypto, r: Run, role: Role, a: nat, b: nat)
    requires IsRun(c, r) && a <= b <= |r.calls| && Undisturbed(c, r, role, a, b)
    ensures Min(StreakAt(c, r, role, b), PIN_RETRIES)
            == Min(StreakAt(c, r, role, a), PIN_RETRIES) + ComparedWrong(c, r, role, a, b)
    ensures ComparedWrong(c, r, role, a, b) <= PIN_RETRIES
  {
    var f: nat -> int := k => if a <= k <= b then Surplus(c, r, role, a, k) else 0;
    forall k: nat | a < k <= b ensures Level(f, k) {
      ComparedStep(c, r, role, a, k, b);
    }
    Telescopes(f, a, b);
    assert Surplus(c, r, role, a, b) == Surplus(c, r, role, a, a);
  }

  // ----- the stored hash -----

  /** The PIN a successful call sets for a role; a `C_SetPIN` sets it for whoever is logged in. */
  function PinSetBy(s: State, call: Call, reply: Reply, role: Role): Option<Bytes> {
    if reply.rv != OK then None
    else match call
      case InitToken(_, pin, _) => if role == SecurityOfficer then pin else None
      case InitPin(_, pin) => if role == User then pin else None
      case SetPin(h, _, newPin) =>
        if GetSession(s, h).At? && role == (if s.sessions[GetSession(s, h).i].item.user then User else SecurityOfficer)
        then newPin else None
      case _ => None
  }

  ghost predicate SetsNoPin(r: Run, role: Role, m: nat)
    requires m < |r.calls| == |r.replies| && |r.states| == |r.calls| + 1
  {
    PinSetBy(r.states[m], r.calls[m], r.replies[m], role).None?
  }

  /** The hash for a role that a start from the present disk would load. */
  function DiskHash(a: Auth, role: Role): Block {
    PinHash(LoadToken(a.tokenFile, BLANK_TOKEN), role)
  }

  /** The effect on the disk of a call made while memory and disk agree, or that does not touch the PINs. */
  lemma EffectSetsDiskHash(c: Crypto, a: Auth, e: AuthEffect, role: Role)
    requires WrittenThrough(a) || e.AuthSame? || e.Started?
    ensures DiskHash(AuthAfter(c, a, e), role) ==
      match e
      case TokenSet(pin, _) => if role == SecurityOfficer then c.hash(pin) else DiskHash(a, role)
      case UserPinSet(pin) => if role == User then c.hash(pin) else DiskHash(a, role)
      case Changed(who, oldPin, newPin) =>
        if who == role && PinChanged(c, a, who, oldPin, newPin).rv == OK then c.hash(newPin) else DiskHash(a, role)
      case _ => DiskHash(a, role)
  {
    TokenRoundTrip(AuthAfter(c, a, e).token, BLANK_TOKEN);
    if e.Changed? {
      ChangeSetsDiskHash(c, a, e.role, e.pin, e.newPin, role);
    }
  }

  lemma ChangeSetsDiskHash(c: Crypto, a: Auth, who: Role, oldPin: Bytes, newPin: Bytes, role: Role)
    requires WrittenThrough(a)
    ensures var r := PinChanged(c, a, who, oldPin, newPin);
            DiskHash(r.auth, role) == if who == role && r.rv == OK then c.hash(newPin) else DiskHash(a, role)
  {
    TokenRoundTrip(PinChanged(c, a, who, oldPin, newPin).auth.token, BLANK_TOKEN);
  }

  /** A PIN is set by a call exactly when its effect says so. */
  lemma EffectIsPinSet(c: Crypto, s: State, call: Call, role: Role)
    ensures PinSetBy(s, call, Step(c, s, call).reply, role) ==
      match AuthEffectOf(s, call)
      case TokenSet(pin, _) => if role == SecurityOfficer then Some(pin) else None
      case UserPinSet(pin) => if role == User then Some(pin) else None
      case Changed(who, oldPin, newPin) =>
        if who == role && PinChanged(c, s.auth, who, oldPin, newPin).rv == OK then Some(newPin) else None
      case _ => None
  {
    if call.SetPin? {
      SetPinIsPinSet(c, s, call, role);
    }
  }

  lemma SetPinIsPinSet(c: Crypto, s: State, call: Call, role: Role)
    requires call.SetPin?
    ensures PinSetBy(s, call, Step(c, s, call).reply, role) ==
      match AuthEffectOf(s, call)
      case Changed(who, oldPin, newPin) =>
        if who == role && PinChanged(c, s.auth, who, oldPin, newPin).rv == OK then Some(newPin) else None
      case _ => None
  {
  }

  /** One call: the hash on disk is that of the PIN the call sets, or stays. */
  lemma DiskHashStep(c: Crypto, r: Run, role: Role, k: nat)
    requires IsRun(c, r) && k < |r.calls|
    ensures DiskHash(r.states[k + 1].auth, role) ==
      match PinSetBy(r.states[k], r.calls[k], r.replies[k], role)
      case Some(pin) => c.hash(pin)
      case None => DiskHash(r.states[k].auth, role)
  {
    AuthAt(c, r, k);
    if r.states[k].up {
      TokenWrittenThrough(c, r, k);
    } else {
      DownEffect(r.states[k], r.calls[k]);
    }
    EffectSetsDiskHash(c, r.states[k].auth, AuthEffectOf(r.states[k], r.calls[k]), role);
    assert StepAt(c, r, k);
    EffectIsPinSet(c, r.states[k], r.calls[k], role);
  }

  lemma DownEffect(s: State, call: Call)
    requires !s.up
    ensures AuthEffectOf(s, call).AuthSame? || AuthEffectOf(s, call).Started?
  {
  }

  /** Call `j` is the last before `k` that set the PIN of the role, and set it to `pin`. */
  ghost predicate LastSet(r: Run, role: Role, j: nat, k: nat, pin: Bytes)
    requires j < k <= |r.calls| == |r.replies| && |r.states| == |r.calls| + 1
  {
    && PinSetBy(r.states[j], r.calls[j], r.replies[j], role) == Some(pin)
    && forall m {:trigger SetsNoPin(r, role, m)} :: j < m < k ==> SetsNoPin(r, role, m)
  }

  datatype LastSetting = SetAt(j: nat, pin: Bytes) | NeverSet

  lemma {:induction false} DiskHashIsLastSet(c: Crypto, r: Run, role: Role, k: nat) returns (last: LastSetting)
    requires IsRun(c, r) && k <= |r.calls|
    ensures match last
            case SetAt(j, pin) =>
              j < k && LastSet(r, role, j, k, pin) && DiskHash(r.states[k].auth, role) == c.hash(pin)
            case NeverSet =>
              && (forall m {:trigger SetsNoPin(r, role, m)} :: 0 <= m < k ==> SetsNoPin(r, role, m))
              && DiskHash(r.states[k].auth, role) == DiskHash(r.states[0].auth, role)
  {
    last := NeverSet;
    if k != 0 {
      DiskHashStep(c, r, role, k - 1);
      var pinSet := PinSetBy(r.states[k - 1], r.calls[k - 1], r.replies[k - 1], role);
      if pinSet.Some? {
        last := SetAt(k - 1, pinSet.value);
      } else {
        assert SetsNoPin(r, role, k - 1);
        last := DiskHashIsLastSet(c, r, role, k - 1);
      }
    }
  }

  /**
   Across any number of restarts, the stored hash is that of the PIN the last successful `C_InitToken`, `C_InitPIN`
   or `C_SetPIN` for the role set; when there was none, it is the one in the token file the process found.
   */
  lemma StoredHashIsLastSet(c: Crypto, r: Run, role: Role, k: nat) returns (last: LastSetting)
    requires IsRun(c, r) && k <= |r.calls| && r.states[k].up
    ensures match last
            case SetAt(j, pin) =>
              j < k && LastSet(r, role, j, k, pin) && PinHash(r.states[k].auth.token, role) == c.hash(pin)
            case NeverSet =>
              && (forall m {:trigger SetsNoPin(r, role, m)} :: 0 <= m < k ==> SetsNoPin(r, role, m))
              && PinHash(r.states[k].auth.token, role) == DiskHash(r.states[0].auth, role)
  {
    TokenWrittenThrough(c, r, k);
    last := DiskHashIsLastSet(c, r, role, k);
  }

  lemma OneLastSet(r: Run, role: Role, i: nat, p: Bytes, j: nat, q: Bytes, k: nat)
    requires i < k && j < k <= |r.calls| == |r.replies| && |r.states| == |r.calls| + 1
    requires LastSet(r, role, i, k, p) && LastSet(r, role, j, k, q)
    ensures i == j && p == q
  {
    assert !SetsNoPin(r, role, i) && !SetsNoPin(r, role, j);
  }

  /**
   A PIN offered at `k`, once one was set at `j` and never since, is accepted exactly when it hashes like that one,
   no `C_InitToken` has taken the role's PIN away again, and fewer than three wrong ones stand on record.
   */
  lemma AcceptedExactlyWhen(c: Crypto, r: Run, j: nat, k: nat, role: Role, setPin: Bytes, offered: Bytes)
    requires IsRun(c, r) && j < k < |r.calls| && r.states[k].up && LastSet(r, role, j, k, setPin)
    requires AttemptOf(r.states[k], r.calls[k]) == Some((role, offered))
    ensures r.replies[k].rv == OK <==>
      c.hash(offered) == c.hash(setPin) && HasPin(r, role, k) && StreakAt(c, r, role, k) < PIN_RETRIES
  {
    assert !SetsNoPin(r, role, j);
    var last := StoredHashIsLastSet(c, r, role, k);
    OneLastSet(r, role, j, setPin, last.j, last.pin, k);
    PinFlagsAreHistory(c, r, role, k);
    AttemptIsJudgedByHistory(c, r, k, role, offered);
  }

  /** In particular a PIN that a `C_InitPIN` set is usable from then on, until the token or the PIN is set anew. */
  lemma InitialisedPinWorks(c: Crypto, r: Run, j: nat, k: nat, pin: Bytes)
    requires IsRun(c, r) && j < k < |r.calls| && r.states[k].up && PinInitialised(r, j, k)
    requires r.calls[j].pin == Some(pin) && LastSet(r, User, j, k, pin)
    requires AttemptOf(r.states[k], r.calls[k]) == Some((User, pin)) && StreakAt(c, r, User, k) < PIN_RETRIES
    ensures r.replies[k].rv == OK
  {
    AcceptedExactlyWhen(c, r, j, k, User, pin, pin);
  }
}
