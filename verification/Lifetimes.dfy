/**
 Objects over a run, told by their handles: what a handle names never changes but for its label, and only at a
 `C_SetAttributeValue` on it; and everything a handle has named is what the call that returned it installed.
 All of it while at most 2^28 object handles have been issued.
 */
module Lifetimes {
  import opened Common
  import opened Tables
  import opened Objects
  import opened Engine
  import opened HandleSupply
  import opened Effects
  import opened Runs

  ghost predicate HoldsObject(s: State, h: nat, o: Object) {
    Holds(s.store.objects, h, o)
  }

  /** The call may change the label of the object named `h`. */
  predicate Relabels(call: Call, h: nat) {
    call.SetAttribute? && call.target == h
  }

  /** The object went from `p` to `o` in one call that does not install it. */
  predicate Carried(call: Call, h: nat, p: Object, o: Object) {
    SameButLabel(p, o) && (!Relabels(call, h) ==> p == o)
  }

  // ----- what one call installs -----

  /** The objects a call installs, under the handles it returns. */
  function BornBy(call: Call, reply: Reply): map<nat, Object> {
    if call.CreateObject? && call.template.Some? && reply.rv == OK && reply.out.Handle? then
      map[reply.out.handle := ParsedObject(call.template.value)]
    else if call.GenerateKeyPair? && reply.rv == OK && reply.out.KeyPair? then
      match Generate(call.mechanism, call.publicTemplate, call.material)
      case NoKeys(_) => map[]
      case Keys(pub, priv) =>
        map[reply.out.publicKey := PublicHalf(call.publicTemplate, pub),
            reply.out.privateKey := PrivateHalf(call.privateTemplate, priv)]
    else map[]
  }

  /** The same, told by the effect on the store. */
  ghost function BornIn(st: Store, e: StoreEffect): map<nat, Object> {
    match e
    case Inserted(_, o) => map[ObjectHandle(o.kind, st.issued) := o]
    case Paired(_, _, pub, priv) =>
      map[ObjectHandle(TYPE_PUBLIC_KEY, st.issued) := pub, ObjectHandle(TYPE_PRIVATE_KEY, st.issued + 1) := priv]
    case _ => map[]
  }

  lemma BornByEffect(s: State, call: Call, reply: Reply, e: StoreEffect)
    requires StoreEffectOk(s, call, reply, e)
    ensures BornBy(call, reply) == BornIn(s.store, e)
  {
    if e.Paired? {
      BornByPair(s, call, reply, e);
    } else if e.Inserted? {
      BornByCreate(s, call, reply, e);
    } else {
      BornByNone(s, call, reply, e);
    }
  }

  lemma BornByPair(s: State, call: Call, reply: Reply, e: StoreEffect)
    requires StoreEffectOk(s, call, reply, e) && e.Paired?
    ensures BornBy(call, reply) == BornIn(s.store, e)
  {
    assert StoreEffectIs(s, call, reply, e);
  }

  lemma BornByCreate(s: State, call: Call, reply: Reply, e: StoreEffect)
    requires StoreEffectOk(s, call, reply, e) && e.Inserted?
    ensures BornBy(call, reply) == BornIn(s.store, e)
  {
    assert StoreEffectIs(s, call, reply, e);
  }

  lemma BornByNone(s: State, call: Call, reply: Reply, e: StoreEffect)
    requires StoreEffectOk(s, call, reply, e) && !e.Paired? && !e.Inserted?
    ensures BornBy(call, reply) == BornIn(s.store, e)
  {
    assert StoreEffectIs(s, call, reply, e);
  }

  /** A handle given out now was not given out before. */
  lemma BornHandlesAreFresh(st: Store, e: StoreEffect, h: nat, earlier: nat, after: nat)
    requires Issued(h, earlier) && earlier <= st.issued
    requires after <= TWO28 && after >= st.issued + (if e.Inserted? then 1 else if e.Paired? then 2 else 0)
    ensures h !in BornIn(st, e)
  {
    if e.Inserted? {
      SerialOfHandle(e.o.kind, st.issued);
    }
    if e.Paired? {
      SerialOfHandle(TYPE_PUBLIC_KEY, st.issued);
      SerialOfHandle(TYPE_PRIVATE_KEY, st.issued + 1);
    }
  }

  /** And it counts as given out from now on. */
  lemma BornHandlesAreIssued(st: Store, e: StoreEffect, h: nat, after: nat)
    requires h in BornIn(st, e)
    requires after <= TWO28 && after >= st.issued + (if e.Inserted? then 1 else if e.Paired? then 2 else 0)
    ensures Issued(h, after)
  {
    if e.Inserted? {
      SerialOfHandle(e.o.kind, st.issued);
    }
    if e.Paired? {
      SerialOfHandle(TYPE_PUBLIC_KEY, st.issued);
      SerialOfHandle(TYPE_PRIVATE_KEY, st.issued + 1);
    }
  }

  /** An object that is live after a call was live before under the same handle, or is installed by the call. */
  lemma ObjectsStep(s: State, call: Call, reply: Reply, e: StoreEffect, h: nat, o: Object)
    requires StoreEffectOk(s, call, reply, e) && Holds(StoreAfter(s.store, e).objects, h, o)
    ensures (exists p :: HoldsObject(s, h, p) && Carried(call, h, p, o)) ||
            (h in BornIn(s.store, e) && BornIn(s.store, e)[h] == o) || e.Paired?
    ensures e.Paired? ==> PairedObject(s, e, h, o)
  {
    if e.Paired? {
      ObjectsAfterPair(s, e, h, o);
    } else {
      ObjectsAfterOther(s, call, reply, e, h, o);
    }
  }

  /** Live before, or one of the two halves. */
  ghost predicate PairedObject(s: State, e: StoreEffect, h: nat, o: Object)
    requires e.Paired?
  {
    HoldsObject(s, h, o) || (o == e.pub && h == ObjectHandle(TYPE_PUBLIC_KEY, s.store.issued)) ||
    (o == e.priv && h == ObjectHandle(TYPE_PRIVATE_KEY, s.store.issued + 1))
  }

  lemma ObjectsAfterPair(s: State, e: StoreEffect, h: nat, o: Object)
    requires e.Paired? && StoreInRange(s.store, e) && Holds(StoreAfter(s.store, e).objects, h, o)
    ensures PairedObject(s, e, h, o)
  {
    var u := StoreAfter(s.store, e).objects;
    var i :| 0 <= i < |u| && u[i] == Used(h, o);
    if i != e.i && i != e.j {
      assert s.store.objects[i] == Used(h, o);
    }
  }

  lemma ObjectsAfterOther(s: State, call: Call, reply: Reply, e: StoreEffect, h: nat, o: Object)
    requires StoreEffectOk(s, call, reply, e) && Holds(StoreAfter(s.store, e).objects, h, o) && !e.Paired?
    ensures (exists p :: HoldsObject(s, h, p) && Carried(call, h, p, o)) ||
            (h in BornIn(s.store, e) && BornIn(s.store, e)[h] == o)
  {
    assert StoreEffectIs(s, call, reply, e);
    var u := StoreAfter(s.store, e).objects;
    var i :| 0 <= i < |u| && u[i] == Used(h, o);
    if s.store.objects[i].Used? && s.store.objects[i].handle == h {
      assert HoldsObject(s, h, s.store.objects[i].item);
    }
  }

  lemma InstalledObjectIsHeld(s: State, call: Call, reply: Reply, e: StoreEffect, h: nat)
    requires StoreEffectOk(s, call, reply, e) && h in BornIn(s.store, e) && StoreAfter(s.store, e).issued <= TWO28
    ensures Holds(StoreAfter(s.store, e).objects, h, BornIn(s.store, e)[h])
  {
    var u := StoreAfter(s.store, e).objects;
    if e.Inserted? {
      assert u[e.i] == Used(h, e.o);
    } else {
      SerialOfHandle(TYPE_PUBLIC_KEY, s.store.issued);
      SerialOfHandle(TYPE_PRIVATE_KEY, s.store.issued + 1);
      assert u[e.i] == Used(ObjectHandle(TYPE_PUBLIC_KEY, s.store.issued), e.pub);
      assert u[e.j] == Used(ObjectHandle(TYPE_PRIVATE_KEY, s.store.issued + 1), e.priv);
    }
  }

  // ----- a handle goes on naming one object -----

  lemma HandleIsOld(s: State, h: nat, p: Object)
    requires Sound(s) && s.store.issued <= TWO28 && HoldsObject(s, h, p)
    ensures Issued(h, s.store.issued)
  {
  }

  lemma OneObjectPerHandle(s: State, h: nat, p: Object, o: Object)
    requires Sound(s) && s.store.issued <= TWO28 && HoldsObject(s, h, p) && HoldsObject(s, h, o)
    ensures p == o
  {
    LookupIsMap(s.store.objects, h);
  }

  lemma OldHandleNames(s: State, call: Call, reply: Reply, e: StoreEffect, h: nat, o: Object, earlier: nat)
    returns (q: Object)
    requires StoreEffectOk(s, call, reply, e) && Holds(StoreAfter(s.store, e).objects, h, o)
    requires Issued(h, earlier) && earlier <= s.store.issued && StoreAfter(s.store, e).issued <= TWO28
    ensures HoldsObject(s, h, q) && Carried(call, h, q, o)
  {
    ObjectsStep(s, call, reply, e, h, o);
    BornHandlesAreFresh(s.store, e, h, earlier, StoreAfter(s.store, e).issued);
    if e.Paired? {
      assert Carried(call, h, o, o);
    }
    q :| HoldsObject(s, h, q) && Carried(call, h, q, o);
  }

  /** A handle that was issued by `j` is not given out again, so what it names at `k` it named just before. */
  lemma NamedBefore(c: Crypto, r: Run, j: nat, k: nat, h: nat, o: Object) returns (q: Object)
    requires IsRun(c, r) && j < k <= |r.calls| && r.states[k].store.issued <= TWO28
    requires Issued(h, r.states[j].store.issued) && HoldsObject(r.states[k], h, o)
    ensures HoldsObject(r.states[k - 1], h, q) && Carried(r.calls[k - 1], h, q, o)
  {
    RunCounts(c, r, j, k - 1);
    RunCounts(c, r, k - 1, k);
    var e := StoreAt(c, r, k - 1);
    q := OldHandleNames(r.states[k - 1], r.calls[k - 1], r.replies[k - 1], e, h, o, r.states[j].store.issued);
  }

  /** Handle `h` names `o` but for the label. */
  ghost predicate Names(s: State, h: nat, o: Object) {
    exists q :: HoldsObject(s, h, q) && SameButLabel(q, o)
  }

  ghost predicate NamesThroughout(r: Run, j: nat, k: nat, h: nat, o: Object)
    requires j <= k < |r.states|
  {
    forall m :: j <= m <= k ==> Names(r.states[m], h, o)
  }

  ghost predicate NeverRelabelled(r: Run, j: nat, k: nat, h: nat)
    requires j <= k <= |r.calls|
  {
    forall m :: j <= m < k ==> !Relabels(r.calls[m], h)
  }

  /**
   A handle live at both ends of a stretch is live throughout and names one object, equal but for the label; the
   label too is the same when no `C_SetAttributeValue` on the handle came in between.
   */
  lemma {:induction false} ObjectPersists(c: Crypto, r: Run, j: nat, k: nat, h: nat, p: Object, o: Object)
    requires IsRun(c, r) && j <= k <= |r.calls| && r.states[k].store.issued <= TWO28
    requires HoldsObject(r.states[j], h, p) && HoldsObject(r.states[k], h, o)
    ensures SameButLabel(p, o) && NamesThroughout(r, j, k, h, o)
    ensures NeverRelabelled(r, j, k, h) ==> p == o
    decreases k
  {
    RunCounts(c, r, j, k);
    RunSound(c, r, j);
    if j == k {
      OneObjectPerHandle(r.states[k], h, p, o);
    } else {
      RunCounts(c, r, k - 1, k);
      HandleIsOld(r.states[j], h, p);
      var q := NamedBefore(c, r, j, k, h, o);
      ObjectPersists(c, r, j, k - 1, h, p, q);
      StretchGrows(r, j, k, h, q, o);
    }
  }

  lemma StretchGrows(r: Run, j: nat, k: nat, h: nat, q: Object, o: Object)
    requires j < k < |r.states| && SameButLabel(q, o)
    requires NamesThroughout(r, j, k - 1, h, q) && HoldsObject(r.states[k], h, o)
    ensures NamesThroughout(r, j, k, h, o)
  {
    forall m | j <= m <= k ensures Names(r.states[m], h, o) {
      if m < k {
        assert Names(r.states[m], h, q);
        var p :| HoldsObject(r.states[m], h, p) && SameButLabel(p, q);
        assert SameButLabel(p, o);
      } else {
        assert SameButLabel(o, o);
      }
    }
  }

  // ----- everything a run has installed -----

  /** What the calls before `k` installed, by handle. */
  function Born(r: Run, k: nat): map<nat, Object>
    requires k <= |r.calls| == |r.replies|
  {
    if k == 0 then map[] else Born(r, k - 1) + BornBy(r.calls[k - 1], r.replies[k - 1])
  }

  lemma BornByIsIssued(c: Crypto, r: Run, k: nat, h: nat)
    requires IsRun(c, r) && k < |r.calls| && r.states[k + 1].store.issued <= TWO28
    requires h in BornBy(r.calls[k], r.replies[k])
    ensures Issued(h, r.states[k + 1].store.issued)
  {
    RunCounts(c, r, k, k + 1);
    var e := StoreAt(c, r, k);
    BornByEffect(r.states[k], r.calls[k], r.replies[k], e);
    BornHandlesAreIssued(r.states[k].store, e, h, r.states[k + 1].store.issued);
  }

  lemma NotBornAgain(c: Crypto, r: Run, j: nat, k: nat, h: nat)
    requires IsRun(c, r) && j <= k < |r.calls| && r.states[k + 1].store.issued <= TWO28
    requires Issued(h, r.states[j].store.issued)
    ensures h !in BornBy(r.calls[k], r.replies[k])
  {
    RunCounts(c, r, j, k);
    var e := StoreAt(c, r, k);
    BornByEffect(r.states[k], r.calls[k], r.replies[k], e);
    BornHandlesAreFresh(r.states[k].store, e, h, r.states[j].store.issued, r.states[k + 1].store.issued);
  }

  lemma NotBornLater(c: Crypto, r: Run, i: nat, k: nat, h: nat)
    requires IsRun(c, r) && i < k < |r.calls| && r.states[k + 1].store.issued <= TWO28
    requires h in BornBy(r.calls[i], r.replies[i])
    ensures r.states[k].store.issued <= TWO28 && h !in BornBy(r.calls[k], r.replies[k])
  {
    RunCounts(c, r, k, k + 1);
    RunCounts(c, r, i + 1, k);
    BornByIsIssued(c, r, i, h);
    NotBornAgain(c, r, i + 1, k, h);
  }

  /** What a call installed under a handle stays on record: the handle is never given out again. */
  lemma {:induction false} BornOnce(c: Crypto, r: Run, i: nat, k: nat, h: nat)
    requires IsRun(c, r) && i < k <= |r.calls| && r.states[k].store.issued <= TWO28
    requires h in BornBy(r.calls[i], r.replies[i])
    ensures h in Born(r, k) && Born(r, k)[h] == BornBy(r.calls[i], r.replies[i])[h]
    decreases k
  {
    if i + 1 < k {
      NotBornLater(c, r, i, k - 1, h);
      BornOnce(c, r, i, k - 1, h);
    }
  }

  lemma {:induction false} BornIsIssued(c: Crypto, r: Run, k: nat, h: nat)
    requires IsRun(c, r) && k <= |r.calls| && r.states[k].store.issued <= TWO28 && h in Born(r, k)
    ensures Issued(h, r.states[k].store.issued)
  {
    if k != 0 {
      RunCounts(c, r, k - 1, k);
      if h in BornBy(r.calls[k - 1], r.replies[k - 1]) {
        BornByIsIssued(c, r, k - 1, h);
      } else {
        BornIsIssued(c, r, k - 1, h);
      }
    }
  }

  /** The object a call installs is live, as installed, right after it. */
  lemma BornIsHeld(c: Crypto, r: Run, i: nat, h: nat)
    requires IsRun(c, r) && i < |r.calls| && r.states[i + 1].store.issued <= TWO28
    requires h in BornBy(r.calls[i], r.replies[i])
    ensures HoldsObject(r.states[i + 1], h, BornBy(r.calls[i], r.replies[i])[h])
  {
    var e := StoreAt(c, r, i);
    BornByEffect(r.states[i], r.calls[i], r.replies[i], e);
    InstalledObjectIsHeld(r.states[i], r.calls[i], r.replies[i], e, h);
  }

  /** A live object was there before the last call, or is what that call installed. */
  lemma HeldOrBorn(c: Crypto, r: Run, k: nat, h: nat, o: Object) returns (before: Option<Object>)
    requires IsRun(c, r) && k < |r.calls| && r.states[k + 1].store.issued <= TWO28 && HoldsObject(r.states[k + 1], h, o)
    ensures match before
            case Some(p) => HoldsObject(r.states[k], h, p) && Carried(r.calls[k], h, p, o)
            case None => h in BornBy(r.calls[k], r.replies[k]) && BornBy(r.calls[k], r.replies[k])[h] == o
  {
    var e := StoreAt(c, r, k);
    BornByEffect(r.states[k], r.calls[k], r.replies[k], e);
    before := HeldOrInstalled(r.states[k], r.calls[k], r.replies[k], e, h, o);
  }

  lemma HeldOrInstalled(s: State, call: Call, reply: Reply, e: StoreEffect, h: nat, o: Object)
    returns (before: Option<Object>)
    requires StoreEffectOk(s, call, reply, e) && Holds(StoreAfter(s.store, e).objects, h, o)
    requires StoreAfter(s.store, e).issued <= TWO28
    ensures match before
            case Some(p) => HoldsObject(s, h, p) && Carried(call, h, p, o)
            case None => h in BornIn(s.store, e) && BornIn(s.store, e)[h] == o
  {
    ObjectsStep(s, call, reply, e, h, o);
    if e.Paired? {
      SerialOfHandle(TYPE_PUBLIC_KEY, s.store.issued);
      SerialOfHandle(TYPE_PRIVATE_KEY, s.store.issued + 1);
      before := if HoldsObject(s, h, o) then Some(o) else None;
    } else if p :| HoldsObject(s, h, p) && Carried(call, h, p, o) {
      before := Some(p);
    } else {
      before := None;
    }
  }

  lemma LiveIsNotBorn(c: Crypto, r: Run, k: nat, h: nat, o: Object)
    requires IsRun(c, r) && k < |r.calls| && r.states[k + 1].store.issued <= TWO28 && HoldsObject(r.states[k], h, o)
    ensures r.states[k].store.issued <= TWO28 && h !in BornBy(r.calls[k], r.replies[k])
  {
    RunCounts(c, r, k, k + 1);
    RunSound(c, r, k);
    HandleIsOld(r.states[k], h, o);
    NotBornAgain(c, r, k, k, h);
  }

  /** Every live object is, but for its label, the one on record under its handle. */
  lemma {:induction false} LiveIsBorn(c: Crypto, r: Run, k: nat, h: nat, o: Object)
    requires IsRun(c, r) && k <= |r.calls| && r.states[k].store.issued <= TWO28 && HoldsObject(r.states[k], h, o)
    ensures h in Born(r, k) && SameButLabel(Born(r, k)[h], o)
  {
    if k == 0 {
      assert false;
    }
    var before := HeldOrBorn(c, r, k - 1, h, o);
    if before.Some? {
      LiveIsNotBorn(c, r, k - 1, h, before.value);
      LiveIsBorn(c, r, k - 1, h, before.value);
    }
  }

  /** An object nobody has relabelled since is still exactly as it was installed. */
  lemma UntouchedIsAsBorn(c: Crypto, r: Run, i: nat, k: nat, h: nat, o: Object)
    requires IsRun(c, r) && i < k <= |r.calls| && r.states[k].store.issued <= TWO28
    requires h in BornBy(r.calls[i], r.replies[i]) && HoldsObject(r.states[k], h, o)
    requires NeverRelabelled(r, i + 1, k, h)
    ensures o == BornBy(r.calls[i], r.replies[i])[h]
  {
    RunCounts(c, r, i + 1, k);
    BornIsHeld(c, r, i, h);
    ObjectPersists(c, r, i + 1, k, h, BornBy(r.calls[i], r.replies[i])[h], o);
  }
}
