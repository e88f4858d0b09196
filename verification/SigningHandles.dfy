/**
 The handles of generated private keys, past the point where handles in general start to meet. A private half never has
 the first counter value, so its handle can be given out a second time only by the handle issued 2^28 places later,
 and to a second private key only by a key pair, which takes one handle more.
 */
module SigningHandles {
  import opened Common
  import opened Tables
  import opened Objects
  import opened Engine
  import opened HandleSupply
  import opened Effects
  import opened Runs
  import opened Lifetimes

  /** How many handles may be issued: one more when only private keys are watched. */
  function Bound(all: bool): nat {
    if all then TWO28 + 1 else TWO28 + 2
  }

  predicate Watched(all: bool, o: Object) {
    all || o.kind == TYPE_PRIVATE_KEY
  }

  /** The handle of a private half; the public half took the number before `n`. */
  predicate KeyHandle(h: nat, n: nat) {
    1 <= n && h == ObjectHandle(TYPE_PRIVATE_KEY, n)
  }

  // ----- when a handle given out is that of a private half -----

  lemma NoLaterHandleMeets(kind: nat, m: nat, n: nat)
    requires 1 <= n < m <= TWO28
    ensures ObjectHandle(kind, m) != ObjectHandle(TYPE_PRIVATE_KEY, n)
  {
    assert ObjectCounter(m) == m + 1 && ObjectCounter(n) == n + 1;
  }

  /** Of the earlier ones only the very first can, as that of a certificate. */
  lemma OneEarlierHandleMeets(kind: nat, m: nat, n: nat)
    requires m < n <= TWO28 && ObjectHandle(kind, m) == ObjectHandle(TYPE_PRIVATE_KEY, n)
    ensures m == 0 && n == TWO28 && kind == TYPE_CERTIFICATE
  {
    assert ObjectCounter(m) == m + 1 && ObjectCounter(n) == n + 1;
  }

  lemma NoPublicHandleMeets(m: nat, n: nat)
    requires m <= TWO28 && 1 <= n <= TWO28 + 1
    ensures ObjectHandle(TYPE_PUBLIC_KEY, m) != ObjectHandle(TYPE_PRIVATE_KEY, n)
  {
    assert ObjectCounter(m) == m + 1 && ObjectCounter(n) == n + 1;
  }

  lemma PrivateHandlesDiffer(m: nat, n: nat)
    requires m <= TWO28 + 1 && n <= TWO28 + 1 && ObjectHandle(TYPE_PRIVATE_KEY, m) == ObjectHandle(TYPE_PRIVATE_KEY, n)
    ensures m == n
  {
    assert ObjectCounter(m) == m + 1 && ObjectCounter(n) == n + 1;
  }

  // ----- one call -----

  /** The cell holds the object, whatever its label. */
  predicate CellNames(t: ObjectTable, i: nat, h: nat, o: Object)
    requires i < MAX_OBJECTS
  {
    t[i].Used? && t[i].handle == h && SameButLabel(t[i].item, o)
  }

  /** The effect puts the object into cell `i` under handle `h`, the `m`-th to be issued. */
  predicate PutsInto(st: Store, e: StoreEffect, i: nat, h: nat, o: Object, m: nat) {
    match e
    case Inserted(a, p) => i == a && o == p && m == st.issued && h == ObjectHandle(o.kind, m)
    case Paired(a, b, _, _) =>
      || (i == a && m == st.issued && h == ObjectHandle(TYPE_PUBLIC_KEY, m))
      || (i == b && m == st.issued + 1 && h == ObjectHandle(TYPE_PRIVATE_KEY, m))
    case _ => false
  }

  lemma PairCellStep(st: Store, e: StoreEffect, i: nat) returns (m: nat)
    requires StoreInRange(st, e) && e.Paired? && i < MAX_OBJECTS && StoreAfter(st, e).objects[i].Used?
    ensures var Used(h, o) := StoreAfter(st, e).objects[i];
            CellNames(st.objects, i, h, o) || PutsInto(st, e, i, h, o, m)
  {
    m := if i == e.j then st.issued + 1 else st.issued;
  }

  /** What a cell holds after a call it held before, or the call put it there. */
  lemma CellStep(s: State, call: Call, reply: Reply, e: StoreEffect, i: nat) returns (m: nat)
    requires StoreEffectOk(s, call, reply, e) && i < MAX_OBJECTS && StoreAfter(s.store, e).objects[i].Used?
    ensures var Used(h, o) := StoreAfter(s.store, e).objects[i];
            CellNames(s.store.objects, i, h, o) || PutsInto(s.store, e, i, h, o, m)
  {
    if e.Paired? {
      m := PairCellStep(s.store, e, i);
    } else {
      assert StoreEffectIs(s, call, reply, e);
      m := s.store.issued;
    }
  }

  /** A watched object put under the handle of a private half is that half, or the first object of the process. */
  lemma PutUnderKeyHandle(all: bool, st: Store, e: StoreEffect, i: nat, h: nat, o: Object, m: nat, n: nat)
    requires KeyHandle(h, n) && n < Bound(all) && Watched(all, o)
    requires StoreInRange(st, e) && StoreAfter(st, e).issued <= Bound(all) && PutsInto(st, e, i, h, o, m)
    ensures (m == n && (e.Paired? ==> i == e.j)) ||
            (m == st.issued == 0 && e.Inserted? && all && o.kind != TYPE_PRIVATE_KEY)
  {
    if e.Paired? && i == e.i && m == st.issued {
      NoPublicHandleMeets(m, n);
    } else if h == ObjectHandle(TYPE_PRIVATE_KEY, m) {
      PrivateHandlesDiffer(m, n);
    } else if m < n {
      OneEarlierHandleMeets(o.kind, m, n);
    } else if m > n {
      NoLaterHandleMeets(o.kind, m, n);
    }
  }

  // ----- who holds the handle of a private half -----

  predicate WatchedCell(all: bool, t: ObjectTable, i: nat, h: nat) {
    i < MAX_OBJECTS && t[i].Used? && t[i].handle == h && Watched(all, t[i].item)
  }

  /**
   Before number `n` is issued no private key has its handle, and no object but the first of the process; afterwards
   at most one private key, and another object only in front of all others.
   */
  ghost predicate HeldAlone(all: bool, st: Store, h: nat, n: nat) {
    && (st.issued == 0 ==> AllFree(st.objects))
    && (st.issued <= n ==>
          forall i: nat :: WatchedCell(all, st.objects, i, h) ==>
            all && i == 0 && st.objects[i].item.kind != TYPE_PRIVATE_KEY)
    && forall i: nat, j: nat :: i < j && WatchedCell(all, st.objects, i, h) && WatchedCell(all, st.objects, j, h) ==>
         all && i == 0 && st.objects[i].item.kind != TYPE_PRIVATE_KEY
  }

  /** Where a watched cell comes from. */
  lemma WatchedCellStep(all: bool, s: State, call: Call, reply: Reply, e: StoreEffect, i: nat, h: nat, n: nat)
    requires StoreEffectOk(s, call, reply, e) && KeyHandle(h, n) && n < Bound(all)
    requires StoreAfter(s.store, e).issued <= Bound(all)
    requires WatchedCell(all, StoreAfter(s.store, e).objects, i, h)
    ensures var o := StoreAfter(s.store, e).objects[i].item;
            || (WatchedCell(all, s.store.objects, i, h) && SameButLabel(s.store.objects[i].item, o))
            || (s.store.issued <= n < StoreAfter(s.store, e).issued &&
                ((e.Inserted? && i == e.i) || (e.Paired? && i == e.j)))
            || (s.store.issued == 0 && all && e.Inserted? && i == e.i && o.kind != TYPE_PRIVATE_KEY)
  {
    var m := CellStep(s, call, reply, e, i);
    var o := StoreAfter(s.store, e).objects[i].item;
    if !CellNames(s.store.objects, i, h, o) {
      PutUnderKeyHandle(all, s.store, e, i, h, o, m, n);
    }
  }

  lemma FirstCell(t: ObjectTable)
    requires AllFree(t)
    ensures FreeFrom(t, 0) == 0
  {
    assert t[0].Free?;
  }

  lemma HeldAloneStep(all: bool, s: State, call: Call, reply: Reply, e: StoreEffect, h: nat, n: nat)
    requires StoreEffectOk(s, call, reply, e) && KeyHandle(h, n) && n < Bound(all)
    requires StoreAfter(s.store, e).issued <= Bound(all) && HeldAlone(all, s.store, h, n)
    ensures HeldAlone(all, StoreAfter(s.store, e), h, n)
  {
    assert StoreEffectIs(s, call, reply, e);
    var u := StoreAfter(s.store, e);
    if s.store.issued == 0 {
      FirstCell(s.store.objects);
    }
    forall i: nat | WatchedCell(all, u.objects, i, h) && u.issued <= n
      ensures all && i == 0 && u.objects[i].item.kind != TYPE_PRIVATE_KEY
    {
      WatchedCellStep(all, s, call, reply, e, i, h, n);
    }
    forall i: nat, j: nat | i < j && WatchedCell(all, u.objects, i, h) && WatchedCell(all, u.objects, j, h)
      ensures all && i == 0 && u.objects[i].item.kind != TYPE_PRIVATE_KEY
    {
      WatchedCellStep(all, s, call, reply, e, i, h, n);
      WatchedCellStep(all, s, call, reply, e, j, h, n);
    }
  }

  lemma {:induction false} AlwaysHeldAlone(all: bool, c: Crypto, r: Run, k: nat, h: nat, n: nat)
    requires IsRun(c, r) && k <= |r.calls| && KeyHandle(h, n) && n < Bound(all)
    requires r.states[k].store.issued <= Bound(all)
    ensures HeldAlone(all, r.states[k].store, h, n)
  {
    if k != 0 {
      RunCounts(c, r, k - 1, k);
      AlwaysHeldAlone(all, c, r, k - 1, h, n);
      var e := StoreAt(c, r, k - 1);
      HeldAloneStep(all, r.states[k - 1], r.calls[k - 1], r.replies[k - 1], e, h, n);
    }
  }

  // ----- from the vetting to the signing -----

  lemma CellBefore(all: bool, c: Crypto, r: Run, k: nat, i: nat, h: nat, n: nat)
    requires IsRun(c, r) && k < |r.calls| && KeyHandle(h, n) && n < r.states[k].store.issued
    requires r.states[k + 1].store.issued <= Bound(all) && WatchedCell(all, r.states[k + 1].store.objects, i, h)
    ensures CellNames(r.states[k].store.objects, i, h, r.states[k + 1].store.objects[i].item)
    ensures WatchedCell(all, r.states[k].store.objects, i, h)
  {
    RunCounts(c, r, k, k + 1);
    var e := StoreAt(c, r, k);
    WatchedCellStep(all, r.states[k], r.calls[k], r.replies[k], e, i, h, n);
  }

  /** Once number `n` is out, an object under its handle was there all along, in the same cell. */
  lemma {:induction false} CellStays(all: bool, c: Crypto, r: Run, j: nat, k: nat, i: nat, h: nat, n: nat)
    requires IsRun(c, r) && j <= k <= |r.calls| && KeyHandle(h, n) && n < r.states[j].store.issued
    requires r.states[k].store.issued <= Bound(all) && WatchedCell(all, r.states[k].store.objects, i, h)
    ensures forall m :: j <= m <= k ==> CellNames(r.states[m].store.objects, i, h, r.states[k].store.objects[i].item)
    decreases k
  {
    var o := r.states[k].store.objects[i].item;
    if j < k {
      RunCounts(c, r, j, k - 1);
      RunCounts(c, r, k - 1, k);
      CellBefore(all, c, r, k - 1, i, h, n);
      CellStays(all, c, r, j, k - 1, i, h, n);
      forall m | j <= m <= k ensures CellNames(r.states[m].store.objects, i, h, o) {
        assert m < k ==> CellNames(r.states[m].store.objects, i, h, r.states[k - 1].store.objects[i].item);
      }
    }
  }

  /**
   A private key found under the handle of a private half, and what is found there later, are the same object but for
   its label, live all the way: for as long as 2^28 + 1 handles are issued, and one handle longer when a private key
   is found.
   */
  lemma VettedKeyStays(c: Crypto, r: Run, j: nat, k: nat, h: nat, n: nat)
    requires IsRun(c, r) && j <= k <= |r.calls| && KeyHandle(h, n) && n < r.states[j].store.issued
    requires GetObject(r.states[j].store, h).At? && GetObject(r.states[k].store, h).At?
    requires r.states[j].store.objects[GetObject(r.states[j].store, h).i].item.kind == TYPE_PRIVATE_KEY
    requires var o := r.states[k].store.objects[GetObject(r.states[k].store, h).i].item;
             r.states[k].store.issued <= Bound(o.kind != TYPE_PRIVATE_KEY)
    ensures var o := r.states[k].store.objects[GetObject(r.states[k].store, h).i].item;
            && SameButLabel(r.states[j].store.objects[GetObject(r.states[j].store, h).i].item, o)
            && NamesThroughout(r, j, k, h, o)
  {
    var t := r.states[j].store.objects;
    var a, b := GetObject(r.states[j].store, h).i, GetObject(r.states[k].store, h).i;
    var o := r.states[k].store.objects[b].item;
    var all := o.kind != TYPE_PRIVATE_KEY;
    RunCounts(c, r, j, k);
    CellStays(all, c, r, j, k, b, h, n);
    AlwaysHeldAlone(all, c, r, j, h, n);
    assert CellNames(t, b, h, o);
    assert WatchedCell(all, t, a, h) && WatchedCell(all, t, b, h);
    assert a == b;
    forall m | j <= m <= k ensures Names(r.states[m], h, o) {
      assert CellNames(r.states[m].store.objects, b, h, o);
      assert r.states[m].store.objects[b] == Used(h, r.states[m].store.objects[b].item);
      assert HoldsObject(r.states[m], h, r.states[m].store.objects[b].item);
    }
  }
}
