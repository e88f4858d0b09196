/** The object section of `hsm_slot_t`: the pointer array, its count, the handle counter, and the key files. */
module ObjectStores {
  import opened Common
  import opened Tables
  import opened Objects
  import opened KeyFileNames
  import opened Engine
  import opened Locks
  import opened CallLocks
  import opened Records
  import opened Files
  import opened KeyPairs

  class ObjectStore {
    const objects: array<ObjectRecord?>
    var objectCount: nat
    var counter: nat
    var keyFiles: map<string, Bytes>

    // The table the array stands for, the number of handles issued, and the footprint.
    ghost var table: ObjectTable
    ghost var issued: nat
    ghost var Repr: set<object>

    ghost function View(): Store
      reads this
    {
      Store(table, issued, keyFiles)
    }

    ghost predicate ObjectAt(i: nat)
      requires i < objects.Length && i < MAX_OBJECTS
      reads this`table, this`Repr, objects, Repr
    {
      match table[i]
      case Free => objects[i] == null
      case Used(h, o) =>
        var r := objects[i];
        && r != null && r in Repr && r.text in Repr && r.id in Repr && r.Valid() && r.handle == h && r.View() == o
    }

    ghost predicate Apart(i: nat, j: nat)
      requires i < objects.Length && j < objects.Length
      reads objects
    {
      var a, b := objects[i], objects[j];
      a != null && b != null ==>
        a != b && a.text != b.text && a.text != b.id && a.id != b.text && a.id != b.id
    }

    ghost predicate Valid()
      reads this, Repr
    {
      && this !in Repr && objects in Repr && objects.Length == MAX_OBJECTS
      && objectCount == Count(table) && counter == ObjectCounter(issued)
      && (forall i :: 0 <= i < MAX_OBJECTS ==> ObjectAt(i))
      && (forall i, j :: 0 <= i < j < MAX_OBJECTS ==> Apart(i, j))
    }

    constructor (keyFiles: map<string, Bytes>)
      ensures Valid() && fresh(Repr) && AllFree(table) && issued == 0 && this.keyFiles == keyFiles
    {
      objects := new ObjectRecord?[MAX_OBJECTS](i => null);
      objectCount, counter := 0, 1;
      this.keyFiles := keyFiles;
      table, issued := NoObjects(), 0;
      new;
      Repr := {objects};
      CountExtremes(table);
    }

    /** The scan of `hsm_get_object` and `hsm_destroy_object`. */
    method Find(h: nat) returns (i: nat)
      requires Valid()
      ensures (if i < MAX_OBJECTS then At(i) else Missing(ObjectHandleInvalid)) == GetObject(View(), h)
      ensures i <= MAX_OBJECTS && (i < MAX_OBJECTS ==> objects[i] != null && ObjectAt(i))
    {
      i := 0;
      while i < MAX_OBJECTS
        invariant i <= MAX_OBJECTS
        invariant IndexOf(table, h) == IndexFrom(table, h, i)
      {
        assert ObjectAt(i);
        if objects[i] != null && objects[i].handle == h {
          return;
        }
        i := i + 1;
      }
    }

    /** The loop of `hsm_find_objects`: the template is not looked at, and at most a hundred handles are taken. */
    method Collect(session: SessionRecord, thread: Thread)
      requires Valid() && session.findResults.Length == MAX_FIND && {session, session.findResults} !! Repr
      requires SessionLock(session.handle) in thread.held
      modifies session`findCount, session.findResults
      ensures session.findCount == |Snapshot(table)|
      ensures session.findResults[..] == Snapshot(table) + old(session.findResults[..])[|Snapshot(table)|..]
    {
      ghost var results := session.findResults[..];
      session.findCount := 0;
      NothingFilled(table, results);
      var i := 0;
      while i < MAX_OBJECTS && session.findCount < MAX_FIND
        invariant i <= MAX_OBJECTS && session.findCount <= MAX_FIND
        invariant Filled(session.findResults[..], session.findCount, table, i, results)
      {
        assert ObjectAt(i);
        FilledStep(session.findResults[..], session.findCount, table, i, results);
        if objects[i] != null {
          session.AddResult(objects[i].handle, thread);
        }
        i := i + 1;
      }
      FilledIsSnapshot(session.findResults[..], session.findCount, table, i, results);
    }

    /** `C_FindObjectsInit` once the checks have passed. */
    method FindInto(session: SessionRecord, thread: Thread)
      requires Valid() && session.Valid() && {session, session.findResults} !! Repr
      requires SessionLock(session.handle) in thread.held
      modifies session, session.findResults
      ensures session.Valid()
      ensures session.View() == old(session.View()).(find := FindStarted(old(session.View()).find, table))
    {
      Collect(session, thread);
      session.findActive := true;
      session.findIndex := 0;
    }

    /** `hsm_generate_object_handle`: the 32-bit counter wraps. */
    method GenerateHandle(kind: nat, thread: Thread) returns (h: nat)
      requires Valid() && thread !in Repr && thread.Valid() && ObjectCounterLock !in thread.held
      modifies this`counter, this`issued, thread
      ensures Valid() && h == ObjectHandle(kind, old(issued)) && issued == old(issued) + 1
      ensures thread.Valid() && thread.held == old(thread.held)
      ensures thread.ops == old(thread.ops) + Around(ObjectCounterLock, [])
    {
      thread.Lock(ObjectCounterLock);
      var n := counter;
      counter := (counter + 1) % TWO32;
      issued := issued + 1;
      thread.Unlock(ObjectCounterLock);
      Bracket(old(thread.ops), ObjectCounterLock);
      var base := 0;
      if kind == TYPE_PUBLIC_KEY {
        base := 0x1000_0000;
      } else if kind == TYPE_PRIVATE_KEY {
        base := 0x2000_0000;
      } else if kind == TYPE_CERTIFICATE {
        base := 0x3000_0000;
      } else if kind == TYPE_DATA {
        base := 0x4000_0000;
      }
      h := base + n;
    }

    /** A scan for a free cell from `from` on. */
    method FreeCell(from: nat) returns (i: nat)
      requires Valid() && from <= MAX_OBJECTS
      ensures i == FreeFrom(table, from)
    {
      i := from;
      while i < MAX_OBJECTS && objects[i] != null
        invariant from <= i <= MAX_OBJECTS && FreeFrom(table, from) == FreeFrom(table, i)
      {
        assert ObjectAt(i);
        i := i + 1;
      }
      assert i < MAX_OBJECTS ==> ObjectAt(i);
    }

    /** A new record goes into the free cell `i`. */
    method Put(i: nat, r: ObjectRecord, thread: Thread)
      requires Valid() && i < MAX_OBJECTS && table[i].Free?
      requires r.Valid() && {r, r.text, r.id} !! Repr
      requires SlotLock in thread.held
      modifies objects, this`objectCount, this`table, this`Repr
      ensures Valid() && Repr == old(Repr) + {r, r.text, r.id}
      ensures table == old(table)[i := Used(r.handle, r.View())]
    {
      CountUpdate(table, i, Used(r.handle, r.View()));
      objects[i] := r;
      objectCount := objectCount + 1;
      table := table[i := Used(r.handle, r.View())];
      Repr := Repr + {r, r.text, r.id};
      forall k | 0 <= k < MAX_OBJECTS ensures ObjectAt(k) {
        assert old(ObjectAt(k));
      }
      forall k, l | 0 <= k < l < MAX_OBJECTS ensures Apart(k, l) {
        assert old(Apart(k, l)) && old(ObjectAt(k)) && old(ObjectAt(l));
      }
    }

    /** `hsm_storage_save_object`: only token objects are written. */
    method Save(r: ObjectRecord, thread: Thread)
      requires r.Valid()
      requires SlotLock in thread.held
      modifies this`keyFiles
      ensures keyFiles == SaveObject(old(keyFiles), r.handle, r.View())
    {
      if r.isToken {
        var file := WriteObject(r);
        keyFiles := keyFiles[KeyFileName(r.handle) := file];
      }
    }

    /** The new object gets a handle, a cell and, if it is a token object, a file. */
    method Install(i: nat, r: ObjectRecord, thread: Thread) returns (h: nat)
      requires Valid() && i < MAX_OBJECTS && table[i].Free?
      requires thread !in Repr && thread.Valid() && ObjectCounterLock !in thread.held
      requires r.Valid() && {r, r.text, r.id} !! Repr
      requires SlotLock in thread.held
      modifies objects, this, r`handle, thread
      ensures Valid() && Repr == old(Repr) + {r, r.text, r.id}
      ensures thread.Valid() && thread.held == old(thread.held)
      ensures thread.ops == old(thread.ops) + Around(ObjectCounterLock, [])
      ensures var o := old(r.View());
              && h == ObjectHandle(o.kind, old(issued))
              && View() == Store(old(table)[i := Used(h, o)], old(issued) + 1, SaveObject(old(keyFiles), h, o))
    {
      h := GenerateHandle(r.kind, thread);
      r.handle := h;
      Put(i, r, thread);
      Save(r, thread);
    }

    /** The rest of `hsm_create_object`: below capacity the scan finds a cell, so the unchecked index is in bounds. */
    method CreateBelowCapacity(template: Template, thread: Thread) returns (h: nat)
      requires Valid() && objectCount < MAX_OBJECTS
      requires thread !in Repr && thread.Valid() && ObjectCounterLock !in thread.held
      requires SlotLock in thread.held
      modifies objects, this, thread
      ensures Valid() && fresh(Repr - old(Repr)) && thread.Valid() && thread.held == old(thread.held)
      ensures thread.ops == old(thread.ops) + Around(ObjectCounterLock, [])
      ensures Stored(View(), Reply(OK, Handle(h))) == CreateIn(old(View()), template)
    {
      var i := FreeCell(0);
      FreeCellExists(table);
      var r := BuildObject(TYPE_DATA, false, false, template);
      h := Install(i, r, thread);
    }

    /** `hsm_create_object`. */
    method Create(template: Template, thread: Thread) returns (rv: Rv, h: nat)
      requires Valid() && thread !in Repr && thread.Valid() && thread.held == {}
      modifies objects, this, thread
      ensures Valid() && fresh(Repr - old(Repr)) && thread.Valid() && thread.held == {}
      ensures thread.ops == old(thread.ops) + CreateLocks(old(table))
      ensures Stored(View(), if rv == OK then Reply(OK, Handle(h)) else Just(rv)) == CreateIn(old(View()), template)
    {
      h := 0;
      Bracket(thread.ops, SlotLock);
      NestedBracket(thread.ops, SlotLock, Around(ObjectCounterLock, []));
      thread.Lock(SlotLock);
      if objectCount >= MAX_OBJECTS {
        thread.Unlock(SlotLock);
        return HostMemory, h;
      }
      h := CreateBelowCapacity(template, thread);
      thread.Unlock(SlotLock);
      rv := OK;
    }

    /** `hsm_destroy_object` once the cell is found. */
    method Remove(i: nat, thread: Thread)
      requires Valid() && i < MAX_OBJECTS && objects[i] != null
      requires SlotLock in thread.held
      modifies objects, this`objectCount, this`table
      ensures Valid() && old(objectCount) > 0 && table == old(table)[i := Free]
    {
      assert ObjectAt(i);
      CountUpdate(table, i, Free);
      objects[i] := null;
      objectCount := objectCount - 1;
      table := table[i := Free];
      forall k | 0 <= k < MAX_OBJECTS ensures ObjectAt(k) {
        assert old(ObjectAt(k));
      }
      forall k, l | 0 <= k < l < MAX_OBJECTS ensures Apart(k, l) {
        assert old(Apart(k, l));
      }
    }

    /** `hsm_destroy_object` under the slot lock. */
    method DestroyFound(h: nat, thread: Thread) returns (rv: Rv)
      requires Valid()
      requires SlotLock in thread.held
      modifies objects, this
      ensures Valid() && Repr == old(Repr)
      ensures Stored(View(), Just(rv)) == DestroyIn(old(View()), h)
    {
      var i := Find(h);
      if i == MAX_OBJECTS { return ObjectHandleInvalid; }
      if objects[i].isToken {
        keyFiles := keyFiles - {KeyFileName(h)};
      }
      Remove(i, thread);
      rv := OK;
    }

    /** `hsm_destroy_object`. */
    method Destroy(h: nat, thread: Thread) returns (rv: Rv)
      requires Valid() && thread !in Repr && thread.Valid() && thread.held == {}
      modifies objects, this, thread
      ensures Valid() && Repr == old(Repr) && thread.Valid() && thread.held == {}
      ensures thread.ops == old(thread.ops) + Around(SlotLock, [])
      ensures Stored(View(), Just(rv)) == DestroyIn(old(View()), h)
    {
      Bracket(thread.ops, SlotLock);
      thread.Lock(SlotLock);
      rv := DestroyFound(h, thread);
      thread.Unlock(SlotLock);
    }

    /** Only the label buffer of cell `i` changed, and the table was brought up to date with it. */
    twostate lemma OneLabelChanged(i: nat)
      requires old(Valid()) && i < MAX_OBJECTS && old(objects[i]) != null
      requires Repr == old(Repr) && objectCount == old(objectCount) && counter == old(counter) && issued == old(issued)
      requires forall o :: o in Repr && o != old(objects[i]).text ==> unchanged(o)
      requires objects[i] != null && objects[i] == old(objects[i]) && objects[i].Valid()
      requires old(table)[i].Used? && table == SetItem(old(table), i, objects[i].View())
      ensures Valid()
    {
      CountUpdate(old(table), i, Used(objects[i].handle, objects[i].View()));
      assert unchanged(objects);
      forall k | 0 <= k < MAX_OBJECTS ensures ObjectAt(k) {
        assert old(ObjectAt(k)) && old(ObjectAt(i));
        assert k < i ==> old(Apart(k, i));
        assert i < k ==> old(Apart(i, k));
      }
      forall k, l | 0 <= k < l < MAX_OBJECTS ensures Apart(k, l) {
        assert old(Apart(k, l));
      }
    }

    /** `C_SetAttributeValue` once the session is found. */
    method SetValues(h: nat, template: Template) returns (rv: Rv)
      requires Valid()
      modifies this`table, Repr
      ensures Valid() && Repr == old(Repr)
      ensures Stored(View(), Just(rv)) == SetAttributesIn(old(View()), h, template)
    {
      var i := Find(h);
      if i == MAX_OBJECTS { return ObjectHandleInvalid; }
      rv := objects[i].SetValues(template);
      table := SetItem(table, i, objects[i].View());
      OneLabelChanged(i);
    }

    /** Both halves get their cells, and then, if they are token objects, their files. */
    method PutPair(a: nat, b: nat, pub: ObjectRecord, priv: ObjectRecord, thread: Thread)
      requires Valid() && a < b < MAX_OBJECTS && table[a].Free? && table[b].Free?
      requires pub.Valid() && priv.Valid() && {pub, pub.text, pub.id, priv, priv.text, priv.id} !! Repr
      requires pub != priv && {pub.text, pub.id} !! {priv.text, priv.id}
      requires SlotLock in thread.held
      modifies objects, this`objectCount, this`table, this`Repr, this`keyFiles
      ensures Valid() && Repr == old(Repr) + {pub, pub.text, pub.id, priv, priv.text, priv.id}
      ensures table == old(table)[a := Used(pub.handle, pub.View())][b := Used(priv.handle, priv.View())]
      ensures keyFiles == SaveObject(SaveObject(old(keyFiles), pub.handle, pub.View()), priv.handle, priv.View())
    {
      Put(a, pub, thread);
      Put(b, priv, thread);
      Save(pub, thread);
      Save(priv, thread);
    }

    /** With both cells found, the halves get the next two handles, public first. */
    method InstallAt(a: nat, b: nat, pub: ObjectRecord, priv: ObjectRecord, thread: Thread) returns (g: nat, h: nat)
      requires Valid() && thread !in Repr && thread.Valid() && ObjectCounterLock !in thread.held
      requires a < b < MAX_OBJECTS && table[a].Free? && table[b].Free?
      requires pub.Valid() && priv.Valid() && {pub, pub.text, pub.id, priv, priv.text, priv.id} !! Repr
      requires pub != priv && {pub.text, pub.id} !! {priv.text, priv.id}
      requires SlotLock in thread.held
      modifies objects, this, pub`handle, priv`handle, thread
      ensures Valid() && Repr == old(Repr) + {pub, pub.text, pub.id, priv, priv.text, priv.id}
      ensures thread.Valid() && thread.held == old(thread.held)
      ensures thread.ops == old(thread.ops) + (Around(ObjectCounterLock, []) + Around(ObjectCounterLock, []))
      ensures g == ObjectHandle(TYPE_PUBLIC_KEY, old(issued)) && h == ObjectHandle(TYPE_PRIVATE_KEY, old(issued) + 1)
      ensures var o, p := old(pub.View()), old(priv.View());
              View() == Store(old(table)[a := Used(g, o)][b := Used(h, p)], old(issued) + 2,
                              SaveObject(SaveObject(old(keyFiles), g, o), h, p))
    {
      g, h := TwoHandles(thread);
      pub.handle, priv.handle := g, h;
      PutPair(a, b, pub, priv, thread);
    }

    /** The next two handles, public first. */
    method TwoHandles(thread: Thread) returns (g: nat, h: nat)
      requires Valid() && thread !in Repr && thread.Valid() && ObjectCounterLock !in thread.held
      modifies this`counter, this`issued, thread
      ensures Valid() && issued == old(issued) + 2
      ensures g == ObjectHandle(TYPE_PUBLIC_KEY, old(issued)) && h == ObjectHandle(TYPE_PRIVATE_KEY, old(issued) + 1)
      ensures thread.Valid() && thread.held == old(thread.held)
      ensures thread.ops == old(thread.ops) + (Around(ObjectCounterLock, []) + Around(ObjectCounterLock, []))
    {
      g := GenerateHandle(TYPE_PUBLIC_KEY, thread);
      h := GenerateHandle(TYPE_PRIVATE_KEY, thread);
      Joined(old(thread.ops), Around(ObjectCounterLock, []), Around(ObjectCounterLock, []));
    }

    /** The end of `C_GenerateKeyPair` under the slot lock: two free cells, two handles, two installs, two saves. */
    method InstallPair(pub: ObjectRecord, priv: ObjectRecord, thread: Thread) returns (rv: Rv, g: nat, h: nat)
      requires Valid() && thread !in Repr && thread.Valid() && ObjectCounterLock !in thread.held
      requires pub.Valid() && priv.Valid() && {pub, pub.text, pub.id, priv, priv.text, priv.id} !! Repr
      requires pub != priv && {pub.text, pub.id} !! {priv.text, priv.id}
      requires SlotLock in thread.held
      modifies objects, this, pub`handle, priv`handle, thread
      ensures Valid() && Repr <= old(Repr) + {pub, pub.text, pub.id, priv, priv.text, priv.id}
      ensures thread.Valid() && thread.held == old(thread.held)
      ensures thread.ops == old(thread.ops) + PairHandleLocks(old(table))
      ensures Stored(View(), if rv == OK then Reply(OK, KeyPair(g, h)) else Just(rv))
              == Engine.InstallPair(old(View()), old(pub.View()), old(priv.View()))
    {
      g, h := 0, 0;
      PairInstalled(View(), pub.View(), priv.View());
      var a, b := TwoFreeCells();
      if a == MAX_OBJECTS || b == MAX_OBJECTS { return HostMemory, g, h; }
      g, h := InstallAt(a, b, pub, priv, thread);
      rv := OK;
    }

    method InstallLocked(pub: ObjectRecord, priv: ObjectRecord, thread: Thread) returns (rv: Rv, g: nat, h: nat)
      requires Valid() && thread !in Repr && thread.Valid() && thread.held == {}
      requires pub.Valid() && priv.Valid() && {pub, pub.text, pub.id, priv, priv.text, priv.id} !! Repr
      requires pub != priv && {pub.text, pub.id} !! {priv.text, priv.id}
      modifies objects, this, pub`handle, priv`handle, thread
      ensures Valid()
      ensures forall o :: o in Repr ==>
        o in old(Repr) || o in {pub, pub.text, pub.id, priv, priv.text, priv.id}
      ensures thread.Valid() && thread.held == {}
      ensures thread.ops == old(thread.ops) + InstallPairLocks(old(table))
      ensures Stored(View(), if rv == OK then Reply(OK, KeyPair(g, h)) else Just(rv))
              == Engine.InstallPair(old(View()), old(pub.View()), old(priv.View()))
    {
      thread.Lock(SlotLock);
      rv, g, h := InstallPair(pub, priv, thread);
      thread.Unlock(SlotLock);
      NestedBracket(old(thread.ops), SlotLock, PairHandleLocks(old(table)));
    }

    /** The two new objects are none of the slot's. */
    method BuildOutside(mechanism: nat, pubT: Template, privT: Template, m: Material)
      returns (rv: Rv, pub: ObjectRecord, priv: ObjectRecord)
      requires Valid()
      ensures Valid()
      ensures fresh({pub, pub.text, pub.id, priv, priv.text, priv.id}) && pub.Valid() && priv.Valid()
      ensures {pub, pub.text, pub.id, priv, priv.text, priv.id} !! Repr
      ensures pub != priv && {pub.text, pub.id} !! {priv.text, priv.id}
      ensures match Generate(mechanism, pubT, m)
              case NoKeys(e) => rv == e != OK
              case Keys(k, l) => rv == OK && pub.View() == PublicHalf(pubT, k) && priv.View() == PrivateHalf(privT, l)
    {
      rv, pub, priv := BuildPair(mechanism, pubT, privT, m);
    }

    /** `C_GenerateKeyPair` after the login check. */
    method MakePair(mechanism: nat, pubT: Template, privT: Template, m: Material, thread: Thread)
      returns (rv: Rv, g: nat, p: nat)
      requires Valid() && thread !in Repr && thread.Valid() && thread.held == {}
      modifies objects, this, thread
      ensures Valid() && fresh(Repr - old(Repr)) && thread.Valid() && thread.held == {}
      ensures thread.ops == old(thread.ops) + MakePairLocks(old(table), mechanism, pubT, m)
      ensures Stored(View(), if rv == OK then Reply(OK, KeyPair(g, p)) else Just(rv))
              == PairGenerated(old(View()), mechanism, pubT, privT, m)
    {
      var pub, priv;
      g, p := 0, 0;
      rv, pub, priv := BuildOutside(mechanism, pubT, privT, m);
      if rv != OK { return; }
      rv, g, p := InstallLocked(pub, priv, thread);
    }

    /** The two-index scan: the two lowest free cells, 1024 standing for "not found". */
    method TwoFreeCells() returns (a: nat, b: nat)
      requires Valid()
      ensures a == FreeFrom(table, 0)
      ensures b == if a == MAX_OBJECTS then MAX_OBJECTS else FreeFrom(table, a + 1)
    {
      a, b := MAX_OBJECTS, MAX_OBJECTS;
      var i := 0;
      while i < MAX_OBJECTS
        invariant i <= MAX_OBJECTS && b == MAX_OBJECTS
        invariant if a == MAX_OBJECTS then FreeFrom(table, 0) == FreeFrom(table, i)
                  else a == FreeFrom(table, 0) < i && FreeFrom(table, a + 1) == FreeFrom(table, i)
      {
        assert ObjectAt(i);
        if objects[i] == null {
          if a == MAX_OBJECTS {
            a := i;
          } else {
            b := i;
            return;
          }
        }
        i := i + 1;
      }
    }

    /** The freeing loop of `hsm_cleanup_slot`; the slot with its count is released right after it. */
    method FreeAll(thread: Thread)
      requires Valid()
      requires GlobalLock in thread.held
      modifies this`objectCount, this`table, objects
      ensures Valid() && Repr == old(Repr) && View() == old(View()).(objects := NoObjects())
    {
      for i := 0 to MAX_OBJECTS
        invariant forall k :: 0 <= k < i ==> objects[k] == null
      {
        if objects[i] != null {
          objects[i] := null;
        }
      }
      objectCount := 0;
      table := NoObjects();
      CountExtremes(table);
    }

    /** What `memset` and the zeroed count of `hsm_init_slot` leave. */
    method Clear(thread: Thread)
      requires Valid()
      requires GlobalLock in thread.held
      modifies this`objectCount, this`table, objects
      ensures Valid() && Repr == old(Repr) && View() == old(View()).(objects := NoObjects())
    {
      forall i | 0 <= i < MAX_OBJECTS {
        objects[i] := null;
      }
      objectCount := 0;
      table := NoObjects();
      CountExtremes(table);
    }
  }

  // The result buffer and its count once the first `i` cells have been looked at; quantified over a copy, so that
  // the loop carries it along unopened.
  ghost predicate Filled(buffer: seq<nat>, n: nat, t: Table<Object>, i: nat, results: seq<nat>)
    requires i <= |t|
  {
    forall b :: b == buffer ==> FillsFront(b, n, Handles(t[..i]), results)
  }

  predicate FillsFront(buffer: seq<nat>, n: nat, front: seq<nat>, results: seq<nat>) {
    n == |front| <= |results| && buffer == front + results[n..]
  }

  lemma NothingFilled(t: Table<Object>, results: seq<nat>)
    ensures Filled(results, 0, t, 0, results)
  {
  }

  lemma FilledStep(buffer: seq<nat>, n: nat, t: Table<Object>, i: nat, results: seq<nat>)
    requires i < |t| && Filled(buffer, n, t, i, results) && n < |buffer| == |results|
    ensures t[i].Used? ==> Filled(buffer[n := t[i].handle], n + 1, t, i + 1, results)
    ensures t[i].Free? ==> Filled(buffer, n, t, i + 1, results)
  {
    assert FillsFront(buffer, n, Handles(t[..i]), results);
    assert t[..i + 1][..i] == t[..i];
  }

  lemma FilledIsSnapshot(buffer: seq<nat>, n: nat, t: ObjectTable, i: nat, results: seq<nat>)
    requires i <= MAX_OBJECTS && |results| == MAX_FIND && Filled(buffer, n, t, i, results)
    requires i == MAX_OBJECTS || n == MAX_FIND
    ensures n == |Snapshot(t)| && buffer == Snapshot(t) + results[|Snapshot(t)|..]
  {
    assert FillsFront(buffer, n, Handles(t[..i]), results);
    HandlesPrefix(t, i);
    assert i == MAX_OBJECTS ==> t[..i] == t;
    assert Handles(t[..i]) == Snapshot(t);
  }

  /** Installing a pair, told by the two scans. */
  lemma PairInstalled(st: Store, pub: Object, priv: Object)
    ensures var a := FreeFrom(st.objects, 0);
            if a == MAX_OBJECTS || FreeFrom(st.objects, a + 1) == MAX_OBJECTS then
              Engine.InstallPair(st, pub, priv) == Stored(st, Just(HostMemory))
            else
              var b := FreeFrom(st.objects, a + 1);
              var g, h := ObjectHandle(TYPE_PUBLIC_KEY, st.issued), ObjectHandle(TYPE_PRIVATE_KEY, st.issued + 1);
              Engine.InstallPair(st, pub, priv) ==
                Stored(Store(st.objects[a := Used(g, pub)][b := Used(h, priv)], st.issued + 2,
                             SaveObject(SaveObject(st.keyFiles, g, pub), h, priv)), Reply(OK, KeyPair(g, h)))
  {
  }

  lemma {:induction false} HandlesPrefix(t: Table<Object>, i: nat)
    requires i <= |t|
    ensures Handles(t[..i]) <= Handles(t)
    decreases |t| - i
  {
    if i == |t| {
      assert t[..i] == t;
    } else {
      HandlesPrefix(t, i + 1);
      assert t[..i + 1][..i] == t[..i];
    }
  }
}
