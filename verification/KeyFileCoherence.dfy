/** The key directory against the object table, over whole runs that start from an empty directory. */
module KeyFileCoherence {
  import opened Common
  import opened Tables
  import opened Objects
  import opened Storage
  import opened KeyFileNames
  import opened Engine
  import opened HandleSupply
  import opened Effects
  import opened Runs
  import opened Lifetimes

  /** The handles of the live token objects. */
  ghost function TokenHandles(t: ObjectTable): set<nat> {
    set i | 0 <= i < MAX_OBJECTS && t[i].Used? && t[i].item.isToken :: t[i].handle
  }

  /**
   There is a file for every live token object and every orphan, and no other, and each holds exactly what `born`
   has on record under the handle.
   */
  ghost predicate FilesNamed(st: Store, born: map<nat, Object>, orphans: set<nat>) {
    && (forall h :: h in TokenHandles(st.objects) + orphans ==> FileHolds(st, born, h))
    && NoOtherFile(st, TokenHandles(st.objects) + orphans)
  }

  ghost predicate NoOtherFile(st: Store, named: set<nat>) {
    forall name :: name in st.keyFiles ==> exists h :: h in named && name == KeyFileName(h)
  }

  ghost predicate FileHolds(st: Store, born: map<nat, Object>, h: nat) {
    h in born && KeyFileName(h) in st.keyFiles && st.keyFiles[KeyFileName(h)] == EncodeObject(h, born[h])
  }

  ghost predicate OrphansApart(st: Store, orphans: set<nat>) {
    forall h :: h in orphans ==> Issued(h, st.issued) && !Live(st.objects, h)
  }

  /** The files are those of the live token objects and of `orphans`, token objects live at an earlier Finalize. */
  ghost predicate FilesAgree(st: Store, born: map<nat, Object>, orphans: set<nat>) {
    FilesNamed(st, born, orphans) && OrphansApart(st, orphans)
  }

  // Quantified over a copy, so that the lemmas about runs carry it along unopened.
  ghost predicate Coherent(st: Store, born: map<nat, Object>, orphans: set<nat>) {
    forall t :: t == st ==> FilesAgree(t, born, orphans)
  }

  lemma InsertAgrees(st: Store, born: map<nat, Object>, orphans: set<nat>, i: nat, kind: nat, o: Object)
    requires FilesAgree(st, born, orphans) && ObjectHandlesOk(st) && st.issued < TWO28
    requires i < MAX_OBJECTS && st.objects[i].Free?
    ensures FilesAgree(InsertObject(st, i, kind, o), born[ObjectHandle(kind, st.issued) := o], orphans)
  {
    var h := ObjectHandle(kind, st.issued);
    var u := InsertObject(st, i, kind, o);
    var after := born[h := o];
    SerialOfHandle(kind, st.issued);
    assert h !in orphans && !Live(st.objects, h);
    InsertedTokens(st, i, kind, o);
    forall g | g in TokenHandles(u.objects) + orphans ensures FileHolds(u, after, g) {
      InsertedFileHolds(st, born, orphans, i, kind, o, g);
    }
    assert forall g :: g in TokenHandles(st.objects) + orphans ==> g in TokenHandles(u.objects) + orphans;
    if o.isToken {
      assert h in TokenHandles(u.objects) + orphans;
    }
    InsertKeepsApart(st, orphans, i, kind, o);
  }

  lemma InsertCoherent(st: Store, born: map<nat, Object>, orphans: set<nat>, i: nat, kind: nat, o: Object)
    requires Coherent(st, born, orphans) && ObjectHandlesOk(st) && st.issued < TWO28
    requires i < MAX_OBJECTS && st.objects[i].Free?
    ensures Coherent(InsertObject(st, i, kind, o), born[ObjectHandle(kind, st.issued) := o], orphans)
  {
    assert FilesAgree(st, born, orphans);
    InsertAgrees(st, born, orphans, i, kind, o);
  }

  lemma InsertKeepsApart(st: Store, orphans: set<nat>, i: nat, kind: nat, o: Object)
    requires OrphansApart(st, orphans) && i < MAX_OBJECTS && st.objects[i].Free?
    requires ObjectHandle(kind, st.issued) !in orphans
    ensures OrphansApart(InsertObject(st, i, kind, o), orphans)
  {
    var u := InsertObject(st, i, kind, o);
    forall g | g in orphans ensures !Live(u.objects, g) {
      forall k | 0 <= k < MAX_OBJECTS && u.objects[k].Used? ensures u.objects[k].handle != g {
        if k != i {
          assert st.objects[k].Used? && !Live(st.objects, g);
        }
      }
    }
  }

  lemma InsertedFileHolds(st: Store, born: map<nat, Object>, orphans: set<nat>, i: nat, kind: nat, o: Object, g: nat)
    requires i < MAX_OBJECTS && st.objects[i].Free?
    requires var h := ObjectHandle(kind, st.issued); h !in orphans && !Live(st.objects, h)
    requires g in TokenHandles(InsertObject(st, i, kind, o).objects) + orphans
    requires g in TokenHandles(st.objects) + orphans ==> FileHolds(st, born, g)
    ensures FileHolds(InsertObject(st, i, kind, o), born[ObjectHandle(kind, st.issued) := o], g)
  {
    var h := ObjectHandle(kind, st.issued);
    InsertedTokens(st, i, kind, o);
    if g == h {
      assert h !in TokenHandles(st.objects) by {
        assert !Live(st.objects, h);
      }
    } else {
      NamesDistinct(g, h);
    }
  }

  lemma InsertedTokens(st: Store, i: nat, kind: nat, o: Object)
    requires i < MAX_OBJECTS && st.objects[i].Free?
    ensures var h := ObjectHandle(kind, st.issued);
            TokenHandles(InsertObject(st, i, kind, o).objects)
            == TokenHandles(st.objects) + (if o.isToken then {h} else {})
  {
    var h := ObjectHandle(kind, st.issued);
    var u := InsertObject(st, i, kind, o);
    forall g ensures g in TokenHandles(u.objects) <==> g in TokenHandles(st.objects) || (o.isToken && g == h) {
      if g in TokenHandles(st.objects) {
        var k :| 0 <= k < MAX_OBJECTS && st.objects[k].Used? && st.objects[k].item.isToken && st.objects[k].handle == g;
        assert u.objects[k] == st.objects[k];
      }
      if o.isToken && g == h {
        assert u.objects[i].handle == g;
      }
    }
  }

  lemma RemovedTokens(st: Store, i: nat)
    requires Distinct(st.objects) && i < MAX_OBJECTS && st.objects[i].Used?
    ensures TokenHandles(st.objects[i := Free]) == TokenHandles(st.objects) - {st.objects[i].handle}
    ensures st.objects[i].handle in TokenHandles(st.objects) <==> st.objects[i].item.isToken
  {
    var h := st.objects[i].handle;
    var u := st.objects[i := Free];
    forall g ensures g in TokenHandles(u) <==> g in TokenHandles(st.objects) && g != h {
      if g in TokenHandles(st.objects) && g != h {
        var k :| 0 <= k < MAX_OBJECTS && st.objects[k].Used? && st.objects[k].item.isToken && st.objects[k].handle == g;
        assert u[k] == st.objects[k];
      }
    }
  }

  lemma RemovedFileHolds(st: Store, born: map<nat, Object>, i: nat, g: nat)
    requires i < MAX_OBJECTS && st.objects[i].Used? && g != st.objects[i].handle && FileHolds(st, born, g)
    ensures FileHolds(StoreAfter(st, Removed(i)), born, g)
  {
    NamesDistinct(g, st.objects[i].handle);
  }

  lemma RemovedLeavesNoOther(st: Store, i: nat, named: set<nat>)
    requires i < MAX_OBJECTS && st.objects[i].Used? && NoOtherFile(st, named)
    requires st.objects[i].handle in named ==> st.objects[i].item.isToken
    ensures NoOtherFile(StoreAfter(st, Removed(i)), named - {st.objects[i].handle})
  {
    var h := st.objects[i].handle;
    var u := StoreAfter(st, Removed(i));
    forall name | name in u.keyFiles ensures exists g :: g in named - {h} && name == KeyFileName(g) {
      var g :| g in named && name == KeyFileName(g);
      assert g in named - {h};
    }
  }

  lemma RemovedNamed(st: Store, orphans: set<nat>, i: nat)
    requires OrphansApart(st, orphans) && Distinct(st.objects) && i < MAX_OBJECTS && st.objects[i].Used?
    ensures var named, h := TokenHandles(st.objects) + orphans, st.objects[i].handle;
            && TokenHandles(st.objects[i := Free]) + orphans == named - {h}
            && (h in named <==> st.objects[i].item.isToken)
  {
    RemovedTokens(st, i);
    assert Live(st.objects, st.objects[i].handle);
  }

  lemma RemoveNames(st: Store, born: map<nat, Object>, named: set<nat>, i: nat)
    requires (forall g :: g in named ==> FileHolds(st, born, g)) && NoOtherFile(st, named)
    requires i < MAX_OBJECTS && st.objects[i].Used? && (st.objects[i].handle in named ==> st.objects[i].item.isToken)
    ensures var u, left := StoreAfter(st, Removed(i)), named - {st.objects[i].handle};
            (forall g :: g in left ==> FileHolds(u, born, g)) && NoOtherFile(u, left)
  {
    RemovedLeavesNoOther(st, i, named);
    forall g | g in named - {st.objects[i].handle} ensures FileHolds(StoreAfter(st, Removed(i)), born, g) {
      RemovedFileHolds(st, born, i, g);
    }
  }

  lemma RemoveKeepsApart(st: Store, orphans: set<nat>, i: nat)
    requires OrphansApart(st, orphans) && i < MAX_OBJECTS && st.objects[i].Used?
    ensures OrphansApart(StoreAfter(st, Removed(i)), orphans)
  {
    var u := StoreAfter(st, Removed(i));
    forall g | Live(u.objects, g) ensures Live(st.objects, g) {
      var k :| 0 <= k < MAX_OBJECTS && u.objects[k].Used? && u.objects[k].handle == g;
      assert st.objects[k].Used? && st.objects[k].handle == g;
    }
  }

  lemma RemoveAgrees(st: Store, born: map<nat, Object>, orphans: set<nat>, i: nat)
    requires FilesAgree(st, born, orphans) && Distinct(st.objects) && i < MAX_OBJECTS && st.objects[i].Used?
    ensures FilesAgree(StoreAfter(st, Removed(i)), born, orphans)
  {
    RemovedNamed(st, orphans, i);
    RemoveNames(st, born, TokenHandles(st.objects) + orphans, i);
    RemoveKeepsApart(st, orphans, i);
  }

  lemma RelabelAgrees(st: Store, born: map<nat, Object>, orphans: set<nat>, i: nat, o: Object)
    requires FilesAgree(st, born, orphans) && i < MAX_OBJECTS && st.objects[i].Used?
    requires SameButLabel(st.objects[i].item, o)
    ensures FilesAgree(StoreAfter(st, Relabelled(i, o)), born, orphans)
  {
    var u := StoreAfter(st, Relabelled(i, o));
    RelabelledTokens(st, i, o);
    forall g | Live(u.objects, g) ensures Live(st.objects, g) {
      SameHandlesLive(u.objects, st.objects, g);
    }
    assert forall g :: FileHolds(u, born, g) <==> FileHolds(st, born, g);
  }

  lemma RelabelledTokens(st: Store, i: nat, o: Object)
    requires i < MAX_OBJECTS && st.objects[i].Used? && SameButLabel(st.objects[i].item, o)
    ensures TokenHandles(SetItem(st.objects, i, o)) == TokenHandles(st.objects)
  {
    var u := SetItem(st.objects, i, o);
    forall g ensures g in TokenHandles(u) <==> g in TokenHandles(st.objects) {
      if g in TokenHandles(st.objects) {
        var k :| 0 <= k < MAX_OBJECTS && st.objects[k].Used? && st.objects[k].item.isToken && st.objects[k].handle == g;
        assert u[k].handle == g && u[k].item.isToken;
      }
    }
  }

  lemma ClearAgrees(st: Store, born: map<nat, Object>, orphans: set<nat>)
    requires FilesAgree(st, born, orphans) && ObjectHandlesOk(st) && st.issued <= TWO28
    ensures FilesAgree(StoreAfter(st, StoreCleared), born, orphans + TokenHandles(st.objects))
  {
    var u := StoreAfter(st, StoreCleared);
    assert TokenHandles(u.objects) == {};
    assert TokenHandles(u.objects) + (orphans + TokenHandles(st.objects)) == TokenHandles(st.objects) + orphans;
    assert forall g :: FileHolds(u, born, g) <==> FileHolds(st, born, g);
  }

  // ----- runs -----

  /** The token objects whose files outlived a Finalize; the library never loads them again. */
  ghost function Orphans(r: Run, k: nat): set<nat>
    requires k <= |r.calls| && |r.states| == |r.calls| + 1
  {
    if k == 0 then {}
    else if r.calls[k - 1].Finalize? && r.states[k - 1].up && !r.states[k].up then
      Orphans(r, k - 1) + TokenHandles(r.states[k - 1].store.objects)
    else Orphans(r, k - 1)
  }

  lemma PairCoherent(st: Store, born: map<nat, Object>, orphans: set<nat>, i: nat, j: nat, pub: Object, priv: Object)
    requires Coherent(st, born, orphans) && ObjectHandlesOk(st) && SecretsOk(st) && st.issued + 2 <= TWO28
    requires i < j < MAX_OBJECTS && st.objects[i].Free? && st.objects[j].Free?
    requires pub.isSensitive && !pub.isExtractable
    ensures Coherent(StoreAfter(st, Paired(i, j, pub, priv)), born + BornIn(st, Paired(i, j, pub, priv)), orphans)
  {
    var g, h := ObjectHandle(TYPE_PUBLIC_KEY, st.issued), ObjectHandle(TYPE_PRIVATE_KEY, st.issued + 1);
    InsertCoherent(st, born, orphans, i, TYPE_PUBLIC_KEY, pub);
    InstallOneSound(st, i, TYPE_PUBLIC_KEY, pub);
    InsertCoherent(InsertObject(st, i, TYPE_PUBLIC_KEY, pub), born[g := pub], orphans, j, TYPE_PRIVATE_KEY, priv);
    assert born[g := pub][h := priv] == born + BornIn(st, Paired(i, j, pub, priv));
  }

  ghost function OrphansAfter(st: Store, e: StoreEffect, orphans: set<nat>): set<nat> {
    if e.StoreCleared? then orphans + TokenHandles(st.objects) else orphans
  }

  lemma InsertedCoherent(s: State, call: Call, reply: Reply, e: StoreEffect, born: map<nat, Object>, orphans: set<nat>)
    requires Sound(s) && StoreEffectOk(s, call, reply, e) && StoreAfter(s.store, e).issued <= TWO28 && e.Inserted?
    requires Coherent(s.store, born, orphans)
    ensures Coherent(StoreAfter(s.store, e), born + BornIn(s.store, e), orphans)
  {
    assert StoreEffectIs(s, call, reply, e);
    InsertCoherent(s.store, born, orphans, e.i, e.o.kind, e.o);
    assert born[ObjectHandle(e.o.kind, s.store.issued) := e.o] == born + BornIn(s.store, e);
  }

  lemma PairedCoherent(s: State, call: Call, reply: Reply, e: StoreEffect, born: map<nat, Object>, orphans: set<nat>)
    requires Sound(s) && StoreEffectOk(s, call, reply, e) && StoreAfter(s.store, e).issued <= TWO28 && e.Paired?
    requires Coherent(s.store, born, orphans)
    ensures Coherent(StoreAfter(s.store, e), born + BornIn(s.store, e), orphans)
  {
    assert StoreEffectIs(s, call, reply, e);
    PairCoherent(s.store, born, orphans, e.i, e.j, e.pub, e.priv);
  }

  lemma RemoveCoherent(st: Store, born: map<nat, Object>, orphans: set<nat>, i: nat)
    requires Coherent(st, born, orphans) && Distinct(st.objects) && i < MAX_OBJECTS && st.objects[i].Used?
    ensures Coherent(StoreAfter(st, Removed(i)), born, orphans)
  {
    assert FilesAgree(st, born, orphans);
    RemoveAgrees(st, born, orphans, i);
  }

  lemma RelabelCoherent(st: Store, born: map<nat, Object>, orphans: set<nat>, i: nat, o: Object)
    requires Coherent(st, born, orphans) && i < MAX_OBJECTS && st.objects[i].Used?
    requires SameButLabel(st.objects[i].item, o)
    ensures Coherent(StoreAfter(st, Relabelled(i, o)), born, orphans)
  {
    assert FilesAgree(st, born, orphans);
    RelabelAgrees(st, born, orphans, i, o);
  }

  lemma ClearCoherent(st: Store, born: map<nat, Object>, orphans: set<nat>)
    requires Coherent(st, born, orphans) && ObjectHandlesOk(st) && st.issued <= TWO28
    ensures Coherent(StoreAfter(st, StoreCleared), born, orphans + TokenHandles(st.objects))
  {
    assert FilesAgree(st, born, orphans);
    ClearAgrees(st, born, orphans);
  }

  lemma UnbornCoherent(s: State, call: Call, reply: Reply, e: StoreEffect, born: map<nat, Object>, orphans: set<nat>)
    requires Sound(s) && StoreEffectOk(s, call, reply, e) && s.store.issued <= TWO28 && !e.Inserted? && !e.Paired?
    requires Coherent(s.store, born, orphans)
    ensures Coherent(StoreAfter(s.store, e), born + BornIn(s.store, e), OrphansAfter(s.store, e, orphans))
  {
    assert StoreEffectIs(s, call, reply, e);
    assert born + BornIn(s.store, e) == born;
    match e {
      case StoreSame =>
      case Removed(i) => RemoveCoherent(s.store, born, orphans, i);
      case Relabelled(i, o) => RelabelCoherent(s.store, born, orphans, i, o);
      case StoreCleared => ClearCoherent(s.store, born, orphans);
    }
  }

  lemma EffectCoherent(s: State, call: Call, reply: Reply, e: StoreEffect, born: map<nat, Object>, orphans: set<nat>)
    requires Sound(s) && StoreEffectOk(s, call, reply, e) && StoreAfter(s.store, e).issued <= TWO28
    requires Coherent(s.store, born, orphans)
    ensures Coherent(StoreAfter(s.store, e), born + BornIn(s.store, e), OrphansAfter(s.store, e, orphans))
  {
    if e.Inserted? {
      InsertedCoherent(s, call, reply, e, born, orphans);
    } else if e.Paired? {
      PairedCoherent(s, call, reply, e, born, orphans);
    } else {
      UnbornCoherent(s, call, reply, e, born, orphans);
    }
  }

  ghost predicate EmptyWhenDown(s: State) {
    !s.up ==> TokenHandles(s.store.objects) == {}
  }

  lemma SoundIsEmptyWhenDown(s: State)
    requires Sound(s)
    ensures EmptyWhenDown(s)
  {
  }

  lemma OrphansStep(c: Crypto, r: Run, k: nat, e: StoreEffect)
    requires IsRun(c, r) && 0 < k <= |r.calls| && EmptyWhenDown(r.states[k - 1]) && EmptyWhenDown(r.states[k])
    requires StoreEffectOk(r.states[k - 1], r.calls[k - 1], r.replies[k - 1], e)
    requires r.states[k].store == StoreAfter(r.states[k - 1].store, e)
    ensures Orphans(r, k) == OrphansAfter(r.states[k - 1].store, e, Orphans(r, k - 1))
  {
    assert StoreEffectIs(r.states[k - 1], r.calls[k - 1], r.replies[k - 1], e);
    UpAt(c, r, k - 1);
  }

  /**
   After every call of every run from an empty directory, the key files are those of the live token objects and of
   the orphans, and each holds, byte for byte, the object that the call which returned its handle installed.
   */
  lemma {:induction false} DirectoryCoherent(c: Crypto, r: Run, k: nat)
    requires IsRun(c, r) && k <= |r.calls| && r.states[0].store.keyFiles == map[]
    requires r.states[k].store.issued <= TWO28
    ensures Coherent(r.states[k].store, Born(r, k), Orphans(r, k))
  {
    if k == 0 {
      assert TokenHandles(r.states[0].store.objects) == {};
      assert FilesAgree(r.states[0].store, map[], {});
    } else {
      RunCounts(c, r, k - 1, k);
      DirectoryCoherent(c, r, k - 1);
      CoherentStep(c, r, k);
    }
  }

  lemma CoherentStep(c: Crypto, r: Run, k: nat)
    requires IsRun(c, r) && 0 < k <= |r.calls| && r.states[k].store.issued <= TWO28
    requires Coherent(r.states[k - 1].store, Born(r, k - 1), Orphans(r, k - 1))
    ensures Coherent(r.states[k].store, Born(r, k), Orphans(r, k))
  {
    RunSound(c, r, k - 1);
    RunSound(c, r, k);
    var e := StoreAt(c, r, k - 1);
    EffectCoherent(r.states[k - 1], r.calls[k - 1], r.replies[k - 1], e, Born(r, k - 1), Orphans(r, k - 1));
    BornByEffect(r.states[k - 1], r.calls[k - 1], r.replies[k - 1], e);
    SoundIsEmptyWhenDown(r.states[k - 1]);
    SoundIsEmptyWhenDown(r.states[k]);
    OrphansStep(c, r, k, e);
  }

  /** Within the first epoch the files are exactly those of the live token objects. */
  lemma {:induction false} NoOrphansBeforeFinalize(c: Crypto, r: Run, k: nat)
    requires IsRun(c, r) && k <= |r.calls|
    requires forall m :: 0 <= m < k ==> !(r.calls[m].Finalize? && r.states[m].up && !r.states[m + 1].up)
    ensures Orphans(r, k) == {}
  {
    if k != 0 {
      NoOrphansBeforeFinalize(c, r, k - 1);
    }
  }

  /**
   Loading the file of any live token object or orphan gives all ten metadata fields of the object as installed,
   over any earlier contents.
   */
  lemma LoadGivesMetadata(c: Crypto, r: Run, k: nat, h: nat, was: Metadata)
    requires IsRun(c, r) && k <= |r.calls| && r.states[0].store.keyFiles == map[]
    requires r.states[k].store.issued <= TWO28 && h in TokenHandles(r.states[k].store.objects) + Orphans(r, k)
    requires |was.text| == LABEL_SIZE && |was.id| == ID_SIZE
    ensures var files := r.states[k].store.keyFiles;
            && h in Born(r, k) && KeyFileName(h) in files
            && DecodeMetadata(files[KeyFileName(h)], was) == MetadataOf(h, Born(r, k)[h])
  {
    DirectoryCoherent(c, r, k);
    assert FilesAgree(r.states[k].store, Born(r, k), Orphans(r, k));
    assert FileHolds(r.states[k].store, Born(r, k), h);
    BornIsIssued(c, r, k, h);
    MetadataRoundTrip(MetadataOf(h, Born(r, k)[h]), was, EncodeKey(Born(r, k)[h]));
  }

  /** For a live token object these are its own but for the label, which is the one it was installed with. */
  lemma LoadGivesLiveMetadata(c: Crypto, r: Run, k: nat, i: nat, was: Metadata)
    requires IsRun(c, r) && k <= |r.calls| && r.states[0].store.keyFiles == map[]
    requires r.states[k].store.issued <= TWO28 && i < MAX_OBJECTS
    requires r.states[k].store.objects[i].Used? && r.states[k].store.objects[i].item.isToken
    requires |was.text| == LABEL_SIZE && |was.id| == ID_SIZE
    ensures var Used(h, o) := r.states[k].store.objects[i];
            && h in Born(r, k) && KeyFileName(h) in r.states[k].store.keyFiles
            && var m := DecodeMetadata(r.states[k].store.keyFiles[KeyFileName(h)], was);
               m.text == Born(r, k)[h].text && m.(text := o.text) == MetadataOf(h, o)
  {
    var Used(h, o) := r.states[k].store.objects[i];
    assert HoldsObject(r.states[k], h, o);
    LiveIsBorn(c, r, k, h, o);
    LoadGivesMetadata(c, r, k, h, was);
  }

  /** When no `C_SetAttributeValue` named the object since call `j` installed it, they are its own, label included. */
  lemma LoadGivesWholeMetadata(c: Crypto, r: Run, j: nat, k: nat, i: nat, was: Metadata)
    requires IsRun(c, r) && j < k <= |r.calls| && r.states[0].store.keyFiles == map[]
    requires r.states[k].store.issued <= TWO28 && i < MAX_OBJECTS
    requires r.states[k].store.objects[i].Used? && r.states[k].store.objects[i].item.isToken
    requires var h := r.states[k].store.objects[i].handle;
             h in BornBy(r.calls[j], r.replies[j]) && NeverRelabelled(r, j + 1, k, h)
    requires |was.text| == LABEL_SIZE && |was.id| == ID_SIZE
    ensures var Used(h, o) := r.states[k].store.objects[i];
            && KeyFileName(h) in r.states[k].store.keyFiles
            && DecodeMetadata(r.states[k].store.keyFiles[KeyFileName(h)], was) == MetadataOf(h, o)
  {
    var Used(h, o) := r.states[k].store.objects[i];
    assert HoldsObject(r.states[k], h, o);
    UntouchedIsAsBorn(c, r, j, k, h, o);
    BornOnce(c, r, j, k, h);
    LoadGivesMetadata(c, r, k, h, was);
  }

  lemma ListedHandlesSmall(c: Crypto, r: Run, k: nat)
    requires IsRun(c, r) && k <= |r.calls| && r.states[k].store.issued <= TWO28
    requires FilesAgree(r.states[k].store, Born(r, k), Orphans(r, k))
    ensures forall h :: h in TokenHandles(r.states[k].store.objects) + Orphans(r, k) ==> h < TWO32
  {
    forall h | h in TokenHandles(r.states[k].store.objects) + Orphans(r, k) ensures h < TWO32 {
      assert FileHolds(r.states[k].store, Born(r, k), h);
      BornIsIssued(c, r, k, h);
    }
  }

  /** Listing the directory gives exactly the handles of the live token objects and the orphans. */
  lemma ListingGivesHandles(c: Crypto, r: Run, k: nat, entries: seq<string>)
    requires IsRun(c, r) && k <= |r.calls| && r.states[0].store.keyFiles == map[]
    requires r.states[k].store.issued <= TWO28
    requires forall i, j :: 0 <= i < j < |entries| ==> entries[i] != entries[j]
    requires forall name :: name in r.states[k].store.keyFiles ==> name in entries
    requires forall e :: e in entries && ScanHandle(e).Some? ==> e in r.states[k].store.keyFiles
    ensures multiset(Listed(entries)) == multiset(TokenHandles(r.states[k].store.objects) + Orphans(r, k))
  {
    DirectoryCoherent(c, r, k);
    RunSound(c, r, k);
    assert FilesAgree(r.states[k].store, Born(r, k), Orphans(r, k));
    ListedHandlesSmall(c, r, k);
    ListedExactly(entries, TokenHandles(r.states[k].store.objects) + Orphans(r, k));
  }

  // ----- the cap of the listing -----

  /** The cells of the live token objects. */
  ghost function TokenCells(t: ObjectTable): set<nat> {
    set i: nat | i < MAX_OBJECTS && t[i].Used? && t[i].item.isToken
  }

  ghost function HandlesIn(t: ObjectTable, cells: set<nat>): set<nat> {
    set i | i in cells && i < MAX_OBJECTS && t[i].Used? :: t[i].handle
  }

  lemma {:induction false} HandlesOfCells(t: ObjectTable, cells: set<nat>)
    requires Distinct(t) && forall i :: i in cells ==> i < MAX_OBJECTS && t[i].Used?
    ensures |HandlesIn(t, cells)| == |cells|
    decreases |cells|
  {
    if cells == {} {
      assert HandlesIn(t, cells) == {};
    } else {
      var i :| i in cells;
      HandlesOfCells(t, cells - {i});
      assert HandlesIn(t, cells) == HandlesIn(t, cells - {i}) + {t[i].handle};
    }
  }

  lemma {:induction false} SetBelow(s: set<nat>, n: nat)
    requires forall i :: i in s ==> i < n
    ensures |s| <= n
  {
    if n == 0 {
      assert s == {};
    } else {
      SetBelow(s - {n - 1}, n - 1);
    }
  }

  lemma TokensFit(t: ObjectTable)
    requires Distinct(t)
    ensures |TokenHandles(t)| == |TokenCells(t)| <= MAX_OBJECTS
  {
    HandlesOfCells(t, TokenCells(t));
    assert TokenHandles(t) == HandlesIn(t, TokenCells(t));
    SetBelow(TokenCells(t), MAX_OBJECTS);
  }

  /**
   Before the first Finalize the cap of `ListObjects` never bites: the `n` handles it returns are as many as there are
   live token objects, and are exactly their handles.
   */
  lemma ListingIsComplete(c: Crypto, r: Run, k: nat, entries: seq<string>)
    requires IsRun(c, r) && k <= |r.calls| && r.states[0].store.keyFiles == map[]
    requires r.states[k].store.issued <= TWO28
    requires forall m :: 0 <= m < k ==> !(r.calls[m].Finalize? && r.states[m].up && !r.states[m + 1].up)
    requires forall i, j :: 0 <= i < j < |entries| ==> entries[i] != entries[j]
    requires forall name :: name in r.states[k].store.keyFiles ==> name in entries
    requires forall e :: e in entries && ScanHandle(e).Some? ==> e in r.states[k].store.keyFiles
    ensures var t, n := r.states[k].store.objects, Min(|Listed(entries)|, MAX_OBJECTS);
            n == |TokenCells(t)| && multiset(Listed(entries)[..n]) == multiset(TokenHandles(t))
  {
    var t := r.states[k].store.objects;
    NoOrphansBeforeFinalize(c, r, k);
    ListingGivesHandles(c, r, k, entries);
    RunSound(c, r, k);
    TokensFit(t);
    assert TokenHandles(t) + Orphans(r, k) == TokenHandles(t);
    assert |multiset(Listed(entries))| == |multiset(TokenHandles(t))| == |TokenHandles(t)|;
    assert Listed(entries)[..|Listed(entries)|] == Listed(entries);
  }
}
