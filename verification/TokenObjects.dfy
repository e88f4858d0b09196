/** Which objects have key files: those whose template said so, while they are live. */
module TokenObjects {
  import opened Common
  import opened Tables
  import opened Objects
  import opened KeyFileNames
  import opened Engine
  import opened Effects
  import opened Runs
  import opened Lifetimes
  import opened KeyFileCoherence
  import opened Attributes
  import opened GeneratedKeys

  /** A live object has a file exactly when it is a token object. */
  lemma FileIffToken(c: Crypto, r: Run, k: nat, h: nat, o: Object)
    requires IsRun(c, r) && k <= |r.calls| && r.states[0].store.keyFiles == map[]
    requires r.states[k].store.issued <= TWO28 && HoldsObject(r.states[k], h, o)
    ensures KeyFileName(h) in r.states[k].store.keyFiles <==> o.isToken
  {
    DirectoryCoherent(c, r, k);
    RunSound(c, r, k);
    FileOfHeld(r.states[k].store, Born(r, k), Orphans(r, k), h, o);
  }

  lemma FileOfHeld(st: Store, born: map<nat, Object>, orphans: set<nat>, h: nat, o: Object)
    requires FilesAgree(st, born, orphans) && Distinct(st.objects) && Holds(st.objects, h, o)
    ensures KeyFileName(h) in st.keyFiles <==> o.isToken
  {
    NamedIffToken(st.objects, h, o);
    assert Live(st.objects, h);
    if h in TokenHandles(st.objects) {
      assert FileHolds(st, born, h);
    } else if KeyFileName(h) in st.keyFiles {
      FileIsNamed(st, TokenHandles(st.objects) + orphans, h);
    }
  }

  lemma NamedIffToken(t: ObjectTable, h: nat, o: Object)
    requires Distinct(t) && Holds(t, h, o)
    ensures h in TokenHandles(t) <==> o.isToken
  {
  }

  lemma FileIsNamed(st: Store, named: set<nat>, h: nat)
    requires NoOtherFile(st, named) && KeyFileName(h) in st.keyFiles
    ensures h in named
  {
    var g :| g in named && KeyFileName(h) == KeyFileName(g);
    NamesDistinct(h, g);
  }

  /** The file of a created object is there, while the object is, exactly when its template asked for a token object. */
  lemma CreatedFile(c: Crypto, r: Run, j: nat, k: nat, h: nat, o: Object)
    requires IsRun(c, r) && j < k <= |r.calls| && r.states[0].store.keyFiles == map[]
    requires r.states[k].store.issued <= TWO28 && HoldsObject(r.states[k], h, o)
    requires r.calls[j].CreateObject? && r.replies[j] == Reply(OK, Handle(h))
    ensures r.calls[j].template.Some?
    ensures KeyFileName(h) in r.states[k].store.keyFiles <==> AsksToken(r.calls[j].template.value)
  {
    StepIs(c, r, j);
    RunCounts(c, r, j + 1, k);
    BornIsHeld(c, r, j, h);
    ObjectPersists(c, r, j + 1, k, h, BornBy(r.calls[j], r.replies[j])[h], o);
    ParsedAsTemplateSays(TYPE_DATA, false, false, r.calls[j].template.value);
    FileIffToken(c, r, k, h, o);
  }

  /** In particular right after the call that returned its handle. */
  lemma FileRightAfterCreate(c: Crypto, r: Run, j: nat, h: nat)
    requires IsRun(c, r) && j < |r.calls| && r.states[0].store.keyFiles == map[]
    requires r.states[j + 1].store.issued <= TWO28
    requires r.calls[j].CreateObject? && r.replies[j] == Reply(OK, Handle(h))
    ensures r.calls[j].template.Some?
    ensures KeyFileName(h) in r.states[j + 1].store.keyFiles <==> AsksToken(r.calls[j].template.value)
  {
    StepIs(c, r, j);
    BornIsHeld(c, r, j, h);
    CreatedFile(c, r, j, j + 1, h, BornBy(r.calls[j], r.replies[j])[h]);
  }

  /** The same for either half of a generated pair, each with its own template. */
  lemma GeneratedFile(c: Crypto, r: Run, j: nat, k: nat, private: bool, o: Object)
    requires IsRun(c, r) && j < k <= |r.calls| && r.states[0].store.keyFiles == map[]
    requires r.states[k].store.issued <= TWO28
    requires r.calls[j].GenerateKeyPair? && r.replies[j].rv == OK && r.replies[j].out.KeyPair?
    requires HoldsObject(r.states[k], HalfHandle(r.replies[j], private), o)
    ensures KeyFileName(HalfHandle(r.replies[j], private)) in r.states[k].store.keyFiles
            <==> AsksToken(HalfTemplate(r.calls[j], private))
  {
    var other := LiveHalfIsAsAsked(c, r, j, k, private, o);
    FileIffToken(c, r, k, HalfHandle(r.replies[j], private), o);
  }

  lemma FilesRightAfterGenerate(c: Crypto, r: Run, j: nat, private: bool)
    requires IsRun(c, r) && j < |r.calls| && r.states[0].store.keyFiles == map[]
    requires r.states[j + 1].store.issued <= TWO28
    requires r.calls[j].GenerateKeyPair? && r.replies[j].rv == OK
    ensures r.replies[j].out.KeyPair?
    ensures KeyFileName(HalfHandle(r.replies[j], private)) in r.states[j + 1].store.keyFiles
            <==> AsksToken(HalfTemplate(r.calls[j], private))
  {
    var pub, priv := GeneratedPairIsAsAsked(c, r, j);
    GeneratedFile(c, r, j, j + 1, private, if private then priv else pub);
  }
}
