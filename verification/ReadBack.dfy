/** What `C_GetAttributeValue` reads over a run: what the last template to say so wrote, and nothing in between. */
module ReadBack {
  import opened Common
  import opened Tables
  import opened Objects
  import opened Engine
  import opened HandleSupply
  import opened Effects
  import opened Runs
  import opened Lifetimes
  import opened Attributes
  import opened GeneratedKeys

  /** A `C_GetAttributeValue` that reached the object named `h`. */
  ghost predicate Reads(r: Run, k: nat, h: nat)
    requires k < |r.calls| == |r.replies|
  {
    r.calls[k].GetAttributes? && r.calls[k].target == h && r.replies[k].out.Attributes?
  }

  /** The call at `k` answers as an object `o` would. */
  ghost predicate AnswersFor(r: Run, k: nat, o: Object)
    requires k < |r.calls| == |r.replies|
  {
    && r.calls[k].GetAttributes? && r.calls[k].queries.Some?
    && var qs := r.calls[k].queries.value;
       r.replies[k] == Reply(AnswerRv(o, qs), Out.Attributes(AnswerAll(o, qs)))
  }

  lemma ReadIsAnswer(c: Crypto, r: Run, k: nat, h: nat) returns (o: Object)
    requires IsRun(c, r) && k < |r.calls| && Reads(r, k, h)
    ensures HoldsObject(r.states[k], h, o) && AnswersFor(r, k, o)
  {
    StepIs(c, r, k);
    var i := GetObject(r.states[k].store, h).i;
    o := r.states[k].store.objects[i].item;
    assert r.states[k].store.objects[i] == Used(h, o);
  }

  /** Every entry for the type that has room reads exactly `value`. */
  ghost predicate ReadsAs(r: Run, k: nat, kind: nat, value: Bytes)
    requires k < |r.calls| == |r.replies| && r.calls[k].GetAttributes? && r.calls[k].queries.Some?
  {
    && r.replies[k].out.Attributes? && |r.replies[k].out.entries| == |r.calls[k].queries.value|
    && forall i :: 0 <= i < |r.calls[k].queries.value| ==>
         EntryReads(r.calls[k].queries.value[i], r.replies[k].out.entries[i], kind, value)
  }

  /**
   One entry before and after: its length is reported, and its buffer, for labels and ids if long enough, holds the
   value.
   */
  predicate EntryReads(q: Query, e: Query, kind: nat, value: Bytes) {
    q.kind == kind ==>
      && e.len == |value|
      && (q.buffer.Some? && (kind in {CKA_LABEL, CKA_ID} ==> q.len >= |value|) ==>
            e.buffer.Some? && |e.buffer.value| >= |value| && e.buffer.value[..|value|] == value)
  }

  lemma AnswerReads(o: Object, q: ReadableQuery, kind: nat)
    requires Supported(kind)
    ensures EntryReads(q, Answer(o, q).0, kind, ValueOf(o, kind).value)
  {
    AnswerSucceedsExactlyWhen(o, q);
  }

  lemma AnswersRead(r: Run, k: nat, o: Object, kind: nat)
    requires k < |r.calls| == |r.replies| && AnswersFor(r, k, o) && Supported(kind)
    ensures ReadsAs(r, k, kind, ValueOf(o, kind).value)
  {
    var qs := r.calls[k].queries.value;
    forall i | 0 <= i < |qs| ensures EntryReads(qs[i], AnswerAll(o, qs)[i], kind, ValueOf(o, kind).value) {
      AnswerReads(o, qs[i], kind);
    }
  }

  /** The attributes that a template does not leave to its maker read as the template says, in bytes. */
  ghost predicate ReadsTemplate(r: Run, k: nat, t: Template, given: Byte, keyType: Byte)
    requires k < |r.calls| == |r.replies| && r.calls[k].GetAttributes? && r.calls[k].queries.Some?
  {
    && ReadsAs(r, k, CKA_TOKEN, if AsksToken(t) then [1] else [0])
    && ReadsAs(r, k, CKA_PRIVATE, if AsksPrivate(t) then [1] else [0])
    && (forall i: nat :: LastEntry(t, CKA_CLASS, i) ==>
          var v := t[i].value; ReadsAs(r, k, CKA_CLASS, [v[0], v[1], v[2], v[3], 0, 0, 0, 0]))
    && (!Mentions(t, CKA_CLASS) ==> ReadsAs(r, k, CKA_CLASS, [given, 0, 0, 0, 0, 0, 0, 0]))
    && ReadsAs(r, k, CKA_KEY_TYPE, [keyType, 0, 0, 0, 0, 0, 0, 0])
    && ReadsAs(r, k, CKA_ID, match LastFitting(t, CKA_ID, ID_SIZE) case None => [] case Some(v) => v)
  }

  /** And its label reads up to the first zero byte of the last fitting one. */
  ghost predicate ReadsLabel(r: Run, k: nat, t: Template)
    requires k < |r.calls| == |r.replies| && r.calls[k].GetAttributes? && r.calls[k].queries.Some?
  {
    ReadsAs(r, k, CKA_LABEL, match LastFitting(t, CKA_LABEL, LABEL_SIZE - 1)
                             case None => [] case Some(v) => UpToZero(v))
  }

  lemma ClassIsRead(r: Run, k: nat, o: Object, t: Template, given: Byte)
    requires k < |r.calls| == |r.replies| && AnswersFor(r, k, o) && AsksClass(t, given, o.kind)
    ensures forall i: nat :: LastEntry(t, CKA_CLASS, i) ==>
      var v := t[i].value; ReadsAs(r, k, CKA_CLASS, [v[0], v[1], v[2], v[3], 0, 0, 0, 0])
    ensures !Mentions(t, CKA_CLASS) ==> ReadsAs(r, k, CKA_CLASS, [given, 0, 0, 0, 0, 0, 0, 0])
  {
    AnswersRead(r, k, o, CKA_CLASS);
    AttributeBytes(o);
    forall i: nat | LastEntry(t, CKA_CLASS, i)
      ensures var v := t[i].value; ReadsAs(r, k, CKA_CLASS, [v[0], v[1], v[2], v[3], 0, 0, 0, 0])
    {
      assert t[i].kind == CKA_CLASS && Mentions(t, CKA_CLASS);
      assert o.kind == LowWord(t[i].value);
      ClassReadsBack(t[i].value, o);
    }
  }

  lemma FlagsAreRead(r: Run, k: nat, o: Object, t: Template, given: nat)
    requires k < |r.calls| == |r.replies| && AnswersFor(r, k, o) && AsTemplateSays(t, given, o)
    ensures ReadsAs(r, k, CKA_TOKEN, if AsksToken(t) then [1] else [0])
    ensures ReadsAs(r, k, CKA_PRIVATE, if AsksPrivate(t) then [1] else [0])
    ensures ReadsAs(r, k, CKA_KEY_TYPE, [if o.key.Rsa? then 0 else 3, 0, 0, 0, 0, 0, 0, 0])
  {
    AttributeBytes(o);
    AnswersRead(r, k, o, CKA_TOKEN);
    AnswersRead(r, k, o, CKA_PRIVATE);
    AnswersRead(r, k, o, CKA_KEY_TYPE);
  }

  /** A new object, read as it was installed, whatever key it was given. */
  lemma ParsedIsRead(r: Run, k: nat, kind: Byte, canSign: bool, canVerify: bool, t: Template, key: KeyData)
    requires k < |r.calls| == |r.replies|
    requires AnswersFor(r, k, ParseTemplate(Blank(kind, canSign, canVerify), t).(key := key))
    ensures ReadsTemplate(r, k, t, kind, if key.Rsa? then 0 else 3) && ReadsLabel(r, k, t)
  {
    var o := ParseTemplate(Blank(kind, canSign, canVerify), t);
    var p := o.(key := key);
    ParsedAsTemplateSays(kind, canSign, canVerify, t);
    ParsedTemplateReadsBack(kind, canSign, canVerify, t);
    assert ValueOf(p, CKA_LABEL) == ValueOf(o, CKA_LABEL) && ValueOf(p, CKA_ID) == ValueOf(o, CKA_ID);
    AnswersRead(r, k, p, CKA_LABEL);
    AnswersRead(r, k, p, CKA_ID);
    FlagsAreRead(r, k, p, t, kind);
    ClassIsRead(r, k, p, t, kind);
  }

  /**
   Write, then read. What a `C_CreateObject` at `j` was told, any later `C_GetAttributeValue` on the handle it
   returned reads back, byte by byte: token, privacy, class, label and id as the last entries of the template say, an
   RSA key type, and what the code puts there without such an entry. No `C_SetAttributeValue` on the handle may come in
   between; any other call may.
   */
  lemma CreatedReadsBack(c: Crypto, r: Run, j: nat, k: nat, h: nat)
    requires IsRun(c, r) && j < k < |r.calls| && r.states[k].store.issued <= TWO28
    requires r.calls[j].CreateObject? && r.replies[j] == Reply(OK, Handle(h))
    requires Reads(r, k, h) && NeverRelabelled(r, j + 1, k, h)
    ensures r.calls[j].template.Some? && r.calls[k].queries.Some?
    ensures ReadsTemplate(r, k, r.calls[j].template.value, 0, 0) && ReadsLabel(r, k, r.calls[j].template.value)
  {
    StepIs(c, r, j);
    var o := ReadIsAnswer(c, r, k, h);
    UntouchedIsAsBorn(c, r, j, k, h, o);
    ParsedAsTemplateSays(TYPE_DATA, false, false, r.calls[j].template.value);
    ParsedIsRead(r, k, TYPE_DATA, false, false, r.calls[j].template.value, NO_KEY);
  }

  lemma PairReply(s: State, call: Call, reply: Reply, e: StoreEffect)
    requires StoreEffectOk(s, call, reply, e) && StoreAfter(s.store, e).issued <= TWO28
    requires call.GenerateKeyPair? && reply.rv == OK && reply.out.KeyPair?
    ensures Generate(call.mechanism, call.publicTemplate, call.material).Keys?
    ensures reply.out.publicKey != reply.out.privateKey
  {
    assert StoreEffectIs(s, call, reply, e);
    SerialOfHandle(TYPE_PUBLIC_KEY, s.store.issued);
    SerialOfHandle(TYPE_PRIVATE_KEY, s.store.issued + 1);
  }

  lemma HalfIsBorn(call: Call, reply: Reply, private: bool) returns (key: KeyData)
    requires call.GenerateKeyPair? && reply.rv == OK && reply.out.KeyPair?
    requires Generate(call.mechanism, call.publicTemplate, call.material).Keys?
    requires reply.out.publicKey != reply.out.privateKey
    ensures var blank := if private then Blank(TYPE_PRIVATE_KEY, true, false) else Blank(TYPE_PUBLIC_KEY, false, true);
            var born, half := BornBy(call, reply), HalfHandle(reply, private);
            half in born && born[half] == ParseTemplate(blank, HalfTemplate(call, private)).(key := key)
    ensures key.Rsa? <==> call.mechanism == CKM_RSA_PKCS_KEY_PAIR_GEN
  {
    var keys := Generate(call.mechanism, call.publicTemplate, call.material);
    key := if private then keys.privateKey else keys.publicKey;
  }

  /** The halves of a generated pair read back likewise, each as its own template says. */
  lemma GeneratedReadsBack(c: Crypto, r: Run, j: nat, k: nat, private: bool)
    requires IsRun(c, r) && j < k < |r.calls| && r.states[k].store.issued <= TWO28
    requires r.calls[j].GenerateKeyPair? && r.replies[j].rv == OK && r.replies[j].out.KeyPair?
    requires var half := HalfHandle(r.replies[j], private); Reads(r, k, half) && NeverRelabelled(r, j + 1, k, half)
    ensures r.calls[k].queries.Some?
    ensures var t := HalfTemplate(r.calls[j], private);
            var keyType := if r.calls[j].mechanism == CKM_RSA_PKCS_KEY_PAIR_GEN then 0 else 3;
            ReadsTemplate(r, k, t, if private then 3 else 2, keyType) && ReadsLabel(r, k, t)
  {
    RunCounts(c, r, j + 1, k);
    var half := HalfHandle(r.replies[j], private);
    var e := StoreAt(c, r, j);
    PairReply(r.states[j], r.calls[j], r.replies[j], e);
    var key := HalfIsBorn(r.calls[j], r.replies[j], private);
    var o := ReadIsAnswer(c, r, k, half);
    UntouchedIsAsBorn(c, r, j, k, half, o);
    ParsedIsRead(r, k, if private then TYPE_PRIVATE_KEY else TYPE_PUBLIC_KEY, private, !private,
                 HalfTemplate(r.calls[j], private), key);
  }

  /** A `C_SetAttributeValue` that reached the object: what it leaves is live right after it. */
  lemma RelabelledIsHeld(c: Crypto, r: Run, j: nat, h: nat) returns (p: Object)
    requires IsRun(c, r) && j < |r.calls| && Relabels(r.calls[j], h) && ChangesStore(r.calls[j], r.replies[j])
    ensures r.calls[j].template.Some? && HoldsObject(r.states[j], h, p)
    ensures HoldsObject(r.states[j + 1], h, SetAttributes(p, r.calls[j].template.value).0)
  {
    var e := StoreAt(c, r, j);
    assert StoreEffectIs(r.states[j], r.calls[j], r.replies[j], e);
    var objects := r.states[j].store.objects;
    p := objects[e.i].item;
    assert objects[e.i] == Used(h, p);
    assert r.states[j + 1].store.objects[e.i] == Used(h, e.o);
  }

  /** And a label set at `j` is read back likewise, until the next `C_SetAttributeValue` on the handle. */
  lemma RelabelledReadsBack(c: Crypto, r: Run, j: nat, k: nat, h: nat)
    requires IsRun(c, r) && j < k < |r.calls| && r.states[k].store.issued <= TWO28
    requires Relabels(r.calls[j], h) && ChangesStore(r.calls[j], r.replies[j])
    requires Reads(r, k, h) && NeverRelabelled(r, j + 1, k, h)
    ensures r.calls[j].template.Some? && r.calls[k].queries.Some?
    ensures var t := r.calls[j].template.value;
            var v := LastFitting(t[..LeadingLabels(t)], CKA_LABEL, LABEL_SIZE - 1);
            v.Some? ==> ReadsAs(r, k, CKA_LABEL, UpToZero(v.value))
  {
    var p := RelabelledIsHeld(c, r, j, h);
    var o := ReadIsAnswer(c, r, k, h);
    var t := r.calls[j].template.value;
    ObjectPersists(c, r, j + 1, k, h, SetAttributes(p, t).0, o);
    SetAttributesReadsBack(p, t);
    AnswersRead(r, k, o, CKA_LABEL);
  }

  /**
   The two-call protocol over a run: asking at `j` and providing buffers of the reported lengths at `k` succeeds and
   copies exactly the values, whatever other calls came in between, if none of them relabelled the object.
   */
  lemma TwoCallsAgree(c: Crypto, r: Run, j: nat, k: nat, h: nat, kinds: seq<nat>) returns (o: Object)
    requires IsRun(c, r) && j < k < |r.calls| && r.states[k].store.issued <= TWO28
    requires Reads(r, j, h) && Reads(r, k, h) && NeverRelabelled(r, j, k, h)
    requires forall i :: 0 <= i < |kinds| ==> Supported(kinds[i])
    requires r.calls[j].queries == Some(Ask(kinds))
    requires r.calls[k].queries.Some? && Provides(r.calls[k].queries.value, r.replies[j].out.entries)
    ensures HoldsObject(r.states[k], h, o) && r.replies[j].rv == OK && r.replies[k].rv == OK
    ensures |r.replies[j].out.entries| == |r.replies[k].out.entries| == |kinds|
    ensures forall i :: 0 <= i < |kinds| ==>
      var asked, e := r.replies[j].out.entries[i], r.replies[k].out.entries[i];
      e.buffer == ValueOf(o, kinds[i]) && e.buffer.Some? && e.len == asked.len == |e.buffer.value|
  {
    var p := ReadIsAnswer(c, r, j, h);
    o := ReadIsAnswer(c, r, k, h);
    RunCounts(c, r, j, k);
    ObjectPersists(c, r, j, k, h, p, o);
    TwoCallProtocol(o, kinds, r.calls[k].queries.value);
    forall i | 0 <= i < |kinds| ensures |ValueOf(o, kinds[i]).value| == r.replies[j].out.entries[i].len {
      assert AnswerAll(o, Ask(kinds))[i] == Answer(o, Ask(kinds)[i]).0;
    }
  }
}
