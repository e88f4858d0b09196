/** What templates write is what attributes read back, through the fixed label and id buffers. */
module Attributes {
  import opened Common
  import opened Objects
  import LE = LittleEndian

  // ----- labels and ids -----

  /** The value of the last entry of a type that is no longer than `limit`, or None. */
  function LastFitting(t: Template, kind: nat, limit: nat): Option<Bytes> {
    if |t| == 0 then None
    else
      var last := t[|t| - 1];
      if last.kind == kind && |last.value| <= limit then Some(last.value) else LastFitting(t[..|t| - 1], kind, limit)
  }

  /** A label reads back up to its first zero byte. */
  function UpToZero(b: Bytes): Bytes {
    b[..Strlen(b)]
  }

  lemma {:induction false} StrlenUnique(b: Bytes, n: nat)
    requires n <= |b| && (forall k :: 0 <= k < n ==> b[k] != 0) && (n < |b| ==> b[n] == 0)
    ensures Strlen(b) == n
  {
    if n != 0 {
      StrlenUnique(b[1..], n - 1);
    }
  }

  /** Writing a fitting label over any earlier one reads back as the label, cut at its first zero byte. */
  lemma PutLabelReadsBack(text: Label, value: Bytes)
    ensures |value| < LABEL_SIZE ==> UpToZero(PutLabel(text, value)) == UpToZero(value)
    ensures |value| >= LABEL_SIZE ==> PutLabel(text, value) == text
  {
    if |value| < LABEL_SIZE {
      var r := PutLabel(text, value);
      assert forall k :: 0 <= k < |value| ==> r[k] == value[k];
      assert r[|value|] == 0;
      StrlenUnique(r, Strlen(value));
    }
  }

  /** It reads back whole exactly when it holds no zero byte. */
  lemma ReadsBackExactlyWhen(value: Bytes)
    ensures UpToZero(value) == value <==> forall k :: 0 <= k < |value| ==> value[k] != 0
  {
    if UpToZero(value) == value {
      assert Strlen(value) == |value|;
    }
  }

  /** What one template entry does to what the label and the id read back as. */
  lemma EntryReadsBack(o: Object, a: Attribute)
    ensures var r := ApplyAttribute(o, a);
            && LabelText(r) == (if a.kind == CKA_LABEL && |a.value| < LABEL_SIZE then UpToZero(a.value)
                                else LabelText(o))
            && IdText(r) == (if a.kind == CKA_ID && |a.value| <= ID_SIZE then a.value else IdText(o))
  {
    PutLabelReadsBack(o.text, a.value);
    if a.kind == CKA_ID && |a.value| <= ID_SIZE {
      assert Overlay(a.value, o.id)[..|a.value|] == a.value;
    }
  }

  lemma {:induction false} ApplyKeepsLast(o: Object, t: Template)
    ensures var r := ApplyTemplate(o, t);
            && LabelText(r) == (match LastFitting(t, CKA_LABEL, LABEL_SIZE - 1)
                                case None => LabelText(o)
                                case Some(v) => UpToZero(v))
            && IdText(r) == (match LastFitting(t, CKA_ID, ID_SIZE) case None => IdText(o) case Some(v) => v)
  {
    if |t| != 0 {
      ApplyKeepsLast(o, t[..|t| - 1]);
      EntryReadsBack(ApplyTemplate(o, t[..|t| - 1]), t[|t| - 1]);
    }
  }

  /** A new object reads back the last fitting label and id of its template; without one, nothing. */
  lemma ParsedTemplateReadsBack(kind: U32, canSign: bool, canVerify: bool, t: Template)
    ensures var r := ParseTemplate(Blank(kind, canSign, canVerify), t);
            && ValueOf(r, CKA_LABEL) == Some(match LastFitting(t, CKA_LABEL, LABEL_SIZE - 1)
                                             case None => [] case Some(v) => UpToZero(v))
            && ValueOf(r, CKA_ID) == Some(match LastFitting(t, CKA_ID, ID_SIZE) case None => [] case Some(v) => v)
  {
    var b := Blank(kind, canSign, canVerify);
    var o := b.(isToken := false, isPrivate := true, isSensitive := true, isExtractable := false);
    ApplyKeepsLast(o, t);
    StrlenUnique(o.text, 0);
  }

  // ----- class, token and private -----

  /** Entry `i` is the last of its type. */
  ghost predicate LastEntry(t: Template, kind: nat, i: nat) {
    i < |t| && t[i].kind == kind && forall k :: i < k < |t| ==> t[k].kind != kind
  }

  ghost predicate Mentions(t: Template, kind: nat) {
    exists i :: 0 <= i < |t| && t[i].kind == kind
  }

  /** The last entry that speaks of the token says yes. */
  ghost predicate AsksToken(t: Template) {
    exists i: nat :: LastEntry(t, CKA_TOKEN, i) && t[i].value[0] == 1
  }

  /** The last entry that speaks of privacy says yes, or none speaks of it. */
  ghost predicate AsksPrivate(t: Template) {
    Mentions(t, CKA_PRIVATE) ==> exists i: nat :: LastEntry(t, CKA_PRIVATE, i) && t[i].value[0] == 1
  }

  /** The number in the low four bytes of a value. */
  function LowWord(v: Bytes): nat
    requires |v| >= 4
  {
    v[0] as int + 0x100 * (v[1] as int) + 0x1_0000 * (v[2] as int) + 0x100_0000 * (v[3] as int)
  }

  /** The class is that of the last entry that gives one, or else `given`. */
  ghost predicate AsksClass(t: Template, given: nat, kind: nat) {
    if Mentions(t, CKA_CLASS) then exists i: nat :: LastEntry(t, CKA_CLASS, i) && kind == LowWord(t[i].value)
    else kind == given
  }

  /** The object is what its template says, `given` being its class without one. */
  ghost predicate AsTemplateSays(t: Template, given: nat, o: Object) {
    (o.isToken <==> AsksToken(t)) && (o.isPrivate <==> AsksPrivate(t)) && AsksClass(t, given, o.kind)
  }

  /** The same of a template that is applied to `was`. */
  ghost predicate AppliedSays(t: Template, was: Object, o: Object) {
    && (o.isToken <==> if Mentions(t, CKA_TOKEN) then AsksToken(t) else was.isToken)
    && (o.isPrivate <==> if Mentions(t, CKA_PRIVATE) then AsksPrivate(t) else was.isPrivate)
    && AsksClass(t, was.kind, o.kind)
  }

  lemma LowWordIs(v: Bytes)
    requires |v| >= 8
    ensures ULong(v) % TWO32 == LowWord(v)
  {
    var b := v[..8];
    LE.DecodeFour(b);
    assert LE.Decode(b) == LowWord(v) + TWO32 * LE.Decode(b[4..]);
  }

  /** One more entry at the end is the last of its type, and the last of no other. */
  lemma LastOfMore(t: Template, a: Attribute, kind: nat)
    ensures a.kind == kind ==> LastEntry(t + [a], kind, |t|)
    ensures a.kind == kind ==> forall i: nat :: LastEntry(t + [a], kind, i) ==> i == |t|
    ensures a.kind != kind ==> forall i: nat :: LastEntry(t + [a], kind, i) <==> LastEntry(t, kind, i)
    ensures Mentions(t + [a], kind) <==> a.kind == kind || Mentions(t, kind)
  {
    assert (t + [a])[|t|] == a;
    assert forall i :: 0 <= i < |t| ==> (t + [a])[i] == t[i];
    if a.kind != kind {
      forall i: nat | LastEntry(t, kind, i) ensures LastEntry(t + [a], kind, i) {
      }
    }
  }

  lemma TokenOfMore(t: Template, a: Attribute)
    ensures AsksToken(t + [a]) <==> if a.kind == CKA_TOKEN then a.value[0] == 1 else AsksToken(t)
  {
    LastOfMore(t, a, CKA_TOKEN);
  }

  lemma PrivateOfMore(t: Template, a: Attribute)
    ensures AsksPrivate(t + [a]) <==> if a.kind == CKA_PRIVATE then a.value[0] == 1 else AsksPrivate(t)
  {
    LastOfMore(t, a, CKA_PRIVATE);
  }

  lemma ClassOfMore(t: Template, a: Attribute, given: nat, kind: nat)
    ensures AsksClass(t + [a], given, kind) <==>
      if a.kind == CKA_CLASS then kind == LowWord(a.value) else AsksClass(t, given, kind)
  {
    LastOfMore(t, a, CKA_CLASS);
  }

  /** What one entry does to the class and the two flags. */
  lemma EntryFields(o: Object, a: Attribute)
    ensures var r := ApplyAttribute(o, a);
            && r.isToken == (if a.kind == CKA_TOKEN then a.value[0] == 1 else o.isToken)
            && r.isPrivate == (if a.kind == CKA_PRIVATE then a.value[0] == 1 else o.isPrivate)
            && r.kind == (if a.kind == CKA_CLASS then LowWord(a.value) else o.kind)
  {
    if a.kind == CKA_CLASS {
      LowWordIs(a.value);
    }
  }

  lemma EntrySays(t: Template, a: Attribute, was: Object, o: Object)
    requires AppliedSays(t, was, o)
    ensures AppliedSays(t + [a], was, ApplyAttribute(o, a))
  {
    EntryFields(o, a);
    MoreSays(t, a, was, o, ApplyAttribute(o, a));
  }

  lemma MoreSays(t: Template, a: Attribute, was: Object, o: Object, r: Object)
    requires AppliedSays(t, was, o)
    requires r.isToken == if a.kind == CKA_TOKEN then a.value[0] == 1 else o.isToken
    requires r.isPrivate == if a.kind == CKA_PRIVATE then a.value[0] == 1 else o.isPrivate
    requires r.kind == if a.kind == CKA_CLASS then LowWord(a.value) else o.kind
    ensures AppliedSays(t + [a], was, r)
  {
    TokenOfMore(t, a);
    PrivateOfMore(t, a);
    ClassOfMore(t, a, was.kind, r.kind);
    LastOfMore(t, a, CKA_TOKEN);
    LastOfMore(t, a, CKA_PRIVATE);
  }

  lemma {:induction false} ApplySays(o: Object, t: Template)
    ensures AppliedSays(t, o, ApplyTemplate(o, t))
  {
    if |t| != 0 {
      var n := |t| - 1;
      ApplySays(o, t[..n]);
      assert t[..n] + [t[n]] == t;
      EntrySays(t[..n], t[n], o, ApplyTemplate(o, t[..n]));
    }
  }

  /**
   A new object is what its template says: a token object exactly when the last entry about it says so, private unless
   the last entry about it denies it, of the class the last entry gives. It may sign and verify as its maker said, is
   sensitive and not extractable, and has no key yet.
   */
  lemma ParsedAsTemplateSays(kind: U32, canSign: bool, canVerify: bool, t: Template)
    ensures var r := ParseTemplate(Blank(kind, canSign, canVerify), t);
            && AsTemplateSays(t, kind, r) && r.canSign == canSign && r.canVerify == canVerify
            && r.isSensitive && !r.isExtractable && r.key == NO_KEY
  {
    var b := Blank(kind, canSign, canVerify);
    ApplySays(b.(isToken := false, isPrivate := true, isSensitive := true, isExtractable := false), t);
  }

  /** The bytes of the attributes, written out. */
  lemma AttributeBytes(o: Object)
    ensures ValueOf(o, CKA_TOKEN) == Some([if o.isToken then 1 else 0])
    ensures ValueOf(o, CKA_PRIVATE) == Some([if o.isPrivate then 1 else 0])
    ensures ValueOf(o, CKA_CLASS) ==
      Some([o.kind % 256, o.kind / 0x100 % 256, o.kind / 0x1_0000 % 256, o.kind / 0x100_0000 % 256, 0, 0, 0, 0])
    ensures ValueOf(o, CKA_KEY_TYPE) == Some([if o.key.Rsa? then 0 else 3, 0, 0, 0, 0, 0, 0, 0])
  {
    LE.EncodeWord(o.kind);
    LE.EncodeWord(if o.key.Rsa? then CKK_RSA else CKK_EC);
  }

  /** So a class reads back as the bytes the template gave it. */
  lemma ClassReadsBack(v: Bytes, o: Object)
    requires |v| >= 4 && o.kind == LowWord(v)
    ensures ValueOf(o, CKA_CLASS) == Some([v[0], v[1], v[2], v[3], 0, 0, 0, 0])
  {
    AttributeBytes(o);
    LE.WordBytes(v[0], v[1], v[2], v[3]);
  }

  /** The number of leading label entries of a template. */
  function LeadingLabels(t: Template): (n: nat)
    ensures n <= |t|
  {
    if |t| == 0 || t[0].kind != CKA_LABEL then 0 else 1 + LeadingLabels(t[1..])
  }

  lemma {:induction false} LastFittingCons(a: Attribute, t: Template, kind: nat, limit: nat)
    ensures LastFitting([a] + t, kind, limit)
            == match LastFitting(t, kind, limit)
               case Some(v) => Some(v)
               case None => if a.kind == kind && |a.value| <= limit then Some(a.value) else None
  {
    if |t| == 0 {
      assert ([a] + t)[..0] == [];
    } else {
      LastFittingCons(a, t[..|t| - 1], kind, limit);
      assert ([a] + t)[..|t|] == [a] + t[..|t| - 1];
    }
  }

  /**
   Setting attributes keeps the labels in front of the first entry of another type, even when that entry makes
   the call fail; it succeeds exactly when every entry is a label, overlong ones included.
   */
  lemma {:induction false} SetAttributesReadsBack(o: Object, t: Template)
    ensures var (r, rv) := SetAttributes(o, t);
            && LabelText(r) == (match LastFitting(t[..LeadingLabels(t)], CKA_LABEL, LABEL_SIZE - 1)
                                case None => LabelText(o) case Some(v) => UpToZero(v))
            && (rv == OK <==> LeadingLabels(t) == |t|) && (rv != OK ==> rv == AttributeReadOnly)
    decreases |t|
  {
    if |t| != 0 && t[0].kind == CKA_LABEL {
      var p := o.(text := PutLabel(o.text, t[0].value));
      PutLabelReadsBack(o.text, t[0].value);
      SetAttributesReadsBack(p, t[1..]);
      var n := LeadingLabels(t[1..]);
      assert t[..n + 1] == [t[0]] + t[1..][..n];
      LastFittingCons(t[0], t[1..][..n], CKA_LABEL, LABEL_SIZE - 1);
    }
  }

  // ----- reading an array of attributes -----

  predicate Supported(kind: nat) {
    kind in {CKA_CLASS, CKA_TOKEN, CKA_PRIVATE, CKA_LABEL, CKA_ID, CKA_KEY_TYPE}
  }

  /** An entry succeeds exactly when its type is supported and, for labels and ids only, its buffer is long enough. */
  lemma AnswerSucceedsExactlyWhen(o: Object, q: ReadableQuery)
    ensures Answer(o, q).1 == OK <==>
      && Supported(q.kind)
      && (q.buffer.Some? && q.kind in {CKA_LABEL, CKA_ID} ==> q.len >= |ValueOf(o, q.kind).value|)
    ensures Answer(o, q).1 == OK && q.buffer.Some? ==>
      var r := Answer(o, q).0;
      && r.len == |ValueOf(o, q.kind).value| <= |r.buffer.value|
      && r.buffer.value[..r.len] == ValueOf(o, q.kind).value
      && r.buffer.value[r.len..] == q.buffer.value[r.len..]
  {
    if Answer(o, q).1 == OK && q.buffer.Some? {
      var v := ValueOf(o, q.kind).value;
      assert Overlay(v, q.buffer.value)[..|v|] == v;
      assert Overlay(v, q.buffer.value)[|v|..] == q.buffer.value[|v|..];
    }
  }

  /**
   An entry that fails leaves its buffer alone: an unsupported type is marked unavailable, and for a buffer that is too
   short the length needed is reported. Without a buffer the length is all there is to report.
   */
  lemma FailedEntryReports(o: Object, q: ReadableQuery)
    ensures var (r, code) := Answer(o, q);
            && r.kind == q.kind
            && (!Supported(q.kind) ==> code == AttributeTypeInvalid && r == q.(len := 0xffff_ffff_ffff_ffff))
            && (Supported(q.kind) && code != OK ==> code == BufferTooSmall && q.len < r.len && r == q.(len := r.len))
            && (Supported(q.kind) ==> r.len == |ValueOf(o, q.kind).value|)
            && (q.buffer.None? ==> r.buffer.None? && (Supported(q.kind) ==> code == OK))
  {
  }

  /** Entry `i` is the last that fails, and its code is the one returned. */
  ghost predicate LastFailure(o: Object, qs: seq<ReadableQuery>, i: nat) {
    && i < |qs| && Answer(o, qs[i]).1 == AnswerRv(o, qs)
    && forall j :: i < j < |qs| ==> Answer(o, qs[j]).1 == OK
  }

  /** The code returned is that of the last entry that failed; the entries after it all succeeded. */
  lemma {:induction false} LastFailureIsReturned(o: Object, qs: seq<ReadableQuery>) returns (i: nat)
    requires AnswerRv(o, qs) != OK
    ensures LastFailure(o, qs, i)
  {
    var n := |qs| - 1;
    if Answer(o, qs[n]).1 != OK {
      i := n;
    } else {
      i := LastFailureIsReturned(o, qs[..n]);
    }
  }

  /** The first call of the two-call protocol: types and null pointers. */
  function Ask(kinds: seq<nat>): (r: seq<ReadableQuery>)
    ensures |r| == |kinds| && forall i :: 0 <= i < |r| ==> r[i] == Query(kinds[i], None, 0)
  {
    seq(|kinds|, i requires 0 <= i < |kinds| => Query(kinds[i], None, 0))
  }

  /** The second call: the same types, each with a buffer of the length the first call reported. */
  ghost predicate Provides(second: seq<Query>, first: seq<Query>) {
    |second| == |first| && forall i :: 0 <= i < |second| ==>
      second[i].kind == first[i].kind && second[i].len == first[i].len &&
      second[i].buffer.Some? && |second[i].buffer.value| == second[i].len
  }

  lemma ReportedLengthSuffices(o: Object, kind: nat, q: Query)
    requires Supported(kind)
    requires q.kind == kind && q.len == Answer(o, Query(kind, None, 0)).0.len
    requires q.buffer.Some? && |q.buffer.value| == q.len
    ensures Readable(q)
    ensures Answer(o, q) == (q.(buffer := ValueOf(o, kind)), OK)
  {
    var v := ValueOf(o, kind).value;
    assert |v| == q.len;
    assert Overlay(v, q.buffer.value) == v;
  }

  /**
   The two-call length protocol (sections 5.2 and 5.7 of PKCS#11 v2.40): for any array of supported attributes,
   asking with null pointers and then providing buffers of the reported lengths succeeds and copies exactly the values.
   */
  lemma TwoCallProtocol(o: Object, kinds: seq<nat>, second: seq<Query>)
    requires forall i :: 0 <= i < |kinds| ==> Supported(kinds[i])
    requires Provides(second, AnswerAll(o, Ask(kinds)))
    ensures AnswerRv(o, Ask(kinds)) == OK
    ensures forall i :: 0 <= i < |second| ==> Readable(second[i])
    ensures AnswerRv(o, second) == OK
    ensures forall i :: 0 <= i < |second| ==> AnswerAll(o, second)[i] == second[i].(buffer := ValueOf(o, kinds[i]))
  {
    forall i | 0 <= i < |second|
      ensures Readable(second[i]) && Answer(o, second[i]) == (second[i].(buffer := ValueOf(o, kinds[i])), OK)
    {
      assert AnswerAll(o, Ask(kinds))[i] == Answer(o, Ask(kinds)[i]).0;
      ReportedLengthSuffices(o, kinds[i], second[i]);
    }
  }
}
