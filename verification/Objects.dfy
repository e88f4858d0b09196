/**
 Token objects and the two template interpreters: `hsm_parse_template`, which fills an object,
 and `hsm_set_attribute_value` / `hsm_get_attribute_value`, which change and read one.
 */
module Objects {
  import opened Common
  import LE = LittleEndian

  const CKA_CLASS: nat := 0x000
  const CKA_TOKEN: nat := 0x001
  const CKA_PRIVATE: nat := 0x002
  const CKA_LABEL: nat := 0x003
  const CKA_KEY_TYPE: nat := 0x100
  const CKA_ID: nat := 0x102
  const CKA_MODULUS_BITS: nat := 0x121
  const CKA_EC_PARAMS: nat := 0x180

  const CKK_RSA: nat := 0
  const CKK_EC: nat := 3

  const UNAVAILABLE: nat := TWO64 - 1

  const TYPE_DATA: nat := 0
  const TYPE_CERTIFICATE: nat := 1
  const TYPE_PUBLIC_KEY: nat := 2
  const TYPE_PRIVATE_KEY: nat := 3

  const LABEL_SIZE: nat := 256
  const ID_SIZE: nat := 64

  /** A key component; its length is a `size_t`. */
  type Component = b: Bytes | |b| < TWO64 witness []

  type U32 = x: int | 0 <= x < TWO32

  datatype KeyData =
    | Rsa(bits: U32, modulus: Component, publicExponent: Component,
          privateExponent: Component, prime1: Component, prime2: Component,
          exponent1: Component, exponent2: Component, coefficient: Component)
    | Ec(curve: U32, params: Component, point: Component, scalar: Component)

  /** What `calloc` leaves in the key union: the RSA tag and empty components. */
  const NO_KEY: KeyData := Rsa(0, [], [], [], [], [], [], [], [])

  /** `char label[256]`; every writer keeps the last byte zero, so the text is always terminated. */
  type Label = b: Bytes | |b| == LABEL_SIZE && b[LABEL_SIZE - 1] == 0 witness seq(LABEL_SIZE, i => 0)

  type IdBuffer = b: Bytes | |b| == ID_SIZE witness seq(ID_SIZE, i => 0)

  type IdLength = n: nat | n <= ID_SIZE

  datatype Object = Object(
    kind: U32, isToken: bool, isPrivate: bool, isSensitive: bool, isExtractable: bool,
    text: Label, id: IdBuffer, idLen: IdLength, key: KeyData, canSign: bool, canVerify: bool)

  /** A zeroed object of the given type and capabilities, before its template is parsed. */
  function Blank(kind: U32, canSign: bool, canVerify: bool): Object {
    Object(kind, false, false, false, false, Zeros(LABEL_SIZE), Zeros(ID_SIZE), 0, NO_KEY, canSign, canVerify)
  }

  /** Equal in everything but the label, the one attribute a later call may change. */
  predicate SameButLabel(a: Object, b: Object) {
    a.(text := b.text) == b
  }

  datatype AttributeData = Attribute(kind: nat, value: Bytes)

  /** Template entries whose value is at least as long as the code reads through the pointer. */
  type Attribute = a: AttributeData |
      && (a.kind in {CKA_CLASS, CKA_MODULUS_BITS} ==> |a.value| >= 8)
      && (a.kind in {CKA_TOKEN, CKA_PRIVATE} ==> |a.value| >= 1)
    witness Attribute(CKA_LABEL, [])

  type Template = seq<Attribute>

  function ULong(value: Bytes): nat
    requires |value| >= 8
  {
    LE.Decode(value[..8])
  }

  /** `memcpy` of a fitting label and its terminator; an overlong one is ignored. */
  function PutLabel(text: Label, value: Bytes): Label {
    if |value| < LABEL_SIZE then Overlay(value + [0], text) else text
  }

  function ApplyAttribute(o: Object, a: Attribute): (r: Object)
    ensures r.key == o.key && r.canSign == o.canSign && r.canVerify == o.canVerify
    ensures r.isSensitive == o.isSensitive && r.isExtractable == o.isExtractable
  {
    if a.kind == CKA_CLASS then o.(kind := ULong(a.value) % TWO32)
    else if a.kind == CKA_TOKEN then o.(isToken := a.value[0] == 1)
    else if a.kind == CKA_PRIVATE then o.(isPrivate := a.value[0] == 1)
    else if a.kind == CKA_LABEL then o.(text := PutLabel(o.text, a.value))
    else if a.kind == CKA_ID && |a.value| <= ID_SIZE then
      o.(id := Overlay(a.value, o.id), idLen := |a.value|)
    else o
  }

  function ApplyTemplate(o: Object, t: Template): (r: Object)
    ensures r.key == o.key && r.canSign == o.canSign && r.canVerify == o.canVerify
    ensures r.isSensitive == o.isSensitive && r.isExtractable == o.isExtractable
  {
    if |t| == 0 then o else ApplyAttribute(ApplyTemplate(o, t[..|t| - 1]), t[|t| - 1])
  }

  /** `hsm_parse_template`: the flags are reset first, whatever the caller had set. */
  function ParseTemplate(o: Object, t: Template): (r: Object)
    ensures r.isSensitive && !r.isExtractable
    ensures r.key == o.key && r.canSign == o.canSign && r.canVerify == o.canVerify
  {
    ApplyTemplate(o.(isToken := false, isPrivate := true, isSensitive := true, isExtractable := false), t)
  }

  /** `hsm_set_attribute_value`: labels are stored until the first entry of another type. */
  function SetAttributes(o: Object, t: Template): (r: (Object, Rv))
    ensures SameButLabel(o, r.0) && (r.1 == OK || r.1 == AttributeReadOnly)
    decreases |t|
  {
    if |t| == 0 then (o, OK)
    else if t[0].kind == CKA_LABEL then SetAttributes(o.(text := PutLabel(o.text, t[0].value)), t[1..])
    else (o, AttributeReadOnly)
  }

  // ----- reading attributes -----

  /** One entry of a `C_GetAttributeValue` array: the caller's buffer, if any, and `ulValueLen`. */
  datatype Query = Query(kind: nat, buffer: Option<Bytes>, len: nat)

  /** The caller's buffer is as large as the code assumes. */
  predicate Readable(q: Query) {
    q.buffer.Some? ==>
      && (q.kind in {CKA_CLASS, CKA_KEY_TYPE} ==> |q.buffer.value| >= 8)
      && (q.kind in {CKA_TOKEN, CKA_PRIVATE} ==> |q.buffer.value| >= 1)
      && (q.kind in {CKA_LABEL, CKA_ID} ==> |q.buffer.value| >= q.len)
  }

  type ReadableQuery = q: Query | Readable(q) witness Query(0, None, 0)

  function Strlen(b: Bytes): (n: nat)
    ensures n <= |b|
    ensures forall k :: 0 <= k < n ==> b[k] != 0
    ensures n < |b| ==> b[n] == 0
  {
    if |b| == 0 || b[0] == 0 then 0 else 1 + Strlen(b[1..])
  }

  function LabelText(o: Object): Bytes {
    o.text[..Strlen(o.text)]
  }

  function IdText(o: Object): Bytes {
    o.id[..o.idLen]
  }

  function Flag(b: bool): Byte {
    if b then 1 else 0
  }

  /** The value an attribute type reads as, or None for types the code does not support. */
  function ValueOf(o: Object, kind: nat): Option<Bytes> {
    if kind == CKA_CLASS then Some(LE.Encode(o.kind, 8))
    else if kind == CKA_TOKEN then Some([Flag(o.isToken)])
    else if kind == CKA_PRIVATE then Some([Flag(o.isPrivate)])
    else if kind == CKA_LABEL then Some(LabelText(o))
    else if kind == CKA_ID then Some(IdText(o))
    else if kind == CKA_KEY_TYPE then Some(LE.Encode(if o.key.Rsa? then CKK_RSA else CKK_EC, 8))
    else None
  }

  /** One entry after the call, and the code it leaves in `rv` (OK leaves `rv` alone). */
  function Answer(o: Object, q: ReadableQuery): (Query, Rv) {
    var v := ValueOf(o, q.kind);
    if v.None? then (q.(len := UNAVAILABLE), AttributeTypeInvalid)
    else if q.buffer.None? then (q.(len := |v.value|), OK)
    else if q.kind in {CKA_LABEL, CKA_ID} && q.len < |v.value| then (q.(len := |v.value|), BufferTooSmall)
    else (q.(buffer := Some(Overlay(v.value, q.buffer.value)), len := |v.value|), OK)
  }

  function AnswerAll(o: Object, qs: seq<ReadableQuery>): (r: seq<Query>)
    ensures |r| == |qs| && forall i :: 0 <= i < |qs| ==> r[i] == Answer(o, qs[i]).0
  {
    seq(|qs|, i requires 0 <= i < |qs| => Answer(o, qs[i]).0)
  }

  /** The code returned for the whole array: that of the last entry that failed. */
  function AnswerRv(o: Object, qs: seq<ReadableQuery>): (rv: Rv)
    ensures rv == OK <==> forall i :: 0 <= i < |qs| ==> Answer(o, qs[i]).1 == OK
  {
    if |qs| == 0 then OK
    else
      var last := Answer(o, qs[|qs| - 1]).1;
      if last != OK then last else AnswerRv(o, qs[..|qs| - 1])
  }
}
