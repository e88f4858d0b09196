/**
 The two on-disk formats: the token file and the key files. A saved file is the concatenation of
 the chunks that the save functions write, in order; the load functions read fixed-width chunks back.
 */
module Storage {
  import opened Common
  import opened Objects
  import LE = LittleEndian

  /** The six token fields that are persisted. */
  datatype TokenInfo = TokenInfo(
    initialized: bool, userPinSet: bool, soPinSet: bool, name: Block, userHash: Block, soHash: Block)

  const BLANK_TOKEN: TokenInfo := TokenInfo(false, false, false, Zeros(32), Zeros(32), Zeros(32))

  /** The ten metadata fields a key file starts with; `keyType` is 0 for RSA and 1 for EC. */
  datatype Metadata = Metadata(
    handle: nat, kind: nat, isToken: bool, isPrivate: bool, isSensitive: bool, isExtractable: bool,
    text: Bytes, id: Bytes, idLen: nat, keyType: nat)

  function Concat(chunks: seq<Bytes>): Bytes {
    if |chunks| == 0 then [] else Concat(chunks[..|chunks| - 1]) + chunks[|chunks| - 1]
  }

  // ----- writing -----

  function TokenChunks(t: TokenInfo): seq<Bytes> {
    [[Flag(t.initialized)], [Flag(t.userPinSet)], [Flag(t.soPinSet)], t.name, t.userHash, t.soHash]
  }

  function EncodeToken(t: TokenInfo): Bytes {
    Concat(TokenChunks(t))
  }

  function KeyType(k: KeyData): nat {
    if k.Rsa? then 0 else 1
  }

  function MetadataOf(handle: nat, o: Object): Metadata {
    Metadata(handle, o.kind, o.isToken, o.isPrivate, o.isSensitive, o.isExtractable,
             o.text, o.id, o.idLen, KeyType(o.key))
  }

  function MetadataChunks(m: Metadata): seq<Bytes> {
    [LE.Encode(m.handle, 8), LE.Encode(m.kind, 4),
     [Flag(m.isToken)], [Flag(m.isPrivate)], [Flag(m.isSensitive)], [Flag(m.isExtractable)],
     m.text, m.id, LE.Encode(m.idLen, 8), LE.Encode(m.keyType, 4)]
  }

  /** The four-byte head of the key section: the RSA size or the curve. */
  function KeyHead(k: KeyData): U32 {
    if k.Rsa? then k.bits else k.curve
  }

  /** The components saved for a key: the private ones only in private-key objects. */
  function Components(k: KeyData, isPrivateKey: bool): seq<Component> {
    match k
    case Rsa(_, n, e, d, p, q, dp, dq, qi) =>
      if isPrivateKey then [n, e, d, p, q, dp, dq, qi] else [n, e]
    case Ec(_, params, point, scalar) =>
      if isPrivateKey then [params, point, scalar] else [params, point]
  }

  function EncodeComponent(c: Component): (r: Bytes)
    ensures |r| >= 8 && r[..8] == LE.Encode(|c|, 8) && r[8..] == c
  {
    LE.Encode(|c|, 8) + c
  }

  function EncodeComponents(cs: seq<Component>): Bytes {
    if |cs| == 0 then [] else EncodeComponents(cs[..|cs| - 1]) + EncodeComponent(cs[|cs| - 1])
  }

  function EncodeKey(o: Object): Bytes {
    LE.Encode(KeyHead(o.key), 4) + EncodeComponents(Components(o.key, o.kind == TYPE_PRIVATE_KEY))
  }

  /** The contents of the key file `hsm_storage_save_object` leaves. */
  function EncodeObject(handle: nat, o: Object): Bytes {
    Concat(MetadataChunks(MetadataOf(handle, o))) + EncodeKey(o)
  }

  // ----- reading -----

  /** Where `fread`s of the given widths leave the file position. */
  function Reached(b: Bytes, widths: seq<nat>): (p: nat)
    ensures p <= |b|
  {
    if |widths| == 0 then 0 else Min(Reached(b, widths[..|widths| - 1]) + widths[|widths| - 1], |b|)
  }

  /** What successive `fread`s of the given widths return; at end of file a read comes up short. */
  function Split(b: Bytes, widths: seq<nat>): (r: seq<Bytes>)
    ensures |r| == |widths|
    ensures forall i :: 0 <= i < |r| ==> |r[i]| <= widths[i]
  {
    if |widths| == 0 then []
    else
      var n := |widths| - 1;
      Split(b, widths[..n]) + [b[Reached(b, widths[..n])..Reached(b, widths)]]
  }

  const TOKEN_WIDTHS: seq<nat> := [1, 1, 1, 32, 32, 32]

  const METADATA_WIDTHS: seq<nat> := [8, 4, 1, 1, 1, 1, LABEL_SIZE, ID_SIZE, 8, 4]

  function ReadFlag(chunk: Bytes, was: bool): bool {
    if |chunk| == 0 then was else chunk[0] != 0
  }

  function ReadNumber(chunk: Bytes, was: nat, width: nat): nat
    requires |chunk| <= width
  {
    LE.Decode(Overlay(chunk, LE.Encode(was, width)))
  }

  /** `hsm_storage_load_token_info` on an open file; a field the file does not reach keeps its value. */
  function DecodeToken(b: Bytes, was: TokenInfo): TokenInfo {
    var c := Split(b, TOKEN_WIDTHS);
    TokenInfo(ReadFlag(c[0], was.initialized), ReadFlag(c[1], was.userPinSet), ReadFlag(c[2], was.soPinSet),
              Overlay(c[3], was.name), Overlay(c[4], was.userHash), Overlay(c[5], was.soHash))
  }

  /** A missing token file leaves the slot as it was. */
  function LoadToken(file: Option<Bytes>, was: TokenInfo): TokenInfo {
    if file.None? then was else DecodeToken(file.value, was)
  }

  /** Chunks no longer than the metadata fields they are read into. */
  ghost predicate MetadataShaped(c: seq<Bytes>) {
    |c| == |METADATA_WIDTHS| && forall i :: 0 <= i < |c| ==> |c[i]| <= METADATA_WIDTHS[i]
  }

  ghost function MetadataFrom(c: seq<Bytes>, was: Metadata): Metadata
    requires MetadataShaped(c) && |was.text| == LABEL_SIZE && |was.id| == ID_SIZE
  {
    Metadata(ReadNumber(c[0], was.handle, 8), ReadNumber(c[1], was.kind, 4),
             ReadFlag(c[2], was.isToken), ReadFlag(c[3], was.isPrivate),
             ReadFlag(c[4], was.isSensitive), ReadFlag(c[5], was.isExtractable),
             Overlay(c[6], was.text), Overlay(c[7], was.id),
             ReadNumber(c[8], was.idLen, 8), ReadNumber(c[9], was.keyType, 4))
  }

  /** What `hsm_storage_load_object` reads: the metadata, and nothing of the key section. */
  ghost function DecodeMetadata(b: Bytes, was: Metadata): Metadata
    requires |was.text| == LABEL_SIZE && |was.id| == ID_SIZE
  {
    MetadataFrom(Split(b, METADATA_WIDTHS), was)
  }

  // ----- round trips -----

  lemma ConcatSnoc(chunks: seq<Bytes>, c: Bytes)
    ensures Concat(chunks + [c]) == Concat(chunks) + c
  {
    assert (chunks + [c])[..|chunks|] == chunks;
  }

  /** Reading back with the widths that were written returns the chunks, whatever follows them. */
  lemma {:induction false} SplitConcat(chunks: seq<Bytes>, widths: seq<nat>, rest: Bytes)
    requires |chunks| == |widths|
    requires forall i :: 0 <= i < |chunks| ==> |chunks[i]| == widths[i]
    ensures Split(Concat(chunks) + rest, widths) == chunks
    ensures Reached(Concat(chunks) + rest, widths) == |Concat(chunks)|
    decreases |chunks|
  {
    if |chunks| != 0 {
      var n := |chunks| - 1;
      var front, last := chunks[..n], chunks[n];
      assert Concat(chunks) + rest == Concat(front) + (last + rest);
      SplitConcat(front, widths[..n], last + rest);
      assert (Concat(front) + (last + rest))[|Concat(front)|..|Concat(front)| + |last|] == last;
    }
  }

  /** Loading a saved token file restores all six fields, over any earlier contents of the slot. */
  lemma TokenRoundTrip(t: TokenInfo, was: TokenInfo)
    ensures DecodeToken(EncodeToken(t), was) == t
  {
    assert EncodeToken(t) + [] == EncodeToken(t);
    SplitConcat(TokenChunks(t), TOKEN_WIDTHS, []);
    WholeOverlay(t.name, was.name);
    WholeOverlay(t.userHash, was.userHash);
    WholeOverlay(t.soHash, was.soHash);
  }

  lemma WholeOverlay(src: Bytes, buffer: Bytes)
    requires |src| == |buffer|
    ensures Overlay(src, buffer) == src
  {
  }

  lemma FieldReadsBack(v: nat, was: nat, width: nat)
    requires v < LE.Pow256(width)
    ensures ReadNumber(LE.Encode(v, width), was, width) == v
  {
    WholeOverlay(LE.Encode(v, width), LE.Encode(was, width));
    LE.DecodeEncode(v, width);
  }

  /** Metadata that fits the field widths, as that of every object does. */
  predicate Fits(m: Metadata) {
    && m.handle < TWO64 && m.kind < TWO32 && m.idLen < TWO64 && m.keyType < TWO32
    && |m.text| == LABEL_SIZE && |m.id| == ID_SIZE
  }

  /** The loader recovers all ten fields of any saved file, over any earlier contents of the object. */
  lemma MetadataRoundTrip(m: Metadata, was: Metadata, rest: Bytes)
    requires Fits(m) && |was.text| == LABEL_SIZE && |was.id| == ID_SIZE
    ensures DecodeMetadata(Concat(MetadataChunks(m)) + rest, was) == m
  {
    LE.Widths();
    SplitConcat(MetadataChunks(m), METADATA_WIDTHS, rest);
    ChunksToMetadata(m, was);
  }

  lemma ChunksToMetadata(m: Metadata, was: Metadata)
    requires Fits(m) && |was.text| == LABEL_SIZE && |was.id| == ID_SIZE
    requires MetadataShaped(MetadataChunks(m))
    ensures MetadataFrom(MetadataChunks(m), was) == m
  {
    LE.Widths();
    FieldReadsBack(m.handle, was.handle, 8);
    FieldReadsBack(m.kind, was.kind, 4);
    FieldReadsBack(m.idLen, was.idLen, 8);
    FieldReadsBack(m.keyType, was.keyType, 4);
    WholeOverlay(m.text, was.text);
    WholeOverlay(m.id, was.id);
  }

  // ----- the bytes -----

  /** The token file, byte by byte. */
  lemma TokenLayout(t: TokenInfo)
    ensures EncodeToken(t) ==
      [Flag(t.initialized), Flag(t.userPinSet), Flag(t.soPinSet)] + t.name + t.userHash + t.soHash
    ensures |EncodeToken(t)| == 99
  {
    var c := TokenChunks(t);
    assert c[..6] == c;
    assert c[..6][..5] == c[..5] && c[..5][..4] == c[..4] && c[..4][..3] == c[..3];
    assert c[..3][..2] == c[..2] && c[..2][..1] == c[..1];
    assert Concat(c[..1]) == c[0];
    assert Concat(c[..2]) == c[0] + c[1];
    assert Concat(c[..3]) == c[0] + c[1] + c[2];
    assert c[0] + c[1] + c[2] == [Flag(t.initialized), Flag(t.userPinSet), Flag(t.soPinSet)];
    assert Concat(c[..4]) == Concat(c[..3]) + t.name;
    assert Concat(c[..5]) == Concat(c[..4]) + t.userHash;
  }

  /** The metadata of a key file: handle, class, four flags, label, id with its length, and key type. */
  lemma MetadataLayout(m: Metadata)
    ensures Concat(MetadataChunks(m)) ==
      LE.Encode(m.handle, 8) + LE.Encode(m.kind, 4) +
      [Flag(m.isToken), Flag(m.isPrivate), Flag(m.isSensitive), Flag(m.isExtractable)] +
      m.text + m.id + LE.Encode(m.idLen, 8) + LE.Encode(m.keyType, 4)
  {
    var c := MetadataChunks(m);
    var front := c[..6];
    FlagsLayout(m);
    assert c[..10] == c;
    assert c[..10][..9] == c[..9] && c[..9][..8] == c[..8] && c[..8][..7] == c[..7] && c[..7][..6] == front;
    assert Concat(c[..7]) == Concat(front) + m.text;
    assert Concat(c[..8]) == Concat(c[..7]) + m.id;
    assert Concat(c[..9]) == Concat(c[..8]) + LE.Encode(m.idLen, 8);
  }

  lemma FlagsLayout(m: Metadata)
    ensures Concat(MetadataChunks(m)[..6]) ==
      LE.Encode(m.handle, 8) + LE.Encode(m.kind, 4) +
      [Flag(m.isToken), Flag(m.isPrivate), Flag(m.isSensitive), Flag(m.isExtractable)]
  {
    var c := MetadataChunks(m);
    assert c[..6][..5] == c[..5] && c[..5][..4] == c[..4] && c[..4][..3] == c[..3];
    assert c[..3][..2] == c[..2] && c[..2][..1] == c[..1];
    assert Concat(c[..1]) == c[0];
    assert Concat(c[..2]) == c[0] + c[1];
    assert Concat(c[..3]) == Concat(c[..2]) + c[2];
    assert Concat(c[..4]) == Concat(c[..3]) + c[3];
    assert Concat(c[..5]) == Concat(c[..4]) + c[4];
  }

  /** A component in a key file: its length in eight bytes, then the component. */
  function Sized(c: Component): Bytes {
    LE.Encode(|c|, 8) + c
  }

  lemma {:induction false} ComponentsLayout(front: seq<Component>, c: Component)
    ensures EncodeComponents(front + [c]) == EncodeComponents(front) + Sized(c)
  {
    assert (front + [c])[..|front|] == front;
  }

  lemma TwoComponents(a: Component, b: Component)
    ensures EncodeComponents([a, b]) == Sized(a) + Sized(b)
  {
    ComponentsLayout([a], b);
    assert EncodeComponents([a]) == Sized(a);
    assert [a] + [b] == [a, b];
  }

  lemma EightComponents(a: Component, b: Component, c: Component, d: Component,
                        e: Component, f: Component, g: Component, h: Component)
    ensures EncodeComponents([a, b, c, d, e, f, g, h]) ==
      Sized(a) + Sized(b) + Sized(c) + Sized(d) + Sized(e) + Sized(f) + Sized(g) + Sized(h)
  {
    TwoComponents(a, b);
    ComponentsLayout([a, b], c);
    ComponentsLayout([a, b, c], d);
    ComponentsLayout([a, b, c, d], e);
    ComponentsLayout([a, b, c, d, e], f);
    ComponentsLayout([a, b, c, d, e, f], g);
    ComponentsLayout([a, b, c, d, e, f, g], h);
    assert [a, b] + [c] == [a, b, c] && [a, b, c] + [d] == [a, b, c, d];
    assert [a, b, c, d] + [e] == [a, b, c, d, e] && [a, b, c, d, e] + [f] == [a, b, c, d, e, f];
    assert [a, b, c, d, e, f] + [g] == [a, b, c, d, e, f, g];
    assert [a, b, c, d, e, f, g] + [h] == [a, b, c, d, e, f, g, h];
  }

  /**
   The key section: the size or the curve, then the public components, and in a private key's file the private ones,
   each after its length.
   */
  lemma KeyLayout(o: Object)
    ensures var private := o.kind == TYPE_PRIVATE_KEY;
            match o.key
            case Rsa(bits, n, e, d, p, q, dp, dq, qi) =>
              EncodeKey(o) == LE.Encode(bits, 4) + (Sized(n) + Sized(e) +
                if private then Sized(d) + Sized(p) + Sized(q) + Sized(dp) + Sized(dq) + Sized(qi) else [])
            case Ec(curve, params, point, scalar) =>
              EncodeKey(o) == LE.Encode(curve, 4) + (Sized(params) + Sized(point) +
                if private then Sized(scalar) else [])
  {
    match o.key {
      case Rsa(bits, n, e, d, p, q, dp, dq, qi) =>
        TwoComponents(n, e);
        EightComponents(n, e, d, p, q, dp, dq, qi);
      case Ec(curve, params, point, scalar) =>
        TwoComponents(params, point);
        ComponentsLayout([params, point], scalar);
        assert [params, point] + [scalar] == [params, point, scalar];
    }
  }

  // ----- unambiguity -----

  /** The components of two key sections that agree on their bytes agree, and end at the same place. */
  lemma {:induction false} ComponentsUnique(cs: seq<Component>, ds: seq<Component>, x: Bytes, y: Bytes)
    requires |cs| == |ds| && EncodeComponents(cs) + x == EncodeComponents(ds) + y
    ensures cs == ds && x == y
  {
    if |cs| == 0 {
      assert EncodeComponents(cs) + x == x && EncodeComponents(ds) + y == y;
    } else {
      var n := |cs| - 1;
      var a, b := EncodeComponent(cs[n]) + x, EncodeComponent(ds[n]) + y;
      assert EncodeComponents(cs) + x == EncodeComponents(cs[..n]) + a;
      assert EncodeComponents(ds) + y == EncodeComponents(ds[..n]) + b;
      ComponentsUnique(cs[..n], ds[..n], a, b);
      ComponentUnique(cs[n], ds[n], x, y);
    }
  }

  lemma ComponentUnique(c: Component, d: Component, x: Bytes, y: Bytes)
    requires EncodeComponent(c) + x == EncodeComponent(d) + y
    ensures c == d && x == y
  {
    LE.Widths();
    LE.DecodeEncode(|c|, 8);
    LE.DecodeEncode(|d|, 8);
    var a, b := EncodeComponent(c) + x, EncodeComponent(d) + y;
    assert a[..8] == LE.Encode(|c|, 8) && b[..8] == LE.Encode(|d|, 8);
    assert a[8..] == c + x && b[8..] == d + y;
    CutEqual(c, d, x, y);
  }

  lemma CutEqual(c: Bytes, d: Bytes, x: Bytes, y: Bytes)
    requires |c| == |d| && c + x == d + y
    ensures c == d && x == y
  {
    assert c == (c + x)[..|c|] && d == (d + y)[..|d|];
    assert x == (c + x)[|c|..] && y == (d + y)[|d|..];
  }

  /** The key as far as a key file keeps it: without its private part unless the object is a private key. */
  function SavedKey(o: Object): KeyData {
    if o.kind == TYPE_PRIVATE_KEY then o.key
    else match o.key
      case Rsa(bits, n, e, _, _, _, _, _, _) => Rsa(bits, n, e, [], [], [], [], [], [])
      case Ec(curve, params, point, _) => Ec(curve, params, point, [])
  }

  predicate SameSaved(h: nat, o: Object, g: nat, p: Object) {
    MetadataOf(h, o) == MetadataOf(g, p) && SavedKey(o) == SavedKey(p)
  }

  /**
   If a saved file, followed by anything, equals another followed by anything, the two objects agree on
   every persisted field and the files end at the same byte.
   */
  lemma FormatUnambiguous(h: nat, o: Object, x: Bytes, g: nat, p: Object, y: Bytes)
    requires h < TWO64 && g < TWO64
    requires EncodeObject(h, o) + x == EncodeObject(g, p) + y
    ensures SameSaved(h, o, g, p) && x == y
  {
    var m, n := MetadataOf(h, o), MetadataOf(g, p);
    var a, b := Concat(MetadataChunks(m)), Concat(MetadataChunks(n));
    assert EncodeObject(h, o) + x == a + (EncodeKey(o) + x);
    assert EncodeObject(g, p) + y == b + (EncodeKey(p) + y);
    MetadataRoundTrip(m, m, EncodeKey(o) + x);
    MetadataRoundTrip(n, m, EncodeKey(p) + y);
    assert m == n;
    CutEqual(a, b, EncodeKey(o) + x, EncodeKey(p) + y);
    KeyUnambiguous(o, x, p, y);
  }

  lemma KeyUnambiguous(o: Object, x: Bytes, p: Object, y: Bytes)
    requires o.kind == p.kind && o.key.Rsa? == p.key.Rsa?
    requires EncodeKey(o) + x == EncodeKey(p) + y
    ensures SavedKey(o) == SavedKey(p) && x == y
  {
    var private := o.kind == TYPE_PRIVATE_KEY;
    var cs, ds := Components(o.key, private), Components(p.key, private);
    var u, v := LE.Encode(KeyHead(o.key), 4), LE.Encode(KeyHead(p.key), 4);
    assert EncodeKey(o) + x == u + (EncodeComponents(cs) + x);
    assert EncodeKey(p) + y == v + (EncodeComponents(ds) + y);
    CutEqual(u, v, EncodeComponents(cs) + x, EncodeComponents(ds) + y);
    LE.Widths();
    LE.DecodeEncode(KeyHead(o.key), 4);
    LE.DecodeEncode(KeyHead(p.key), 4);
    ComponentsUnique(cs, ds, x, y);
    assert forall i :: 0 <= i < |cs| ==> cs[i] == ds[i];
  }

  /** Two saved files are equal exactly when the objects agree on every persisted field. */
  lemma SameFileIffSameSaved(h: nat, o: Object, g: nat, p: Object)
    requires h < TWO64 && g < TWO64
    ensures EncodeObject(h, o) == EncodeObject(g, p) <==> SameSaved(h, o, g, p)
  {
    if EncodeObject(h, o) == EncodeObject(g, p) {
      FormatUnambiguous(h, o, [], g, p, []);
    }
    if SameSaved(h, o, g, p) {
      var private := o.kind == TYPE_PRIVATE_KEY;
      assert Components(o.key, private) == Components(p.key, private);
    }
  }

  /** No saved file is a proper prefix of another. */
  lemma PrefixFree(h: nat, o: Object, g: nat, p: Object)
    requires h < TWO64 && g < TWO64
    ensures EncodeObject(h, o) <= EncodeObject(g, p) ==> EncodeObject(h, o) == EncodeObject(g, p)
  {
    var a, b := EncodeObject(h, o), EncodeObject(g, p);
    if a <= b {
      assert b + [] == a + b[|a|..];
      FormatUnambiguous(h, o, b[|a|..], g, p, []);
      assert b == a + [];
    }
  }
}
