/**
 Sequential `fwrite` and `fread` through a file position, and the save and load functions made of them.
 */
module Files {
  import opened Common
  import opened Objects
  import opened Storage
  import opened KeyFileNames
  import opened Records
  import LE = LittleEndian

  // Quantified over a copy, so that a method carries the fact along unopened.
  ghost predicate Written(contents: Bytes, base: Bytes, chunks: seq<Bytes>) {
    forall c :: c == chunks ==> contents == base + Concat(c)
  }

  lemma OneMoreWrite(contents: Bytes, base: Bytes, chunks: seq<Bytes>, data: Bytes)
    requires Written(contents, base, chunks)
    ensures Written(contents + data, base, chunks + [data])
  {
    assert contents == base + Concat(chunks);
    ConcatSnoc(chunks, data);
    assert base + Concat(chunks) + data == base + (Concat(chunks) + data);
  }

  lemma NothingWritten(contents: Bytes)
    ensures Written(contents, contents, [])
  {
    assert contents == contents + [];
  }

  /** A file opened with "wb": `base` was there when the present section began, `chunks` came after. */
  class OutputFile {
    var contents: Bytes
    ghost var base: Bytes
    ghost var chunks: seq<Bytes>

    ghost predicate Valid()
      reads this
    {
      Written(contents, base, chunks)
    }

    constructor ()
      ensures Valid() && base == [] && chunks == []
    {
      contents, base, chunks := [], [], [];
      NothingWritten([]);
    }

    ghost method BeginSection()
      requires Valid()
      modifies this`base, this`chunks
      ensures Valid() && base == contents && chunks == []
    {
      base, chunks := contents, [];
      NothingWritten(contents);
    }

    method Write(data: Bytes)
      requires Valid()
      modifies this
      ensures Valid() && base == old(base) && chunks == old(chunks) + [data]
    {
      OneMoreWrite(contents, base, chunks, data);
      contents := contents + data;
      chunks := chunks + [data];
    }

    /** A component: its length, then its bytes if there are any. */
    method WriteComponent(c: Component)
      requires Valid()
      modifies this
      ensures Valid() && base == old(base) && chunks == old(chunks) + [EncodeComponent(c)]
    {
      OneMoreWrite(contents, base, chunks, EncodeComponent(c));
      contents := contents + LE.Encode(|c|, 8);
      if |c| > 0 {
        contents := contents + c;
      }
      assert contents == old(contents) + EncodeComponent(c);
      chunks := chunks + [EncodeComponent(c)];
    }
  }

  // Quantified over a copy, for the same reason.
  ghost predicate ReadSoFar(contents: Bytes, widths: seq<nat>, position: nat, chunks: seq<Bytes>) {
    forall w :: w == widths ==> position == Reached(contents, w) && chunks == Split(contents, w)
  }

  /** One more read: the position it reaches, and what it returns. */
  lemma OneMoreRead(contents: Bytes, widths: seq<nat>, position: nat, chunks: seq<Bytes>, width: nat)
    requires position <= |contents| && ReadSoFar(contents, widths, position, chunks)
    ensures var n := Min(width, |contents| - position);
            ReadSoFar(contents, widths + [width], position + n, chunks + [contents[position..position + n]])
  {
    assert position == Reached(contents, widths) && chunks == Split(contents, widths);
    assert (widths + [width])[..|widths|] == widths;
  }

  /** A file opened with "rb"; `widths` and `chunks` record the reads so far. */
  class InputFile {
    const contents: Bytes
    var position: nat
    ghost var widths: seq<nat>
    ghost var chunks: seq<Bytes>

    ghost predicate Valid()
      reads this
    {
      position <= |contents| && ReadSoFar(contents, widths, position, chunks)
    }

    constructor (contents: Bytes)
      ensures Valid() && widths == [] && chunks == [] && this.contents == contents
    {
      this.contents := contents;
      position, widths, chunks := 0, [], [];
    }

    /** `fread` of `width` bytes, or of as many as are left. */
    method Read(width: nat) returns (data: Bytes)
      requires Valid()
      modifies this
      ensures Valid() && widths == old(widths) + [width] && chunks == old(chunks) + [data] && |data| <= width
    {
      OneMoreRead(contents, widths, position, chunks, width);
      var n := Min(width, |contents| - position);
      data := contents[position..position + n];
      position := position + n;
      widths := widths + [width];
      chunks := chunks + [data];
    }
  }

  lemma {:induction false} ComponentsAreChunks(cs: seq<Component>, chunks: seq<Bytes>)
    requires |chunks| == |cs| && forall i :: 0 <= i < |cs| ==> chunks[i] == EncodeComponent(cs[i])
    ensures Concat(chunks) == EncodeComponents(cs)
  {
    if |cs| != 0 {
      ComponentsAreChunks(cs[..|cs| - 1], chunks[..|cs| - 1]);
    }
  }

  /** `hsm_storage_save_token_info`: the bytes written for the six fields, in order. */
  method WriteToken(t: TokenInfo) returns (file: Bytes)
    ensures file == EncodeToken(t)
  {
    var f := new OutputFile();
    f.Write([Flag(t.initialized)]);
    f.Write([Flag(t.userPinSet)]);
    f.Write([Flag(t.soPinSet)]);
    f.Write(t.name);
    f.Write(t.userHash);
    f.Write(t.soHash);
    assert f.chunks == TokenChunks(t);
    file := f.contents;
  }

  /** `hsm_storage_load_token_info` on an open file. */
  method ReadToken(file: Bytes, was: TokenInfo) returns (t: TokenInfo)
    ensures t == DecodeToken(file, was)
  {
    var f := new InputFile(file);
    var c0 := f.Read(1);
    var c1 := f.Read(1);
    var c2 := f.Read(1);
    var c3 := f.Read(32);
    var c4 := f.Read(32);
    var c5 := f.Read(32);
    assert f.widths == TOKEN_WIDTHS && f.chunks == [c0, c1, c2, c3, c4, c5];
    t := TokenInfo(ReadFlag(c0, was.initialized), ReadFlag(c1, was.userPinSet), ReadFlag(c2, was.soPinSet),
                   Overlay(c3, was.name), Overlay(c4, was.userHash), Overlay(c5, was.soHash));
  }

  /** The metadata writes of `hsm_storage_save_object` up to the flags. */
  method WriteFront(f: OutputFile, r: ObjectRecord)
    requires f.Valid() && f.chunks == []
    modifies f
    ensures f.Valid() && f.base == old(f.base)
    ensures f.chunks == [LE.Encode(r.handle, 8), LE.Encode(r.kind, 4), [Flag(r.isToken)], [Flag(r.isPrivate)],
                         [Flag(r.isSensitive)], [Flag(r.isExtractable)]]
  {
    f.Write(LE.Encode(r.handle, 8));
    f.Write(LE.Encode(r.kind, 4));
    f.Write([Flag(r.isToken)]);
    f.Write([Flag(r.isPrivate)]);
    f.Write([Flag(r.isSensitive)]);
    f.Write([Flag(r.isExtractable)]);
  }

  /** The metadata writes from the label on. */
  method WriteBack(f: OutputFile, r: ObjectRecord)
    requires f.Valid()
    modifies f
    ensures f.Valid() && f.base == old(f.base)
    ensures f.chunks == old(f.chunks) + [r.text[..], r.id[..], LE.Encode(r.idLen, 8), LE.Encode(KeyType(r.key), 4)]
  {
    f.Write(r.text[..]);
    f.Write(r.id[..]);
    f.Write(LE.Encode(r.idLen, 8));
    f.Write(LE.Encode(KeyType(r.key), 4));
  }

  /** The ten metadata writes. */
  method WriteMetadata(f: OutputFile, r: ObjectRecord)
    requires f.Valid() && f.base == [] && f.chunks == [] && r.Valid()
    modifies f
    ensures f.Valid() && f.base == [] && f.chunks == MetadataChunks(MetadataOf(r.handle, r.View()))
  {
    WriteFront(f, r);
    WriteBack(f, r);
  }

  /** The component writes: the private ones only for private-key objects. */
  method WriteComponents(f: OutputFile, k: KeyData, isPrivateKey: bool)
    requires f.Valid() && f.chunks == []
    modifies f
    ensures f.Valid() && f.contents == old(f.contents) + EncodeComponents(Components(k, isPrivateKey))
  {
    assert f.contents == f.base + Concat([]);
    if k.Rsa? {
      WriteRsa(f, k, isPrivateKey);
    } else {
      WriteEc(f, k, isPrivateKey);
    }
    ComponentsAreChunks(Components(k, isPrivateKey), f.chunks);
  }

  /** The chunks written are the components, one by one. */
  ghost predicate EncodesEach(chunks: seq<Bytes>, cs: seq<Component>) {
    |chunks| == |cs| && forall i :: 0 <= i < |cs| ==> chunks[i] == EncodeComponent(cs[i])
  }

  method WriteRsa(f: OutputFile, k: KeyData, isPrivateKey: bool)
    requires f.Valid() && f.chunks == [] && k.Rsa?
    modifies f
    ensures f.Valid() && f.base == old(f.base) && EncodesEach(f.chunks, Components(k, isPrivateKey))
  {
    f.WriteComponent(k.modulus);
    f.WriteComponent(k.publicExponent);
    if isPrivateKey {
      WriteRsaPrivate(f, k);
    }
  }

  method WriteEc(f: OutputFile, k: KeyData, isPrivateKey: bool)
    requires f.Valid() && f.chunks == [] && k.Ec?
    modifies f
    ensures f.Valid() && f.base == old(f.base) && EncodesEach(f.chunks, Components(k, isPrivateKey))
  {
    f.WriteComponent(k.params);
    f.WriteComponent(k.point);
    if isPrivateKey {
      f.WriteComponent(k.scalar);
    }
  }

  method WriteRsaPrivate(f: OutputFile, k: KeyData)
    requires f.Valid() && k.Rsa?
    modifies f
    ensures f.Valid() && f.base == old(f.base)
    ensures f.chunks == old(f.chunks) + [
      EncodeComponent(k.privateExponent), EncodeComponent(k.prime1), EncodeComponent(k.prime2),
      EncodeComponent(k.exponent1), EncodeComponent(k.exponent2), EncodeComponent(k.coefficient)]
  {
    f.WriteComponent(k.privateExponent);
    f.WriteComponent(k.prime1);
    f.WriteComponent(k.prime2);
    f.WriteComponent(k.exponent1);
    f.WriteComponent(k.exponent2);
    f.WriteComponent(k.coefficient);
  }

  /** The contents `hsm_storage_save_object` gives the key file. */
  method WriteObject(r: ObjectRecord) returns (file: Bytes)
    requires r.Valid()
    ensures file == EncodeObject(r.handle, r.View())
  {
    var f := new OutputFile();
    WriteMetadata(f, r);
    ghost var metadata := f.contents;
    assert metadata == [] + Concat(f.chunks) == Concat(f.chunks);
    f.BeginSection();
    f.Write(LE.Encode(KeyHead(r.key), 4));
    WriteKeyTail(f, metadata, r);
    file := f.contents;
  }

  /** The end of `hsm_storage_save_object`, once the head of the key section is written. */
  method WriteKeyTail(f: OutputFile, ghost metadata: Bytes, r: ObjectRecord)
    requires f.Valid() && f.base == metadata && f.chunks == [LE.Encode(KeyHead(r.key), 4)] && r.Valid()
    modifies f
    ensures f.Valid() && f.contents == metadata + EncodeKey(r.View())
  {
    assert f.contents == f.base + Concat(f.chunks);
    HeadThenComponents(metadata, r.View());
    f.BeginSection();
    WriteComponents(f, r.key, r.kind == TYPE_PRIVATE_KEY);
  }

  lemma HeadThenComponents(metadata: Bytes, o: Object)
    ensures Concat([LE.Encode(KeyHead(o.key), 4)]) == LE.Encode(KeyHead(o.key), 4)
    ensures metadata + LE.Encode(KeyHead(o.key), 4) + EncodeComponents(Components(o.key, o.kind == TYPE_PRIVATE_KEY))
            == metadata + EncodeKey(o)
  {
    var head := LE.Encode(KeyHead(o.key), 4);
    ConcatSnoc([], head);
    assert [] + [head] == [head];
  }

  /** The reads of `hsm_storage_load_object` up to the flags. */
  method ReadFront(f: InputFile) returns (c: seq<Bytes>)
    requires f.Valid() && f.widths == []
    modifies f
    ensures f.Valid() && f.widths == METADATA_WIDTHS[..6] && |c| == 6 && f.chunks == old(f.chunks) + c
  {
    var c0 := f.Read(8);
    var c1 := f.Read(4);
    var c2 := f.Read(1);
    var c3 := f.Read(1);
    var c4 := f.Read(1);
    var c5 := f.Read(1);
    c := [c0, c1, c2, c3, c4, c5];
  }

  /** The reads from the label on; the key section is not read. */
  method ReadRest(f: InputFile) returns (c: seq<Bytes>)
    requires f.Valid() && f.widths == METADATA_WIDTHS[..6]
    modifies f
    ensures f.Valid() && f.widths == METADATA_WIDTHS && |c| == 4 && f.chunks == old(f.chunks) + c
  {
    var c6 := f.Read(LABEL_SIZE);
    var c7 := f.Read(ID_SIZE);
    var c8 := f.Read(8);
    var c9 := f.Read(4);
    c := [c6, c7, c8, c9];
  }

  /** `hsm_storage_load_object` on an open file. */
  method ReadMetadata(file: Bytes, was: Metadata) returns (m: Metadata)
    requires |was.text| == LABEL_SIZE && |was.id| == ID_SIZE
    ensures m == DecodeMetadata(file, was)
  {
    var f := new InputFile(file);
    var a := ReadFront(f);
    var b := ReadRest(f);
    ghost var c := Split(file, METADATA_WIDTHS);
    assert c == f.chunks == a + b;
    assert forall i :: 0 <= i < 6 ==> a[i] == c[i];
    assert forall i :: 0 <= i < 4 ==> b[i] == c[6 + i];
    m := Metadata(ReadNumber(a[0], was.handle, 8), ReadNumber(a[1], was.kind, 4),
                  ReadFlag(a[2], was.isToken), ReadFlag(a[3], was.isPrivate),
                  ReadFlag(a[4], was.isSensitive), ReadFlag(a[5], was.isExtractable),
                  Overlay(b[0], was.text), Overlay(b[1], was.id),
                  ReadNumber(b[2], was.idLen, 8), ReadNumber(b[3], was.keyType, 4));
  }

  /** `hsm_storage_load_object`: the file is the one named after the handle asked for. */
  method LoadObject(files: map<string, Bytes>, handle: nat, was: Metadata) returns (rv: Rv, m: Metadata)
    requires |was.text| == LABEL_SIZE && |was.id| == ID_SIZE
    ensures rv == OK <==> KeyFileName(handle) in files
    ensures rv == OK ==> m == DecodeMetadata(files[KeyFileName(handle)], was)
    ensures rv != OK ==> rv == ObjectHandleInvalid && m == was
  {
    if KeyFileName(handle) !in files {
      return ObjectHandleInvalid, was;
    }
    m := ReadMetadata(files[KeyFileName(handle)], was);
    rv := OK;
  }
}
