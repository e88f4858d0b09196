/**
 `hsm_session_t` and `hsm_object_t` as the code updates them: in place, through fixed buffers. What a session says is
 changed by threads that hold its lock only.
 */
module Records {
  import opened Common
  import opened Objects
  import opened Engine
  import opened Locks
  import LE = LittleEndian

  class SessionRecord {
    const handle: nat
    const isReadWrite: bool
    var state: SessionState
    var userLoggedIn: bool
    var soLoggedIn: bool
    var opKind: OperationKind
    var opMechanism: nat
    var opKey: nat
    var opActive: bool
    var findActive: bool
    const findResults: array<nat>
    var findCount: nat
    var findIndex: nat

    ghost predicate Valid()
      reads this, findResults
    {
      findResults.Length == MAX_FIND && findIndex <= findCount <= MAX_FIND
    }

    ghost function View(): Session
      requires Valid()
      reads this, findResults
    {
      Session(state, isReadWrite, userLoggedIn, soLoggedIn, Operation(opKind, opMechanism, opKey, opActive),
              FindData(findActive, findResults[..], findCount, findIndex))
    }

    constructor (handle: nat, readWrite: bool)
      ensures Valid() && fresh(findResults)
      ensures this.handle == handle && View() == FreshSession(readWrite)
    {
      this.handle := handle;
      isReadWrite := readWrite;
      state := if readWrite then RwPublic else RoPublic;
      userLoggedIn, soLoggedIn := false, false;
      opKind, opMechanism, opKey, opActive := NoOperation, 0, 0, false;
      findActive, findCount, findIndex := false, 0, 0;
      findResults := new nat[MAX_FIND](i => 0);
      new;
      assert findResults[..] == seq(MAX_FIND, i => 0);
    }

    /** The last part of `C_Login`. */
    method LogIn(role: Role, thread: Thread)
      requires Valid() && SessionLock(handle) in thread.held
      modifies this
      ensures Valid() && View() == LoggedIn(old(View()), role)
    {
      if role == SecurityOfficer {
        soLoggedIn := true;
        state := RwSo;
      } else {
        userLoggedIn := true;
        state := if isReadWrite then RwUser else RoUser;
      }
    }

    /** The last part of `C_Logout`. */
    method LogOut(thread: Thread)
      requires Valid() && SessionLock(handle) in thread.held
      modifies this
      ensures Valid() && View() == LoggedOut(old(View()))
    {
      userLoggedIn := false;
      soLoggedIn := false;
      state := if isReadWrite then RwPublic else RoPublic;
    }

    /** `C_FindObjects` once the checks have passed: at most `max` handles from the cursor on. */
    method Page(max: nat, thread: Thread) returns (found: seq<nat>)
      requires Valid() && SessionLock(handle) in thread.held
      modifies this
      ensures Valid()
      ensures var f := old(View()).find;
              var n := Min(max, f.count - f.index);
              found == f.results[f.index..f.index + n] && View() == old(View()).(find := f.(index := f.index + n))
    {
      found := [];
      ghost var start := findIndex;
      ghost var results := findResults[..];
      while findIndex < findCount && |found| < max
        invariant Valid() && findIndex == start + |found| && |found| <= max
        invariant found == results[start..findIndex]
        modifies this`findIndex
      {
        found := found + [findResults[findIndex]];
        findIndex := findIndex + 1;
      }
    }

    /** `find_results[find_count++] = handle`. */
    method AddResult(h: nat, thread: Thread)
      requires findCount < MAX_FIND == findResults.Length && SessionLock(handle) in thread.held
      modifies this`findCount, findResults
      ensures findCount == old(findCount) + 1 && findResults[..] == old(findResults[..])[old(findCount) := h]
    {
      findResults[findCount] := h;
      findCount := findCount + 1;
    }

    method EndFind(thread: Thread)
      requires Valid() && SessionLock(handle) in thread.held
      modifies this
      ensures Valid() && View() == old(View()).(find := FindEnded(old(View()).find))
    {
      findActive := false;
      findCount := 0;
      findIndex := 0;
    }

    method StartOperation(kind: OperationKind, mechanism: nat, key: nat, thread: Thread)
      requires Valid() && SessionLock(handle) in thread.held
      modifies this
      ensures Valid() && View() == old(View()).(operation := Operation(kind, mechanism, key, true))
    {
      opKind := kind;
      opMechanism := mechanism;
      opKey := key;
      opActive := true;
    }

    /** The key of the operation is gone: only the active flag is cleared. */
    method AbortOperation(thread: Thread)
      requires Valid() && SessionLock(handle) in thread.held
      modifies this
      ensures Valid() && View() == old(View()).(operation := old(View()).operation.(active := false))
    {
      opActive := false;
    }

    method EndOperation(thread: Thread)
      requires Valid() && SessionLock(handle) in thread.held
      modifies this
      ensures Valid()
      ensures View() == old(View()).(operation := old(View()).operation.(active := false, kind := NoOperation))
    {
      opActive := false;
      opKind := NoOperation;
    }
  }

  class ObjectRecord {
    var handle: nat
    var kind: U32
    var isToken: bool
    var isPrivate: bool
    var isSensitive: bool
    var isExtractable: bool
    const text: array<Byte>
    const id: array<Byte>
    var idLen: nat
    var key: KeyData
    var canSign: bool
    var canVerify: bool

    ghost predicate Valid()
      reads this, text, id
    {
      && text.Length == LABEL_SIZE && id.Length == ID_SIZE && text != id
      && text[LABEL_SIZE - 1] == 0 && idLen <= ID_SIZE
    }

    ghost function View(): Object
      requires Valid()
      reads this, text, id
    {
      Object(kind, isToken, isPrivate, isSensitive, isExtractable, text[..], id[..], idLen, key, canSign, canVerify)
    }

    /** `calloc`, then the fields a caller sets before it parses a template. */
    constructor (kind: U32, canSign: bool, canVerify: bool)
      ensures Valid() && fresh(text) && fresh(id)
      ensures View() == Blank(kind, canSign, canVerify)
    {
      handle := 0;
      this.kind := kind;
      isToken, isPrivate, isSensitive, isExtractable := false, false, false, false;
      text := new Byte[LABEL_SIZE](i => 0);
      id := new Byte[ID_SIZE](i => 0);
      idLen := 0;
      key := NO_KEY;
      this.canSign := canSign;
      this.canVerify := canVerify;
      new;
      assert text[..] == Zeros(LABEL_SIZE) && id[..] == Zeros(ID_SIZE);
    }

    /** Key material from a generation. */
    method SetKey(k: KeyData)
      requires Valid()
      modifies this`key
      ensures Valid() && View() == old(View()).(key := k)
    {
      key := k;
    }

    /** `memcpy(label, value, length)` and the terminating zero. */
    method PutText(value: Bytes)
      requires Valid()
      modifies text
      ensures Valid() && View() == old(View()).(text := PutLabel(old(View()).text, value))
    {
      if |value| < LABEL_SIZE {
        forall k | 0 <= k < |value| {
          text[k] := value[k];
        }
        text[|value|] := 0;
        assert text[..] == Overlay(value + [0], old(text[..]));
      }
    }

    method PutId(value: Bytes)
      requires Valid()
      modifies this`idLen, id
      ensures Valid() && View() == ApplyAttribute(old(View()), Attribute(CKA_ID, value))
    {
      if |value| <= ID_SIZE {
        forall k | 0 <= k < |value| {
          id[k] := value[k];
        }
        idLen := |value|;
        assert id[..] == Overlay(value, old(id[..]));
      }
    }

    /** One round of the loop of `hsm_parse_template`. */
    method ParseEntry(a: Attribute)
      requires Valid()
      modifies this, text, id
      ensures Valid() && View() == ApplyAttribute(old(View()), a) && handle == old(handle)
    {
      if a.kind == CKA_CLASS {
        kind := ULong(a.value) % TWO32;
      } else if a.kind == CKA_TOKEN {
        isToken := a.value[0] == 1;
      } else if a.kind == CKA_PRIVATE {
        isPrivate := a.value[0] == 1;
      } else if a.kind == CKA_LABEL {
        PutText(a.value);
      } else if a.kind == CKA_ID {
        PutId(a.value);
      }
    }

    /** `hsm_parse_template`. */
    method Parse(t: Template)
      requires Valid()
      modifies this, text, id
      ensures Valid() && View() == ParseTemplate(old(View()), t) && handle == old(handle)
    {
      isToken, isPrivate, isSensitive, isExtractable := false, true, true, false;
      ghost var start := View();
      for i := 0 to |t|
        invariant Valid() && View() == ApplyTemplate(start, t[..i]) && handle == old(handle)
      {
        assert t[..i + 1][..i] == t[..i];
        ParseEntry(t[i]);
      }
      assert t[..|t|] == t;
    }

    /** `hsm_set_attribute_value`: stops at the first entry that is not a label. */
    method SetValues(t: Template) returns (rv: Rv)
      requires Valid()
      modifies text
      ensures Valid()
      ensures (View(), rv) == SetAttributes(old(View()), t)
    {
      var i := 0;
      assert t[0..] == t;
      while i < |t|
        invariant i <= |t| && Valid()
        invariant SetAttributes(old(View()), t) == SetAttributes(View(), t[i..])
      {
        assert t[i..][1..] == t[i + 1..];
        if t[i].kind != CKA_LABEL {
          return AttributeReadOnly;
        }
        PutText(t[i].value);
        i := i + 1;
      }
      rv := OK;
    }

    /** `hsm_get_attribute_value`: every entry is answered, and a failure does not stop the loop. */
    method GetValues(entries: array<Query>) returns (rv: Rv)
      requires Valid()
      requires forall k :: 0 <= k < entries.Length ==> Readable(entries[k])
      modifies entries
      ensures entries[..] == AnswerAll(View(), old(entries[..]))
      ensures rv == AnswerRv(View(), old(entries[..]))
    {
      rv := OK;
      ghost var qs: seq<ReadableQuery> := entries[..];
      for i := 0 to entries.Length
        invariant entries[..] == Answered(View(), qs, i) && rv == AnswerRv(View(), qs[..i])
      {
        OneMoreAnswer(View(), qs, i);
        assert entries[i] == entries[..][i];
        var failure: Rv;
        entries[i], failure := AnswerEntry(entries[i]);
        if failure != OK {
          rv := failure;
        }
      }
      AllAnswered(View(), qs);
    }

    /** `strlen(label)`. */
    method TextLength() returns (n: nat)
      requires Valid()
      ensures n == Strlen(text[..]) < LABEL_SIZE
    {
      n := 0;
      assert text[0..] == text[..];
      while text[n] != 0
        invariant n < LABEL_SIZE
        invariant Strlen(text[..]) == n + Strlen(text[n..])
        decreases LABEL_SIZE - n
      {
        assert text[n..][1..] == text[n + 1..];
        n := n + 1;
      }
    }

    /** One round of the switch in `hsm_get_attribute_value`. */
    method AnswerEntry(q: ReadableQuery) returns (r: Query, failure: Rv)
      requires Valid()
      ensures (r, failure) == Answer(View(), q)
    {
      failure := OK;
      var value: Bytes;
      if q.kind == CKA_CLASS {
        value := LE.Encode(kind, 8);
      } else if q.kind == CKA_TOKEN {
        value := [if isToken then 1 else 0];
      } else if q.kind == CKA_PRIVATE {
        value := [if isPrivate then 1 else 0];
      } else if q.kind == CKA_LABEL {
        var n := TextLength();
        value := text[..n];
      } else if q.kind == CKA_ID {
        value := id[..idLen];
      } else if q.kind == CKA_KEY_TYPE {
        value := LE.Encode(if key.Rsa? then CKK_RSA else CKK_EC, 8);
      } else {
        return q.(len := UNAVAILABLE), AttributeTypeInvalid;
      }
      r := q;
      if q.buffer.Some? {
        if q.kind in {CKA_LABEL, CKA_ID} && q.len < |value| {
          failure := BufferTooSmall;
        } else {
          r := r.(buffer := Some(Overlay(value, q.buffer.value)));
        }
      }
      r := r.(len := |value|);
    }
  }

  /** The entries once the first `i` are answered. */
  ghost function Answered(o: Object, qs: seq<ReadableQuery>, i: nat): (r: seq<Query>)
    requires i <= |qs|
    ensures |r| == |qs|
  {
    AnswerAll(o, qs[..i]) + qs[i..]
  }

  lemma OneMoreAnswer(o: Object, qs: seq<ReadableQuery>, i: nat)
    requires i < |qs|
    ensures Answered(o, qs, i)[i] == qs[i]
    ensures Answered(o, qs, i + 1) == Answered(o, qs, i)[i := Answer(o, qs[i]).0]
    ensures var last := Answer(o, qs[i]).1;
            AnswerRv(o, qs[..i + 1]) == if last != OK then last else AnswerRv(o, qs[..i])
  {
    assert qs[..i + 1][..i] == qs[..i];
  }

  lemma AllAnswered(o: Object, qs: seq<ReadableQuery>)
    ensures Answered(o, qs, |qs|) == AnswerAll(o, qs) && qs[..|qs|] == qs
  {
    assert qs[..|qs|] == qs;
  }
}
