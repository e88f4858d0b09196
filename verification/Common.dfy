/** Bytes, return codes and configuration constants shared by every part of the token engine. */
module Common {

  type Byte = x: int | 0 <= x < 256

  type Bytes = seq<Byte>

  /** A 32-byte field: a SHA-256 digest or the blank-padded token label. */
  type Block = b: Bytes | |b| == 32 witness seq(32, i => 0)

  datatype Option<+T> = None | Some(value: T)

  /** The CKR_* codes that the modelled calls return. */
  datatype Rv =
    | OK
    | HostMemory
    | SlotIdInvalid
    | FunctionFailed
    | ArgumentsBad
    | AttributeReadOnly
    | AttributeTypeInvalid
    | FunctionNotSupported
    | KeySizeRange
    | KeyTypeInconsistent
    | KeyFunctionNotPermitted
    | MechanismInvalid
    | ObjectHandleInvalid
    | OperationActive
    | OperationNotInitialized
    | PinIncorrect
    | PinLenRange
    | PinLocked
    | SessionCount
    | SessionHandleInvalid
    | SessionParallelNotSupported
    | SessionReadOnly
    | UserAlreadyLoggedIn
    | UserNotLoggedIn
    | UserPinNotInitialized
    | UserTypeInvalid
    | BufferTooSmall
    | NotInitialized
    | AlreadyInitialized

  const MAX_SESSIONS: nat := 64
  const MAX_OBJECTS: nat := 1024
  const MAX_FIND: nat := 100
  const MIN_PIN: nat := 4
  const MAX_PIN: nat := 32
  const PIN_RETRIES: nat := 3

  const TWO28: nat := 0x1000_0000
  const TWO32: nat := 0x1_0000_0000
  const TWO64: nat := 0x1_0000_0000_0000_0000

  function Min(a: nat, b: nat): nat {
    if a <= b then a else b
  }

  /** `memcpy(buffer, src, |src|)`: the front of `buffer` is overwritten, the rest stays. */
  function Overlay(src: Bytes, buffer: Bytes): (r: Bytes)
    requires |src| <= |buffer|
    ensures |r| == |buffer|
    ensures forall k :: 0 <= k < |r| ==> r[k] == if k < |src| then src[k] else buffer[k]
  {
    src + buffer[|src|..]
  }

  function Zeros(n: nat): (r: Bytes)
    ensures |r| == n && forall k :: 0 <= k < n ==> r[k] == 0
  {
    seq(n, i => 0)
  }
}
