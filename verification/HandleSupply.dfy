/** Object handles: one 32-bit counter behind per-type bases, and how long that keeps handles apart. */
module HandleSupply {
  import opened Common
  import opened Objects
  import opened Engine

  /** The counter value behind a handle, as long as the counter has not passed 2^28. */
  function Serial(h: nat): (n: nat)
    ensures 1 <= n <= TWO28
  {
    (h - 1) % TWO28 + 1
  }

  /** The handles themselves: each type counts from its own base, and the first of all is number 1. */
  lemma HandleValues(issued: nat)
    requires issued < TWO32 - 1
    ensures ObjectHandle(TYPE_PUBLIC_KEY, issued) == 0x1000_0001 + issued
    ensures ObjectHandle(TYPE_PRIVATE_KEY, issued) == 0x2000_0001 + issued
    ensures ObjectHandle(TYPE_CERTIFICATE, issued) == 0x3000_0001 + issued
    ensures ObjectHandle(TYPE_DATA, issued) == 0x4000_0001 + issued
    ensures forall kind :: kind > 3 ==> ObjectHandle(kind, issued) == 1 + issued
  {
    assert ObjectCounter(issued) == 1 + issued;
  }

  /** Among the first 2^28 handles the counter value can be read off, whatever the type. */
  lemma SerialOfHandle(kind: nat, issued: nat)
    requires issued < TWO28
    ensures Serial(ObjectHandle(kind, issued)) == issued + 1
    ensures 1 <= ObjectHandle(kind, issued) < TWO32
  {
    var h := ObjectHandle(kind, issued);
    assert ObjectCounter(issued) == issued + 1;
    assert h - 1 == HandleBase(kind) + issued;
    assert HandleBase(kind) % TWO28 == 0;
  }

  /** The first 2^28 handles are pairwise distinct for every mix of types, unknown ones included. */
  lemma FirstHandlesDistinct(kind: nat, i: nat, other: nat, j: nat)
    requires i < j < TWO28
    ensures ObjectHandle(kind, i) != ObjectHandle(other, j)
  {
    SerialOfHandle(kind, i);
    SerialOfHandle(other, j);
  }

  /** Before the counter wraps, two handles meet exactly when the distance of issue is that of the bases. */
  lemma HandlesMeetExactly(kind: nat, i: nat, other: nat, j: nat)
    requires i < j < TWO32 - 1
    ensures ObjectHandle(kind, i) == ObjectHandle(other, j) <==> HandleBase(kind) == HandleBase(other) + (j - i)
  {
    assert ObjectCounter(i) == i + 1 && ObjectCounter(j) == j + 1;
  }

  /** The bound is tight: the handle issued after the first 2^28 can be one issued before. */
  lemma NextHandleCanCollide()
    ensures ObjectHandle(TYPE_PRIVATE_KEY, 0) == ObjectHandle(TYPE_PUBLIC_KEY, TWO28)
  {
    HandlesMeetExactly(TYPE_PRIVATE_KEY, 0, TYPE_PUBLIC_KEY, TWO28);
  }

  /** Below the bound the range a handle lies in tells the type it was issued for. */
  lemma RangeTellsType(kind: nat, i: nat, other: nat, j: nat)
    requires i < TWO28 && j < TWO28 && kind <= TYPE_PRIVATE_KEY && other <= TYPE_PRIVATE_KEY
    ensures (ObjectHandle(kind, i) - 1) / TWO28 * TWO28 == HandleBase(kind)
    ensures (ObjectHandle(kind, i) - 1) / TWO28 == (ObjectHandle(other, j) - 1) / TWO28 <==> kind == other
  {
    assert ObjectHandle(kind, i) - 1 == HandleBase(kind) + i;
    assert ObjectHandle(other, j) - 1 == HandleBase(other) + j;
  }
}
