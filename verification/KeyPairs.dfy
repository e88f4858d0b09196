/** The part of `C_GenerateKeyPair` between the login check and the slot lock. */
module KeyPairs {
  import opened Common
  import opened Objects
  import opened Engine
  import opened Records
  import opened KeyRequests

  /** The value of the first template entry of a type, found as the code's loops find it. */
  method ScanTemplate(t: Template, kind: nat) returns (r: Option<Bytes>)
    ensures r == FirstValue(t, kind)
  {
    var i := 0;
    assert t[0..] == t;
    while i < |t|
      invariant i <= |t| && FirstValue(t, kind) == FirstValue(t[i..], kind)
    {
      assert t[i..][1..] == t[i + 1..];
      if t[i].kind == kind {
        return Some(t[i].value);
      }
      i := i + 1;
    }
    r := None;
  }

  /** The key material of `C_GenerateKeyPair`, from the mechanism, the public template and OpenSSL. */
  method GenerateKeys(mechanism: nat, pubT: Template, m: Material) returns (r: Generated)
    ensures AsAsked(mechanism, pubT, m, r) && r == Generate(mechanism, pubT, m)
  {
    GenerateIsAsAsked(mechanism, pubT, m);
    if mechanism == CKM_RSA_PKCS_KEY_PAIR_GEN {
      var v := ScanTemplate(pubT, CKA_MODULUS_BITS);
      var bits := 2048;
      if v.Some? {
        bits := ULong(v.value);
      }
      if bits != 2048 && bits != 4096 { return NoKeys(KeySizeRange); }
      if !m.succeeds { return NoKeys(FunctionFailed); }
      var k := m.rsa;
      r := Keys(Rsa(bits, k.modulus, k.publicExponent, [], [], [], [], [], []),
                Rsa(bits, k.modulus, k.publicExponent, k.privateExponent, k.prime1, k.prime2,
                    k.exponent1, k.exponent2, k.coefficient));
    } else if mechanism == CKM_EC_KEY_PAIR_GEN {
      var v := ScanTemplate(pubT, CKA_EC_PARAMS);
      var curve := NID_P256;
      if v.Some? {
        if v.value == OID_P384 {
          curve := NID_P384;
        } else if v.value == OID_P521 {
          curve := NID_P521;
        }
      }
      if !m.succeeds { return NoKeys(FunctionFailed); }
      var oid := CurveOid(curve);
      r := Keys(Ec(curve, oid, m.ec.point, []), Ec(curve, oid, m.ec.point, m.ec.scalar));
    } else {
      r := NoKeys(MechanismInvalid);
    }
  }

  /** A zeroed object with its type and capabilities set, then its template parsed. */
  method BuildObject(kind: U32, canSign: bool, canVerify: bool, t: Template) returns (r: ObjectRecord)
    ensures fresh(r) && fresh(r.text) && fresh(r.id) && r.Valid()
    ensures r.View() == ParseTemplate(Blank(kind, canSign, canVerify), t)
  {
    r := new ObjectRecord(kind, canSign, canVerify);
    r.Parse(t);
  }

  /** `C_GenerateKeyPair` between the login check and the slot lock: two new objects, not yet installed. */
  method BuildPair(mechanism: nat, pubT: Template, privT: Template, m: Material)
    returns (rv: Rv, pub: ObjectRecord, priv: ObjectRecord)
    ensures fresh(pub) && fresh(pub.text) && fresh(pub.id) && fresh(priv) && fresh(priv.text) && fresh(priv.id)
    ensures pub != priv && {pub.text, pub.id} !! {priv.text, priv.id} && pub.Valid() && priv.Valid()
    ensures match Generate(mechanism, pubT, m)
            case NoKeys(e) => rv == e != OK
            case Keys(k, l) => rv == OK && pub.View() == PublicHalf(pubT, k) && priv.View() == PrivateHalf(privT, l)
  {
    pub := BuildObject(TYPE_PUBLIC_KEY, false, true, pubT);
    priv := BuildObject(TYPE_PRIVATE_KEY, true, false, privT);
    var r := GenerateKeys(mechanism, pubT, m);
    if r.NoKeys? { return r.rv, pub, priv; }
    pub.SetKey(r.publicKey);
    priv.SetKey(r.privateKey);
    rv := OK;
  }
}
