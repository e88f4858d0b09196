/** What a key generation is asked for and what it answers, without saying how the template is scanned. */
module KeyRequests {
  import opened Common
  import opened Objects
  import opened Engine
  import opened Attributes

  // ----- what the template asks for -----

  /** Entry `i` is the first of its type. */
  ghost predicate FirstEntry(t: Template, kind: nat, i: nat) {
    i < |t| && t[i].kind == kind && forall k :: 0 <= k < i ==> t[k].kind != kind
  }

  /** Scanning finds the value of the lowest entry of the type, and nothing exactly when there is none. */
  lemma {:induction false} FirstValueIsFirst(t: Template, kind: nat) returns (i: nat)
    ensures match FirstValue(t, kind)
            case Some(v) => FirstEntry(t, kind, i) && t[i].value == v
            case None => !Mentions(t, kind)
  {
    i := 0;
    if |t| != 0 && t[0].kind != kind {
      var k := FirstValueIsFirst(t[1..], kind);
      i := k + 1;
      assert forall m :: 0 < m < |t| ==> t[m] == t[1..][m - 1];
    }
  }

  /** The key size asked for: that of the first entry of its type, 2048 without one. */
  ghost predicate AsksForSize(t: Template, bits: nat) {
    if !Mentions(t, CKA_MODULUS_BITS) then bits == 2048
    else exists i: nat :: FirstEntry(t, CKA_MODULUS_BITS, i) && bits == ULong(t[i].value)
  }

  function CurveNamed(oid: Bytes): U32 {
    if oid == OID_P384 then NID_P384 else if oid == OID_P521 then NID_P521 else NID_P256
  }

  /** The curve asked for: that of the first entry of its type; P-256 without one or with an unknown name. */
  ghost predicate AsksForCurve(t: Template, curve: U32) {
    if !Mentions(t, CKA_EC_PARAMS) then curve == NID_P256
    else exists i: nat :: FirstEntry(t, CKA_EC_PARAMS, i) && curve == CurveNamed(t[i].value)
  }

  predicate NamesCurve(oid: Bytes, curve: U32) {
    (curve == NID_P256 && oid == OID_P256) || (curve == NID_P384 && oid == OID_P384) ||
    (curve == NID_P521 && oid == OID_P521)
  }

  /** Both halves carry the size and the public components, and only the private half the private ones. */
  ghost predicate RsaHalves(bits: nat, m: RsaMaterial, pub: KeyData, priv: KeyData) {
    && pub.Rsa? && priv.Rsa? && pub.bits == priv.bits == bits
    && pub.modulus == priv.modulus == m.modulus && pub.publicExponent == priv.publicExponent == m.publicExponent
    && [pub.privateExponent, pub.prime1, pub.prime2, pub.exponent1, pub.exponent2, pub.coefficient] == seq(6, i => [])
    && [priv.privateExponent, priv.prime1, priv.prime2, priv.exponent1, priv.exponent2, priv.coefficient]
       == [m.privateExponent, m.prime1, m.prime2, m.exponent1, m.exponent2, m.coefficient]
  }

  ghost predicate EcHalves(curve: U32, m: EcMaterial, pub: KeyData, priv: KeyData) {
    && pub.Ec? && priv.Ec? && pub.curve == priv.curve == curve && pub.point == priv.point == m.point
    && NamesCurve(pub.params, curve) && pub.params == priv.params && pub.scalar == [] && priv.scalar == m.scalar
  }

  /** The answer to a generation, in terms of what the template asks for and not of how it is scanned. */
  ghost predicate Answers(mechanism: nat, t: Template, m: Material, r: Generated) {
    if mechanism == CKM_RSA_PKCS_KEY_PAIR_GEN then
      exists bits :: AsksForSize(t, bits) &&
        if bits != 2048 && bits != 4096 then r == NoKeys(KeySizeRange)
        else if !m.succeeds then r == NoKeys(FunctionFailed)
        else r.Keys? && RsaHalves(bits, m.rsa, r.publicKey, r.privateKey)
    else if mechanism == CKM_EC_KEY_PAIR_GEN then
      exists curve :: AsksForCurve(t, curve) &&
        if !m.succeeds then r == NoKeys(FunctionFailed)
        else r.Keys? && EcHalves(curve, m.ec, r.publicKey, r.privateKey)
    else r == NoKeys(MechanismInvalid)
  }

  // Quantified over a copy, so that callers of `GenerateKeys` carry it along unopened.
  ghost predicate AsAsked(mechanism: nat, t: Template, m: Material, r: Generated) {
    forall x :: x == r ==> Answers(mechanism, t, m, x)
  }

  lemma BitsAsked(t: Template)
    ensures AsksForSize(t, RsaBits(t))
  {
    var i := FirstValueIsFirst(t, CKA_MODULUS_BITS);
  }

  lemma GenerateIsAsAsked(mechanism: nat, t: Template, m: Material)
    ensures Answers(mechanism, t, m, Generate(mechanism, t, m))
  {
    if mechanism == CKM_RSA_PKCS_KEY_PAIR_GEN {
      BitsAsked(t);
    } else if mechanism == CKM_EC_KEY_PAIR_GEN {
      var i := FirstValueIsFirst(t, CKA_EC_PARAMS);
      assert AsksForCurve(t, Curve(t));
    }
  }

  /** A template asks for one size and one curve only. */
  lemma AsksForOne(t: Template, bits: nat, other: nat, curve: U32, another: U32)
    ensures AsksForSize(t, bits) && AsksForSize(t, other) ==> bits == other
    ensures AsksForCurve(t, curve) && AsksForCurve(t, another) ==> curve == another
  {
    forall kind, i: nat, j: nat | FirstEntry(t, kind, i) && FirstEntry(t, kind, j) ensures i == j {
    }
  }

  // ----- the keys of a generated pair -----

  /** The two keys are the halves of what OpenSSL drew for the size or curve that the template asks for. */
  ghost predicate KeysAsked(mechanism: nat, t: Template, m: Material, pub: KeyData, priv: KeyData) {
    || (mechanism == CKM_RSA_PKCS_KEY_PAIR_GEN &&
        ((AsksForSize(t, 2048) && RsaHalves(2048, m.rsa, pub, priv)) ||
         (AsksForSize(t, 4096) && RsaHalves(4096, m.rsa, pub, priv))))
    || (mechanism == CKM_EC_KEY_PAIR_GEN && exists curve :: AsksForCurve(t, curve) && EcHalves(curve, m.ec, pub, priv))
  }

  lemma GeneratedAsAsked(mechanism: nat, t: Template, m: Material)
    ensures var g := Generate(mechanism, t, m); g.Keys? ==>
      m.succeeds && KeysAsked(mechanism, t, m, g.publicKey, g.privateKey)
  {
    GenerateIsAsAsked(mechanism, t, m);
  }
}
