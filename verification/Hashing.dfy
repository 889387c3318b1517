/** Signing and hashing preimages with their domain prefixes. */
module Hashing {
  import opened Common
  import opened ByteStrings
  import opened Ops
  import opened Canonical

  /** "signal-ai/membership-op/v1" */
  const SIGN_DOMAIN: Bytes :=
    [0x73, 0x69, 0x67, 0x6e, 0x61, 0x6c, 0x2d, 0x61, 0x69, 0x2f, 0x6d, 0x65, 0x6d, 0x62, 0x65, 0x72,
    0x73, 0x68, 0x69, 0x70, 0x2d, 0x6f, 0x70, 0x2f, 0x76, 0x31]

  /** "signal-ai/membership-hash/v1" */
  const HASH_DOMAIN: Bytes :=
    [0x73, 0x69, 0x67, 0x6e, 0x61, 0x6c, 0x2d, 0x61, 0x69, 0x2f, 0x6d, 0x65, 0x6d, 0x62, 0x65, 0x72,
    0x73, 0x68, 0x69, 0x70, 0x2d, 0x68, 0x61, 0x73, 0x68, 0x2f, 0x76, 0x31]

  function SigningPreimage(u: Unsigned): Option<Bytes>
  {
    var b :- EncodeForSigning(u);
    Some(SIGN_DOMAIN + b)
  }

  function HashPreimage(op: Op): Option<Bytes>
  {
    var b :- EncodeOp(op);
    Some(HASH_DOMAIN + b)
  }

  predicate VerifyOpSig(p: Platform, op: Op)
  {
    var pre := SigningPreimage(op.body);
    pre.Some? && p.verify(op.body.authorIdentityKey, pre.value, op.sig)
  }

  /** `None` is the throw of the encoder on an op that does not fit. */
  function HashOp(p: Platform, op: Op): Option<Bytes>
  {
    var pre :- HashPreimage(op);
    Some(p.hash(pre))
  }

  /** `toHex(hashOp(op))`. */
  function HeadHash(p: Platform, op: Op): Option<string>
  {
    var h :- HashOp(p, op);
    Some(ToHex(h))
  }

  /** Two different ops with the same hash: an explicit collision of the hash function. */
  predicate Collides(p: Platform, a: Op, b: Op)
  {
    a != b && HashOp(p, a).Some? && HashOp(p, a) == HashOp(p, b)
  }

  lemma SameHeadHash(p: Platform, a: Op, b: Op)
    requires HeadHash(p, a).Some? && HeadHash(p, a) == HeadHash(p, b)
    ensures a == b || Collides(p, a, b)
  {
    ToHexInjective(HashOp(p, a).value, HashOp(p, b).value);
  }

  /** A collision of ops is a pair of distinct byte strings that the hash sends to one value. */
  lemma CollisionIsExplicit(p: Platform, a: Op, b: Op)
    requires Collides(p, a, b)
    ensures HashPreimage(a).Some? && HashPreimage(b).Some?
    ensures HashPreimage(a) != HashPreimage(b)
    ensures p.hash(HashPreimage(a).value) == p.hash(HashPreimage(b).value)
  {
    if HashPreimage(a) == HashPreimage(b) {
      HashPreimageUnique(a, [], b, []);
    }
  }

  /** No signing preimage is a prefix of another one, and equal preimages come from equal bodies. */
  lemma SigningPreimageUnique(u: Unsigned, s: Bytes, v: Unsigned, t: Bytes)
    requires SigningPreimage(u).Some? && SigningPreimage(v).Some?
    requires SigningPreimage(u).value + s == SigningPreimage(v).value + t
    ensures u == v && s == t
  {
    Associative(SIGN_DOMAIN, UnsignedBytes(u), s);
    Associative(SIGN_DOMAIN, UnsignedBytes(v), t);
    CancelLeft(SIGN_DOMAIN, UnsignedBytes(u) + s, UnsignedBytes(v) + t);
    UnsignedUnique(u, s, v, t);
  }

  lemma HashPreimageUnique(a: Op, s: Bytes, b: Op, t: Bytes)
    requires HashPreimage(a).Some? && HashPreimage(b).Some?
    requires HashPreimage(a).value + s == HashPreimage(b).value + t
    ensures a == b && s == t
  {
    Associative(HASH_DOMAIN, OpBytes(a), s);
    Associative(HASH_DOMAIN, OpBytes(b), t);
    CancelLeft(HASH_DOMAIN, OpBytes(a) + s, OpBytes(b) + t);
    OpUnique(a, s, b, t);
  }

  /** Whatever follows them, a signing preimage and a hashing preimage differ. */
  lemma DomainsSeparate(u: Unsigned, s: Bytes, op: Op, t: Bytes)
    requires SigningPreimage(u).Some? && HashPreimage(op).Some?
    ensures SigningPreimage(u).value + s != HashPreimage(op).value + t
  {
    hide UnsignedBytes, OpBytes, UnsignedFits;
    assert (SigningPreimage(u).value + s)[21] == SIGN_DOMAIN[21];
    assert (HashPreimage(op).value + t)[21] == HASH_DOMAIN[21];
  }
}
