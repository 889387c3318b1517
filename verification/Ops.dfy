/** The membership operation, and the foreign calls the system makes. */
module Ops {
  import opened Common
  import opened ByteStrings

  datatype OpType = Create | Invite | Remove | SetAiMode

  /** Every field that a signature covers, in canonical order. */
  datatype Unsigned = Unsigned(
    kind: OpType,
    conversationId: Str,
    seqNo: int,
    prevHash: Bytes,
    author: Str,
    subject: Option<Str>,
    aiMode: Option<bool>,
    initialMembers: Option<seq<Str>>,
    authorIdentityKey: Bytes)

  datatype Op = Op(body: Unsigned, sig: Bytes)

  const GENESIS_ZERO: Bytes :=
    [0, 0, 0, 0, 0, 0, 0, 0, 0, 0, 0, 0, 0, 0, 0, 0,
     0, 0, 0, 0, 0, 0, 0, 0, 0, 0, 0, 0, 0, 0, 0, 0]

  /**
   * Calls into code outside the system: the hash, signature verification (false also when a key
   * does not deserialize), the UTF-8 decoder and base64. As text is identified with its UTF-8
   * bytes, decoding is the map that repairs ill-formed bytes and fixes well-formed ones.
   */
  datatype Platform = Platform(
    hash: Bytes -> Bytes,
    verify: (Bytes, Bytes, Bytes) -> bool,
    utf8: Bytes -> Str,
    toBase64: Bytes -> Str,
    fromBase64: Str -> Bytes)

  ghost predicate Base64Inverts(p: Platform)
  {
    forall b :: p.fromBase64(p.toBase64(b)) == b
  }
}
