/**
 * The wire format written out: tag bytes, names, prefixes and digits as literals, independent of
 * the tables the codec uses.
 */
module WireFormat {
  import opened Common
  import opened ByteStrings
  import opened Ops
  import opened Canonical
  import opened Decoding
  import opened Hashing

  /** The bytes of an ASCII text. */
  function Ascii(s: string): (b: Bytes)
    ensures |b| == |s|
    ensures forall i | 0 <= i < |s| :: s[i] < '\U{80}' ==> b[i] == s[i] as int
  {
    if s == "" then [] else Ascii(s[..|s| - 1]) + [if s[|s| - 1] < '\U{80}' then s[|s| - 1] as int else 63]
  }

  /** Four bytes, most significant first. */
  function U32(n: nat): Bytes
    requires n < U32_LIMIT
  {
    [n / 0x100_0000, n / 0x1_0000 % 256, n / 256 % 256, n % 256]
  }

  /** Eight bytes, most significant first. */
  function U64(n: nat): Bytes
    requires n < U64_LIMIT
  {
    [n / 0x100_0000_0000_0000, n / 0x1_0000_0000_0000 % 256, n / 0x100_0000_0000 % 256, n / 0x1_0000_0000 % 256,
     n / 0x100_0000 % 256, n / 0x1_0000 % 256, n / 256 % 256, n % 256]
  }

  lemma TwoDigits(n: nat, w: nat)
    ensures BigEndian(n, w + 2) == BigEndian(n / 0x1_0000, w) + [n / 256 % 256, n % 256]
  {
    assert BigEndian(n, w + 2) == BigEndian(n / 256, w + 1) + [n % 256];
  }

  lemma FourDigits(n: nat, w: nat)
    ensures BigEndian(n, w + 4) ==
            BigEndian(n / 0x1_0000_0000, w) + [n / 0x100_0000 % 256, n / 0x1_0000 % 256, n / 256 % 256, n % 256]
  {
    hide BigEndian;
    var high := n / 0x1_0000;
    TwoDigits(n, w + 2);
    TwoDigits(high, w);
    assert high / 256 == n / 0x100_0000 && high / 0x1_0000 == n / 0x1_0000_0000;
  }

  /** `writeUInt32BE`. */
  lemma U32Form(n: nat)
    requires n < U32_LIMIT
    ensures BigEndian(n, 4) == U32(n)
  {
    hide BigEndian;
    FourDigits(n, 0);
  }

  /** `writeBigUInt64BE`. */
  lemma U64Form(n: nat)
    requires n < U64_LIMIT
    ensures BigEndian(n, 8) == U64(n)
  {
    hide BigEndian;
    FourDigits(n, 4);
    U32Form(n / 0x1_0000_0000);
    HighHalf(n);
  }

  lemma HighHalf(n: nat)
    requires n < U64_LIMIT
    ensures U32(n / 0x1_0000_0000) ==
            [n / 0x100_0000_0000_0000, n / 0x1_0000_0000_0000 % 256, n / 0x100_0000_0000 % 256, n / 0x1_0000_0000 % 256]
  {
    var h := n / 0x1_0000_0000;
    assert h / 256 == n / 0x100_0000_0000;
    assert h / 0x1_0000 == n / 0x1_0000_0000_0000;
    assert h / 0x100_0000 == n / 0x100_0000_0000_0000;
  }

  /** Two lowercase digits per byte, high half first. */
  lemma {:induction false} HexForm(b: Bytes, i: nat)
    requires i < |b|
    ensures |ToHex(b)| == 2 * |b|
    ensures ToHex(b)[2 * i] == "0123456789abcdef"[b[i] / 16] && ToHex(b)[2 * i + 1] == "0123456789abcdef"[b[i] % 16]
  {
    hide HexDigit, ToHex;
    HexLength(b);
    ToHexStep(b);
    HexDigits(b[0]);
    if i > 0 {
      HexForm(b[1..], i - 1);
      assert ToHex(b)[2..][2 * i - 2] == ToHex(b)[2 * i] && ToHex(b)[2..][2 * i - 1] == ToHex(b)[2 * i + 1];
    }
  }

  lemma HexDigits(x: Byte)
    ensures HexDigit(x / 16) == "0123456789abcdef"[x / 16] && HexDigit(x % 16) == "0123456789abcdef"[x % 16]
  {
  }

  lemma {:induction false} HexLength(b: Bytes)
    ensures |ToHex(b)| == 2 * |b|
  {
    if b != [] {
      HexLength(b[1..]);
    }
  }

  /** The op types as the source spells them. */
  function TypeText(k: OpType): string
  {
    match k
    case Create => "create"
    case Invite => "invite"
    case Remove => "remove"
    case SetAiMode => "setAiMode"
  }

  lemma NameForm(k: OpType)
    ensures KindName(k) == Ascii(TypeText(k))
  {
  }

  lemma SignPrefixForm()
    ensures SIGN_DOMAIN == Ascii("signal-ai/membership-op/v1")
  {
  }

  lemma HashPrefixForm()
    ensures HASH_DOMAIN == Ascii("signal-ai/membership-hash/v1")
  {
  }

  // ----- An op on the wire -----

  function Tagged(tag: Byte, body: Bytes): Bytes
    requires |body| < U32_LIMIT
  {
    [tag] + U32(|body|) + body
  }

  function WireItems(xs: seq<Str>): Bytes
    requires forall x <- xs :: |x| < U32_LIMIT
  {
    if xs == [] then [] else U32(|xs[0]|) + xs[0] + WireItems(xs[1..])
  }

  /** The member list can be written: every element and the whole fit 32 bits. */
  predicate ListFits(xs: seq<Str>)
  {
    |xs| < U32_LIMIT && (forall x <- xs :: |x| < U32_LIMIT) && |WireItems(xs)| + 4 < U32_LIMIT
  }

  function WireList(xs: seq<Str>): (b: Bytes)
    requires ListFits(xs)
  {
    Tagged(4, U32(|xs|) + WireItems(xs))
  }

  const WIRE_NULL: Bytes := [0, 0, 0, 0, 0]

  lemma FieldForm(f: Field)
    requires |f.body| < U32_LIMIT
    ensures FieldBytes(f) == Tagged(f.tag, f.body)
  {
    hide BigEndian;
    U32Form(|f.body|);
  }

  lemma {:induction false} ItemsSmall(xs: seq<Str>, x: Str)
    requires x in xs
    ensures |x| <= |Items(xs)|
  {
    hide BigEndian;
    if x != xs[0] {
      ItemsSmall(xs[1..], x);
    }
  }

  lemma {:induction false} ItemsForm(xs: seq<Str>)
    requires forall x <- xs :: |x| < U32_LIMIT
    ensures Items(xs) == WireItems(xs)
  {
    hide BigEndian;
    if xs != [] {
      ItemsForm(xs[1..]);
      U32Form(|xs[0]|);
    }
  }

  lemma ListForm(xs: seq<Str>)
    requires |ArrayBody(xs)| < U32_LIMIT
    ensures ListFits(xs) && FieldBytes(MembersField(Some(xs))) == WireList(xs)
  {
    hide BigEndian, Items;
    ItemsLength(xs);
    forall x <- xs
      ensures |x| < U32_LIMIT
    {
      ItemsSmall(xs, x);
    }
    ItemsForm(xs);
    U32Form(|xs|);
    FieldForm(MembersField(Some(xs)));
  }

  /** What the writer can write, in terms of the wire. */
  predicate WireFits(u: Unsigned)
  {
    && |u.conversationId| < U32_LIMIT && |u.prevHash| < U32_LIMIT && |u.author| < U32_LIMIT && |u.authorIdentityKey| < U32_LIMIT
    && 0 <= u.seqNo < U64_LIMIT
    && (u.subject.Some? ==> |u.subject.value| < U32_LIMIT)
    && (u.initialMembers.Some? ==> ListFits(u.initialMembers.value))
  }

  /** The signed fields of an op on the wire: strings 1, position 2, mode 3, list 4, bytes 5, null 0. */
  function WireChunks(u: Unsigned): (chunks: seq<Bytes>)
    requires WireFits(u)
    ensures |chunks| == 9
  {
    [ Tagged(1, Ascii(TypeText(u.kind))),
      Tagged(1, u.conversationId),
      [2, 0, 0, 0, 8] + U64(u.seqNo),
      Tagged(5, u.prevHash),
      Tagged(1, u.author),
      if u.subject.Some? then Tagged(1, u.subject.value) else WIRE_NULL,
      if u.aiMode.Some? then [3, 0, 0, 0, 1, if u.aiMode.value then 1 else 0] else WIRE_NULL,
      if u.initialMembers.Some? then WireList(u.initialMembers.value) else WIRE_NULL,
      Tagged(5, u.authorIdentityKey) ]
  }

  function Joined(chunks: seq<Bytes>): Bytes
  {
    if chunks == [] then [] else chunks[0] + Joined(chunks[1..])
  }

  lemma {:induction false} EncodeJoined(fs: seq<Field>, chunks: seq<Bytes>)
    requires |fs| == |chunks| && forall i | 0 <= i < |fs| :: FieldBytes(fs[i]) == chunks[i]
    ensures Encode(fs) == Joined(chunks)
  {
    hide FieldBytes;
    if fs != [] {
      EncodeJoined(fs[1..], chunks[1..]);
    }
  }

  /** The writer's own conditions are those of the wire. */
  lemma FitsForm(u: Unsigned)
    ensures UnsignedFits(u) <==> WireFits(u)
  {
    hide BigEndian, Items, WireItems;
    if u.initialMembers.Some? {
      var xs := u.initialMembers.value;
      if |ArrayBody(xs)| < U32_LIMIT {
        ListForm(xs);
      }
      if ListFits(xs) {
        ItemsForm(xs);
      }
    }
  }

  lemma ChunkForms(u: Unsigned)
    requires UnsignedFits(u) && WireFits(u)
    ensures forall i | 0 <= i < 9 :: FieldBytes(BodyFields(u)[i]) == WireChunks(u)[i]
  {
    hide BigEndian, KindName, Ascii, U64, ArrayBody, ListFits, WireList, Tagged, FieldBytes;
    var fs := BodyFields(u);
    NameForm(u.kind);
    KindRoundTrip(u.kind);
    FittingFields(u);
    forall i | 0 <= i < 9
      ensures FieldBytes(fs[i]) == Tagged(fs[i].tag, fs[i].body)
    {
      assert fs[i] in fs;
      FieldForm(fs[i]);
    }
    NullForm();
    ModeForm();
    PositionForm(u.seqNo);
    if u.initialMembers.Some? {
      ListForm(u.initialMembers.value);
    }
  }

  lemma NullForm()
    ensures Tagged(0, []) == WIRE_NULL
  {
  }

  lemma ModeForm()
    ensures Tagged(3, [1]) == [3, 0, 0, 0, 1, 1] && Tagged(3, [0]) == [3, 0, 0, 0, 1, 0]
  {
  }

  lemma PositionForm(n: nat)
    requires n < U64_LIMIT
    ensures |BigEndian(n, 8)| < U32_LIMIT && Tagged(2, BigEndian(n, 8)) == [2, 0, 0, 0, 8] + U64(n)
  {
    hide BigEndian, U64;
    U64Form(n);
  }

  /** The signed bytes of every op, written out. */
  lemma BodyForm(u: Unsigned)
    ensures UnsignedFits(u) <==> WireFits(u)
    ensures WireFits(u) ==> UnsignedBytes(u) == Joined(WireChunks(u))
  {
    FitsForm(u);
    hide UnsignedFits, WireFits, BodyFields, WireChunks, FieldBytes;
    if WireFits(u) {
      ChunkForms(u);
      EncodeJoined(BodyFields(u), WireChunks(u));
    }
  }

  /** The wire bytes of every op, written out: the signed fields and the signature. */
  lemma OpForm(op: Op)
    ensures OpFits(op) <==> WireFits(op.body) && |op.sig| < U32_LIMIT
    ensures OpFits(op) ==> WireFits(op.body) && OpBytes(op) == Joined(WireChunks(op.body)) + Tagged(5, op.sig)
  {
    BodyForm(op.body);
    hide UnsignedFits, WireFits, BodyFields, WireChunks, FieldBytes;
    if OpFits(op) {
      var last := [Field(TAG_BYTES, op.sig)];
      EncodeAppend(BodyFields(op.body), last);
      FieldForm(last[0]);
      assert Encode(last) == FieldBytes(last[0]) + [] == FieldBytes(last[0]);
    }
  }

  /** The first bytes of a create, an invite, a remove and a setAiMode. */
  function Opening(k: OpType): Bytes
  {
    match k
    case Create => [1, 0, 0, 0, 6] + Ascii("create")
    case Invite => [1, 0, 0, 0, 6] + Ascii("invite")
    case Remove => [1, 0, 0, 0, 6] + Ascii("remove")
    case SetAiMode => [1, 0, 0, 0, 9] + Ascii("setAiMode")
  }

  lemma OpensWithName(op: Op)
    requires OpFits(op)
    ensures IsPrefix(Opening(op.body.kind), OpBytes(op))
  {
    hide Ascii, OpBytes, UnsignedFits, WireList, U64, Tagged, Opening;
    OpForm(op);
    NameFits(op.body.kind);
    var chunks := WireChunks(op.body);
    hide WireChunks;
    Associative(chunks[0], Joined(chunks[1..]), Tagged(5, op.sig));
    SplitAt(chunks[0], Joined(chunks[1..]) + Tagged(5, op.sig));
  }

  lemma NameFits(k: OpType)
    ensures |Ascii(TypeText(k))| < U32_LIMIT && Tagged(1, Ascii(TypeText(k))) == Opening(k)
  {
    hide Ascii;
  }

  /** A buffer decodes to an op exactly if it is that op written out, with a safe position and well-formed text. */
  lemma DecodesWireForm(p: Platform, b: Bytes, op: Op)
    requires RepairsText(p.utf8)
    ensures DecodeOp(p, b) == Some(op) <==>
            && WireFits(op.body) && |op.sig| < U32_LIMIT
            && op.body.seqNo <= 9_007_199_254_740_991 && TextOk(p.utf8, op.body)
            && b == Joined(WireChunks(op.body)) + Tagged(5, op.sig)
    ensures DecodeOp(p, b) == Some(op) ==> IsPrefix(Opening(op.body.kind), b)
  {
    hide RepairsText, DecodeOp, TextOk, WireChunks, WireFits, Tagged, Opening, OpBytes, UnsignedFits;
    DecodeExact(p, b, op);
    OpForm(op);
    if OpFits(op) {
      OpensWithName(op);
    }
  }

  /** What is signed and what is hashed, written out. */
  lemma PreimageForm(op: Op)
    ensures SigningPreimage(op.body) ==
            if WireFits(op.body) then Some(Ascii("signal-ai/membership-op/v1") + Joined(WireChunks(op.body))) else None
    ensures HashPreimage(op) ==
            if WireFits(op.body) && |op.sig| < U32_LIMIT
            then Some(Ascii("signal-ai/membership-hash/v1") + (Joined(WireChunks(op.body)) + Tagged(5, op.sig))) else None
  {
    hide Ascii, OpBytes, UnsignedBytes, WireFits, UnsignedFits, WireChunks, Tagged;
    BodyForm(op.body);
    OpForm(op);
    SignPrefixForm();
    HashPrefixForm();
  }

  /** The link of a genesis: 32 zero bytes. */
  lemma ZeroForm()
    ensures |GENESIS_ZERO| == 32 && forall i | 0 <= i < 32 :: GENESIS_ZERO[i] == 0
  {
  }
}
