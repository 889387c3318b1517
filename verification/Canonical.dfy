/**
 * The canonical byte encoding of an op: what the `Writer` produces and what a suffix parser
 * accepts. The cursor classes that do the work are in `CanonicalCursor`.
 */
module Canonical {
  import opened Common
  import opened ByteStrings
  import opened Ops

  const TAG_ABSENT: Byte := 0
  const TAG_STRING: Byte := 1
  const TAG_UINT: Byte := 2
  const TAG_BOOL: Byte := 3
  const TAG_ARRAY: Byte := 4
  const TAG_BYTES: Byte := 5
  const MAX_SAFE_INTEGER: nat := 0x1f_ffff_ffff_ffff

  // ----- Encoding -----

  datatype Field = Field(tag: Byte, body: Bytes)

  /** Tag, 32-bit length, body. */
  function FieldBytes(f: Field): Bytes
  {
    [f.tag] + BigEndian(|f.body|, 4) + f.body
  }

  function Encode(fs: seq<Field>): Bytes
  {
    if fs == [] then [] else FieldBytes(fs[0]) + Encode(fs[1..])
  }

  predicate FieldsFit(fs: seq<Field>)
  {
    forall f <- fs :: |f.body| < U32_LIMIT
  }

  const ABSENT: Field := Field(TAG_ABSENT, [])

  function Items(xs: seq<Str>): Bytes
  {
    if xs == [] then [] else BigEndian(|xs[0]|, 4) + xs[0] + Items(xs[1..])
  }

  function ArrayBody(xs: seq<Str>): Bytes
  {
    BigEndian(|xs|, 4) + Items(xs)
  }

  function KindName(k: OpType): Str
  {
    match k
    case Create => [0x63, 0x72, 0x65, 0x61, 0x74, 0x65]
    case Invite => [0x69, 0x6e, 0x76, 0x69, 0x74, 0x65]
    case Remove => [0x72, 0x65, 0x6d, 0x6f, 0x76, 0x65]
    case SetAiMode => [0x73, 0x65, 0x74, 0x41, 0x69, 0x4d, 0x6f, 0x64, 0x65]
  }

  function KindOf(name: Str): Option<OpType>
  {
    if name == KindName(Create) then Some(Create)
    else if name == KindName(Invite) then Some(Invite)
    else if name == KindName(Remove) then Some(Remove)
    else if name == KindName(SetAiMode) then Some(SetAiMode)
    else None
  }

  function SubjectField(s: Option<Str>): Field
  {
    if s.None? then ABSENT else Field(TAG_STRING, s.value)
  }

  function AiModeField(m: Option<bool>): Field
  {
    if m.None? then ABSENT else Field(TAG_BOOL, [if m.value then 1 else 0])
  }

  function MembersField(ms: Option<seq<Str>>): Field
  {
    if ms.None? then ABSENT else Field(TAG_ARRAY, ArrayBody(ms.value))
  }

  function SeqNoField(n: int): Field
  {
    Field(TAG_UINT, if n < 0 then [] else BigEndian(n, 8))
  }

  /** The signed fields in canonical order. */
  function BodyFields(u: Unsigned): (fs: seq<Field>)
    ensures |fs| == 9
  {
    [ Field(TAG_STRING, KindName(u.kind)),
      Field(TAG_STRING, u.conversationId),
      SeqNoField(u.seqNo),
      Field(TAG_BYTES, u.prevHash),
      Field(TAG_STRING, u.author),
      SubjectField(u.subject),
      AiModeField(u.aiMode),
      MembersField(u.initialMembers),
      Field(TAG_BYTES, u.authorIdentityKey) ]
  }

  function OpFields(op: Op): (fs: seq<Field>)
    ensures |fs| == 10
  {
    BodyFields(op.body) + [Field(TAG_BYTES, op.sig)]
  }

  /** Every length fits its 32-bit header and the position fits 64 bits; the Writer throws otherwise. */
  predicate UnsignedFits(u: Unsigned)
  {
    && |u.conversationId| < U32_LIMIT
    && 0 <= u.seqNo < U64_LIMIT
    && |u.prevHash| < U32_LIMIT
    && |u.author| < U32_LIMIT
    && (u.subject.Some? ==> |u.subject.value| < U32_LIMIT)
    && (u.initialMembers.Some? ==> |ArrayBody(u.initialMembers.value)| < U32_LIMIT)
    && |u.authorIdentityKey| < U32_LIMIT
  }

  predicate OpFits(op: Op)
  {
    UnsignedFits(op.body) && |op.sig| < U32_LIMIT
  }

  function UnsignedBytes(u: Unsigned): Bytes
  {
    Encode(BodyFields(u))
  }

  function OpBytes(op: Op): Bytes
  {
    Encode(OpFields(op))
  }

  function EncodeForSigning(u: Unsigned): Option<Bytes>
  {
    if UnsignedFits(u) then Some(UnsignedBytes(u)) else None
  }

  /** The hashing preimage, which is also the wire form. */
  function EncodeOp(op: Op): Option<Bytes>
  {
    if OpFits(op) then Some(OpBytes(op)) else None
  }

  // ----- Sequence facts -----

  lemma Associative(a: Bytes, b: Bytes, c: Bytes)
    ensures (a + b) + c == a + (b + c)
  {
  }

  lemma SplitAt(a: Bytes, b: Bytes)
    ensures (a + b)[..|a|] == a && (a + b)[|a|..] == b
  {
  }

  lemma CancelLeft(a: Bytes, s: Bytes, t: Bytes)
    requires a + s == a + t
    ensures s == t
  {
    SplitAt(a, s);
    SplitAt(a, t);
  }

  /** The encoding from field `i` on starts with field `i`. */
  lemma EncodeAt(fs: seq<Field>, i: nat, t: Bytes)
    requires i < |fs|
    ensures Encode(fs[i..]) + t == FieldBytes(fs[i]) + (Encode(fs[i + 1..]) + t)
  {
    hide FieldBytes;
    assert fs[i..][1..] == fs[i + 1..];
    Associative(FieldBytes(fs[i]), Encode(fs[i + 1..]), t);
  }

  lemma {:induction false} EncodeAppend(fs: seq<Field>, gs: seq<Field>)
    ensures Encode(fs + gs) == Encode(fs) + Encode(gs)
  {
    hide FieldBytes;
    if fs == [] {
      assert fs + gs == gs;
    } else {
      EncodeAppend(fs[1..], gs);
      assert (fs + gs)[1..] == fs[1..] + gs;
      Associative(FieldBytes(fs[0]), Encode(fs[1..]), Encode(gs));
    }
  }

  // ----- Injectivity and prefix-freedom -----

  /** A field can be split off the front of any buffer in one way only. */
  lemma FieldUnique(f: Field, s: Bytes, g: Field, t: Bytes)
    requires |f.body| < U32_LIMIT && |g.body| < U32_LIMIT
    requires FieldBytes(f) + s == FieldBytes(g) + t
    ensures f == g && s == t
  {
    hide FieldBytes, BigEndian, FromBigEndian;
    FieldParts(f, s);
    FieldParts(g, t);
    U32RoundTrip(|f.body|);
    U32RoundTrip(|g.body|);
    var b := (FieldBytes(f) + s)[5..];
    assert b[..|f.body|] == f.body && b[..|g.body|] == g.body;
    assert b[|f.body|..] == s && b[|g.body|..] == t;
  }

  lemma FieldParts(f: Field, s: Bytes)
    ensures var b := FieldBytes(f) + s;
            |b| >= 5 && b[0] == f.tag && b[1..5] == BigEndian(|f.body|, 4) && b[5..] == f.body + s
  {
    hide BigEndian;
    var head := [f.tag] + BigEndian(|f.body|, 4);
    Associative(head, f.body, s);
    SplitAt(head, f.body + s);
    var b := FieldBytes(f) + s;
    assert b[..5] == head && b[1..5] == b[..5][1..];
  }

  lemma {:induction false} EncodeUnique(fs: seq<Field>, s: Bytes, gs: seq<Field>, t: Bytes)
    requires |fs| == |gs| && FieldsFit(fs) && FieldsFit(gs)
    requires Encode(fs) + s == Encode(gs) + t
    ensures fs == gs && s == t
  {
    hide FieldBytes;
    if fs == [] {
      assert Encode(fs) + s == s && Encode(gs) + t == t;
    } else {
      assert fs[0..] == fs && gs[0..] == gs;
      EncodeAt(fs, 0, s);
      EncodeAt(gs, 0, t);
      FieldUnique(fs[0], Encode(fs[1..]) + s, gs[0], Encode(gs[1..]) + t);
      EncodeUnique(fs[1..], s, gs[1..], t);
      assert fs == [fs[0]] + fs[1..] && gs == [gs[0]] + gs[1..];
    }
  }

  lemma ItemsParts(xs: seq<Str>)
    requires xs != []
    ensures |Items(xs)| >= 4 && Items(xs)[..4] == BigEndian(|xs[0]|, 4)
    ensures Items(xs)[4..] == xs[0] + Items(xs[1..])
  {
    hide BigEndian;
    Associative(BigEndian(|xs[0]|, 4), xs[0], Items(xs[1..]));
    SplitAt(BigEndian(|xs[0]|, 4), xs[0] + Items(xs[1..]));
  }

  lemma {:induction false} ItemsUnique(xs: seq<Str>, ys: seq<Str>)
    requires |xs| == |ys| && Items(xs) == Items(ys)
    requires |Items(xs)| < U32_LIMIT
    ensures xs == ys
  {
    if xs != [] {
      hide Items, BigEndian, FromBigEndian;
      var x, y, s := xs[0], ys[0], Items(xs)[4..];
      ItemsParts(xs);
      ItemsParts(ys);
      U32RoundTrip(|x|);
      U32RoundTrip(|y|);
      assert s[..|x|] == x && s[..|y|] == y;
      assert s[|x|..] == Items(xs[1..]) && s[|y|..] == Items(ys[1..]);
      ItemsUnique(xs[1..], ys[1..]);
      assert xs == [x] + xs[1..] && ys == [y] + ys[1..];
    }
  }

  lemma {:induction false} ItemsLength(xs: seq<Str>)
    ensures |Items(xs)| >= 4 * |xs|
  {
    if xs != [] {
      ItemsLength(xs[1..]);
    }
  }

  lemma ArrayBodyUnique(xs: seq<Str>, ys: seq<Str>)
    requires ArrayBody(xs) == ArrayBody(ys) && |ArrayBody(xs)| < U32_LIMIT
    ensures xs == ys
  {
    ItemsLength(xs);
    ItemsLength(ys);
    SplitAt(BigEndian(|xs|, 4), Items(xs));
    SplitAt(BigEndian(|ys|, 4), Items(ys));
    U32RoundTrip(|xs|);
    U32RoundTrip(|ys|);
    ItemsUnique(xs, ys);
  }

  lemma KindRoundTrip(k: OpType)
    ensures KindOf(KindName(k)) == Some(k) && |KindName(k)| <= 9
  {
  }

  /** Null, the empty string and the empty array give different fields, and so do any two bodies. */
  lemma BodyFieldsInjective(u: Unsigned, v: Unsigned)
    requires UnsignedFits(u) && UnsignedFits(v) && BodyFields(u) == BodyFields(v)
    ensures u == v
  {
    hide BigEndian, FromBigEndian, ArrayBody, KindName, KindOf;
    var fs, gs := BodyFields(u), BodyFields(v);
    assert forall i | 0 <= i < 9 :: fs[i] == gs[i];
    assert fs[0].body == gs[0].body && fs[1].body == gs[1].body && fs[2].body == gs[2].body;
    assert fs[3].body == gs[3].body && fs[4].body == gs[4].body && fs[8].body == gs[8].body;
    KindRoundTrip(u.kind);
    KindRoundTrip(v.kind);
    U64RoundTrip(u.seqNo);
    U64RoundTrip(v.seqNo);
    assert fs[5] == gs[5] ==> u.subject == v.subject;
    AiModeInjective(u.aiMode, v.aiMode);
    assert fs[7] == gs[7] && fs[7] in fs;
    if u.initialMembers.Some? && v.initialMembers.Some? {
      ArrayBodyUnique(u.initialMembers.value, v.initialMembers.value);
    }
  }

  lemma AiModeInjective(a: Option<bool>, b: Option<bool>)
    requires AiModeField(a) == AiModeField(b)
    ensures a == b
  {
    assert a.Some? ==> AiModeField(a).body[0] == (if a.value then 1 else 0);
    assert b.Some? ==> AiModeField(b).body[0] == (if b.value then 1 else 0);
  }

  /** The Writer's conditions, field by field. */
  lemma FittingFields(u: Unsigned)
    requires UnsignedFits(u)
    ensures FieldsFit(BodyFields(u))
  {
    hide BigEndian, ArrayBody, KindName;
    KindRoundTrip(u.kind);
  }

  /** Signing encodings are injective and prefix-free, null, empty string and empty array included. */
  lemma UnsignedUnique(u: Unsigned, s: Bytes, v: Unsigned, t: Bytes)
    requires UnsignedFits(u) && UnsignedFits(v)
    requires UnsignedBytes(u) + s == UnsignedBytes(v) + t
    ensures u == v && s == t
  {
    hide BodyFields, Encode;
    FittingFields(u);
    FittingFields(v);
    EncodeUnique(BodyFields(u), s, BodyFields(v), t);
    BodyFieldsInjective(u, v);
  }

  /** Wire encodings are injective and prefix-free as well. */
  lemma OpUnique(a: Op, s: Bytes, b: Op, t: Bytes)
    requires OpFits(a) && OpFits(b)
    requires OpBytes(a) + s == OpBytes(b) + t
    ensures a == b && s == t
  {
    hide BodyFields, Encode;
    FittingFields(a.body);
    FittingFields(b.body);
    EncodeUnique(OpFields(a), s, OpFields(b), t);
    assert OpFields(a)[..9] == BodyFields(a.body) && OpFields(b)[..9] == BodyFields(b.body);
    assert OpFields(a)[9].body == a.sig && OpFields(b)[9].body == b.sig;
    BodyFieldsInjective(a.body, b.body);
  }
}
