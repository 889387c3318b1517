/**
 * What the decoder accepts. Parsers consume a buffer from the front and return the rest. `strict`
 * parsers insist that an absent field has length zero; the source's `Reader` does not.
 */
module Decoding {
  import opened Common
  import opened ByteStrings
  import opened Ops
  import opened Canonical

  type Text = Bytes -> Str
  type Parsed<T> = Option<(T, Bytes)>

  // ----- Parsers -----

  /** A header's body length, which must not exceed what follows, and what follows. */
  function ReadHeader(s: Bytes, tag: Byte): (r: Parsed<nat>)
    ensures r.Some? ==> r.value.0 <= |r.value.1|
  {
    if |s| < 5 || s[0] != tag || FromBigEndian(s[1..5]) > |s| - 5 then None
    else Some((FromBigEndian(s[1..5]), s[5..]))
  }

  function ReadBytes(s: Bytes, tag: Byte): Parsed<Bytes>
  {
    var (len, s1) :- ReadHeader(s, tag);
    Some((s1[..len], s1[len..]))
  }

  function ReadStr(f: Text, s: Bytes): Parsed<Str>
  {
    var (x, t) :- ReadBytes(s, TAG_STRING);
    Some((f(x), t))
  }

  function ReadUint(s: Bytes): Parsed<nat>
  {
    var (x, t) :- ReadBytes(s, TAG_UINT);
    if |x| != 8 || FromBigEndian(x) > MAX_SAFE_INTEGER then None else Some((FromBigEndian(x), t))
  }

  /** The nullable prefix: `Some(None)` when the next field is absent. Its body is not skipped. */
  function ReadAbsent(strict: bool, s: Bytes): Option<Option<Bytes>>
  {
    if |s| < 5 then None
    else if s[0] != TAG_ABSENT then Some(None)
    else
      var (len, t) :- ReadHeader(s, TAG_ABSENT);
      if strict && len != 0 then None else Some(Some(t))
  }

  function ReadSubject(f: Text, strict: bool, s: Bytes): Parsed<Option<Str>>
  {
    var absent :- ReadAbsent(strict, s);
    if absent.Some? then Some((None, absent.value))
    else
      var (x, t) :- ReadStr(f, s);
      Some((Some(x), t))
  }

  function ReadAiMode(strict: bool, s: Bytes): Parsed<Option<bool>>
  {
    var absent :- ReadAbsent(strict, s);
    if absent.Some? then Some((None, absent.value))
    else
      var (x, t) :- ReadBytes(s, TAG_BOOL);
      if |x| != 1 || x[0] > 1 then None else Some((Some(x[0] == 1), t))
  }

  /** Exactly `count` length-prefixed strings and nothing after them. */
  function ReadItems(f: Text, body: Bytes, count: nat): Option<seq<Str>>
  {
    if count == 0 then (if body == [] then Some([]) else None)
    else if |body| < 4 || FromBigEndian(body[..4]) > |body| - 4 then None
    else
      var n := FromBigEndian(body[..4]);
      var xs :- ReadItems(f, body[4 + n..], count - 1);
      Some([f(body[4..4 + n])] + xs)
  }

  function ReadMembers(f: Text, strict: bool, s: Bytes): Parsed<Option<seq<Str>>>
  {
    var absent :- ReadAbsent(strict, s);
    if absent.Some? then Some((None, absent.value))
    else
      var (x, t) :- ReadBytes(s, TAG_ARRAY);
      if |x| < 4 then None
      else
        var xs :- ReadItems(f, x[4..], FromBigEndian(x[..4]));
        Some((Some(xs), t))
  }

  type HeadFields = (OpType, Str, nat, Bytes)
  type TailFields = (Str, Option<Str>, Option<bool>, Option<seq<Str>>, Bytes)

  function ReadHead(f: Text, s: Bytes): Parsed<HeadFields>
  {
    var (name, s1) :- ReadStr(f, s);
    var (conversationId, s2) :- ReadStr(f, s1);
    var (seqNo, s3) :- ReadUint(s2);
    var (prevHash, s4) :- ReadBytes(s3, TAG_BYTES);
    var kind :- KindOf(name);
    Some(((kind, conversationId, seqNo, prevHash), s4))
  }

  function ReadTail(f: Text, strict: bool, s: Bytes): Parsed<TailFields>
  {
    var (author, s1) :- ReadStr(f, s);
    var (subject, s2) :- ReadSubject(f, strict, s1);
    var (aiMode, s3) :- ReadAiMode(strict, s2);
    var (members, s4) :- ReadMembers(f, strict, s3);
    var (key, s5) :- ReadBytes(s4, TAG_BYTES);
    Some(((author, subject, aiMode, members, key), s5))
  }

  function Join(h: HeadFields, t: TailFields): Unsigned
  {
    Unsigned(h.0, h.1, h.2, h.3, t.0, t.1, t.2, t.3, t.4)
  }

  function ReadUnsigned(f: Text, strict: bool, s: Bytes): Parsed<Unsigned>
  {
    var (h, s1) :- ReadHead(f, s);
    var (t, s2) :- ReadTail(f, strict, s1);
    Some((Join(h, t), s2))
  }

  /** The whole buffer as one op: what the `Reader` accepts, before the re-encoding check. */
  function ReadOp(f: Text, strict: bool, s: Bytes): Option<Op>
  {
    var (body, s1) :- ReadUnsigned(f, strict, s);
    var (sig, s2) :- ReadBytes(s1, TAG_BYTES);
    if s2 == [] then Some(Op(body, sig)) else None
  }

  function DecodeOp(p: Platform, b: Bytes): Option<Op>
  {
    var op :- ReadOp(p.utf8, false, b);
    if EncodeOp(op) == Some(b) then Some(op) else None
  }

  // ----- Well-formed text -----

  predicate TextOk(f: Text, u: Unsigned)
  {
    && f(KindName(u.kind)) == KindName(u.kind)
    && f(u.conversationId) == u.conversationId
    && f(u.author) == u.author
    && (u.subject.Some? ==> f(u.subject.value) == u.subject.value)
    && (u.initialMembers.Some? ==> forall x <- u.initialMembers.value :: f(x) == x)
  }

  /** Decoding is a repair: repaired text is well formed, and so are the op names. */
  ghost predicate RepairsText(f: Text)
  {
    && (forall s :: f(f(s)) == f(s))
    && forall k :: f(KindName(k)) == KindName(k)
  }

  ghost predicate IsIdentity(f: Text)
  {
    forall s :: f(s) == s
  }

  /** The ops that travel: encodable, safe position, well-formed text. */
  predicate Wireable(p: Platform, op: Op)
  {
    OpFits(op) && op.body.seqNo <= MAX_SAFE_INTEGER && TextOk(p.utf8, op.body)
  }

  // ----- Completeness: encodings parse back -----

  lemma ReadBytesField(f: Field, t: Bytes)
    requires |f.body| < U32_LIMIT
    ensures ReadBytes(FieldBytes(f) + t, f.tag) == Some((f.body, t))
  {
    hide FieldBytes, BigEndian, FromBigEndian;
    FieldParts(f, t);
    U32RoundTrip(|f.body|);
  }

  /** An absent header that claims a body of `len` bytes; `len` is 0 in encodings. */
  function LongAbsent(len: nat): Bytes
  {
    [TAG_ABSENT] + BigEndian(len, 4)
  }

  lemma ReadLongAbsent(strict: bool, len: nat, t: Bytes)
    requires len <= |t| && len < U32_LIMIT && (strict ==> len == 0)
    ensures ReadAbsent(strict, LongAbsent(len) + t) == Some(Some(t))
  {
    var s := LongAbsent(len) + t;
    U32RoundTrip(len);
    assert s[1..5] == BigEndian(len, 4) && s[5..] == t;
  }

  lemma ReadAbsentField(strict: bool, t: Bytes)
    ensures ReadAbsent(strict, FieldBytes(ABSENT) + t) == Some(Some(t))
  {
    assert FieldBytes(ABSENT) == LongAbsent(0);
    ReadLongAbsent(strict, 0, t);
  }

  lemma PresentIsNotAbsent(strict: bool, f: Field, t: Bytes)
    requires f.tag != TAG_ABSENT
    ensures ReadAbsent(strict, FieldBytes(f) + t) == Some(None)
  {
  }

  lemma ReadSubjectField(f: Text, strict: bool, v: Option<Str>, t: Bytes)
    requires v.Some? ==> |v.value| < U32_LIMIT && f(v.value) == v.value
    ensures ReadSubject(f, strict, FieldBytes(SubjectField(v)) + t) == Some((v, t))
  {
    hide FieldBytes, ReadBytes, ReadAbsent;
    if v.None? {
      ReadAbsentField(strict, t);
    } else {
      PresentIsNotAbsent(strict, SubjectField(v), t);
      ReadBytesField(SubjectField(v), t);
    }
  }

  lemma ReadAiModeField(strict: bool, v: Option<bool>, t: Bytes)
    ensures ReadAiMode(strict, FieldBytes(AiModeField(v)) + t) == Some((v, t))
  {
    hide FieldBytes, ReadBytes, ReadAbsent;
    if v.None? {
      ReadAbsentField(strict, t);
    } else {
      PresentIsNotAbsent(strict, AiModeField(v), t);
      ReadBytesField(AiModeField(v), t);
    }
  }

  lemma {:induction false} ReadItemsEncoded(f: Text, xs: seq<Str>)
    requires forall x <- xs :: f(x) == x
    requires |Items(xs)| < U32_LIMIT
    ensures ReadItems(f, Items(xs), |xs|) == Some(xs)
  {
    if xs != [] {
      hide Items, BigEndian, FromBigEndian;
      var x, body := xs[0], Items(xs);
      ItemsParts(xs);
      U32RoundTrip(|x|);
      SplitAt(x, Items(xs[1..]));
      assert body[4..4 + |x|] == body[4..][..|x|] && body[4 + |x|..] == body[4..][|x|..];
      ReadItemsEncoded(f, xs[1..]);
      assert xs == [x] + xs[1..];
    }
  }

  lemma ReadMembersField(f: Text, strict: bool, v: Option<seq<Str>>, t: Bytes)
    requires v.Some? ==> |ArrayBody(v.value)| < U32_LIMIT && forall x <- v.value :: f(x) == x
    ensures ReadMembers(f, strict, FieldBytes(MembersField(v)) + t) == Some((v, t))
  {
    hide FieldBytes, ReadBytes, ReadAbsent;
    if v.None? {
      ReadAbsentField(strict, t);
    } else {
      var body := ArrayBody(v.value);
      PresentIsNotAbsent(strict, MembersField(v), t);
      ReadBytesField(MembersField(v), t);
      assert body[..4] == BigEndian(|v.value|, 4) && body[4..] == Items(v.value);
      ItemsLength(v.value);
      U32RoundTrip(|v.value|);
      ReadItemsEncoded(f, v.value);
    }
  }

  lemma FourFields(fs: seq<Field>, t: Bytes)
    requires |fs| >= 4
    ensures Encode(fs) + t ==
            FieldBytes(fs[0]) + (FieldBytes(fs[1]) + (FieldBytes(fs[2]) + (FieldBytes(fs[3]) + (Encode(fs[4..]) + t))))
  {
    hide FieldBytes, Encode;
    assert fs[0..] == fs;
    EncodeAt(fs, 0, t);
    EncodeAt(fs, 1, t);
    EncodeAt(fs, 2, t);
    EncodeAt(fs, 3, t);
  }

  lemma FiveFields(fs: seq<Field>, t: Bytes)
    requires |fs| == 5
    ensures Encode(fs) + t ==
            FieldBytes(fs[0]) + (FieldBytes(fs[1]) + (FieldBytes(fs[2]) + (FieldBytes(fs[3]) + (FieldBytes(fs[4]) + t))))
  {
    hide FieldBytes, Encode;
    FourFields(fs, t);
    EncodeAt(fs, 4, t);
    EncodeNothing(fs[5..], t);
  }

  lemma ReadFourFields(f: Text, kind: OpType, conversationId: Str, seqNo: nat, prevHash: Bytes, t: Bytes)
    requires |conversationId| < U32_LIMIT && seqNo <= MAX_SAFE_INTEGER && |prevHash| < U32_LIMIT
    requires f(KindName(kind)) == KindName(kind) && f(conversationId) == conversationId
    ensures ReadHead(f, FieldBytes(Field(TAG_STRING, KindName(kind))) +
                        (FieldBytes(Field(TAG_STRING, conversationId)) +
                         (FieldBytes(SeqNoField(seqNo)) + (FieldBytes(Field(TAG_BYTES, prevHash)) + t)))) ==
            Some(((kind, conversationId, seqNo, prevHash), t))
  {
    hide ReadBytes, FieldBytes, BigEndian, FromBigEndian, KindOf, KindName;
    var s3 := FieldBytes(Field(TAG_BYTES, prevHash)) + t;
    var s2 := FieldBytes(SeqNoField(seqNo)) + s3;
    var s1 := FieldBytes(Field(TAG_STRING, conversationId)) + s2;
    KindRoundTrip(kind);
    U64RoundTrip(seqNo);
    ReadBytesField(Field(TAG_STRING, KindName(kind)), s1);
    ReadBytesField(Field(TAG_STRING, conversationId), s2);
    ReadBytesField(SeqNoField(seqNo), s3);
    ReadBytesField(Field(TAG_BYTES, prevHash), t);
  }

  lemma ReadHeadEncoded(f: Text, u: Unsigned, fs: seq<Field>, t: Bytes)
    requires UnsignedFits(u) && u.seqNo <= MAX_SAFE_INTEGER && TextOk(f, u)
    requires |fs| >= 4 && fs[..4] == BodyFields(u)[..4]
    ensures ReadHead(f, Encode(fs) + t) ==
            Some(((u.kind, u.conversationId, u.seqNo, u.prevHash), Encode(fs[4..]) + t))
  {
    hide ReadHead, FieldBytes, Encode, KindName, SeqNoField;
    assert forall i | 0 <= i < 4 :: fs[..4][i] == fs[i] && BodyFields(u)[..4][i] == BodyFields(u)[i];
    FourFields(fs, t);
    ReadFourFields(f, u.kind, u.conversationId, u.seqNo, u.prevHash, Encode(fs[4..]) + t);
  }

  lemma ReadFiveFields(f: Text, strict: bool, u: Unsigned, t: Bytes)
    requires UnsignedFits(u) && TextOk(f, u)
    ensures ReadTail(f, strict, FieldBytes(Field(TAG_STRING, u.author)) +
                                (FieldBytes(SubjectField(u.subject)) +
                                 (FieldBytes(AiModeField(u.aiMode)) +
                                  (FieldBytes(MembersField(u.initialMembers)) +
                                   (FieldBytes(Field(TAG_BYTES, u.authorIdentityKey)) + t))))) ==
            Some(((u.author, u.subject, u.aiMode, u.initialMembers, u.authorIdentityKey), t))
  {
    hide ReadBytes, ReadSubject, ReadAiMode, ReadMembers, FieldBytes, SubjectField, AiModeField, MembersField;
    var s4 := FieldBytes(Field(TAG_BYTES, u.authorIdentityKey)) + t;
    var s3 := FieldBytes(MembersField(u.initialMembers)) + s4;
    var s2 := FieldBytes(AiModeField(u.aiMode)) + s3;
    ReadBytesField(Field(TAG_STRING, u.author), FieldBytes(SubjectField(u.subject)) + s2);
    ReadSubjectField(f, strict, u.subject, s2);
    ReadAiModeField(strict, u.aiMode, s3);
    ReadMembersField(f, strict, u.initialMembers, s4);
    ReadBytesField(Field(TAG_BYTES, u.authorIdentityKey), t);
  }

  lemma ReadTailEncoded(f: Text, strict: bool, u: Unsigned, t: Bytes)
    requires UnsignedFits(u) && TextOk(f, u)
    ensures ReadTail(f, strict, Encode(BodyFields(u)[4..]) + t) ==
            Some(((u.author, u.subject, u.aiMode, u.initialMembers, u.authorIdentityKey), t))
  {
    hide ReadTail, FieldBytes, Encode, KindName, SubjectField, AiModeField, MembersField, UnsignedFits, TextOk;
    FiveFields(BodyFields(u)[4..], t);
    ReadFiveFields(f, strict, u, t);
  }

  lemma EncodeNothing(fs: seq<Field>, t: Bytes)
    requires fs == []
    ensures Encode(fs) + t == t
  {
  }

  lemma ReadOpEncoded(f: Text, strict: bool, op: Op)
    requires OpFits(op) && op.body.seqNo <= MAX_SAFE_INTEGER && TextOk(f, op.body)
    ensures ReadOp(f, strict, OpBytes(op)) == Some(op)
  {
    hide ReadHead, ReadTail, ReadBytes, FieldBytes, BodyFields, Encode;
    var body, sig := BodyFields(op.body), Field(TAG_BYTES, op.sig);
    EncodeAppend(body, [sig]);
    ReadHeadEncoded(f, op.body, body, FieldBytes(sig));
    ReadTailEncoded(f, strict, op.body, FieldBytes(sig));
    ReadBytesField(sig, []);
    assert FieldBytes(sig) + [] == FieldBytes(sig);
    EncodeOne(sig);
  }

  lemma EncodeOne(f: Field)
    ensures Encode([f]) == FieldBytes(f)
  {
    assert [f][1..] == [];
  }

  // ----- Soundness: strictly parsed buffers are encodings -----

  lemma ReadBytesSound(s: Bytes, tag: Byte)
    requires ReadBytes(s, tag).Some?
    ensures var (x, t) := ReadBytes(s, tag).value; |x| < U32_LIMIT && s == FieldBytes(Field(tag, x)) + t
  {
    FromBigEndianRoundTrip(s[1..5]);
    PowerLimits();
    var (x, t) := ReadBytes(s, tag).value;
    assert s == [s[0]] + s[1..5] + (s[5..5 + |x|] + s[5 + |x|..]);
  }

  lemma ReadStrSound(f: Text, s: Bytes)
    requires IsIdentity(f) && ReadStr(f, s).Some?
    ensures var (x, t) := ReadStr(f, s).value; |x| < U32_LIMIT && s == FieldBytes(Field(TAG_STRING, x)) + t
  {
    ReadBytesSound(s, TAG_STRING);
  }

  lemma ReadAbsentSound(s: Bytes)
    requires ReadAbsent(true, s).Some? && ReadAbsent(true, s).value.Some?
    ensures s == FieldBytes(ABSENT) + ReadAbsent(true, s).value.value
  {
    FromBigEndianRoundTrip(s[1..5]);
    assert s == [s[0]] + s[1..5] + s[5..];
  }

  lemma ReadSubjectSound(f: Text, s: Bytes)
    requires IsIdentity(f) && ReadSubject(f, true, s).Some?
    ensures var (v, t) := ReadSubject(f, true, s).value;
            |SubjectField(v).body| < U32_LIMIT && s == FieldBytes(SubjectField(v)) + t
  {
    hide FieldBytes;
    if ReadAbsent(true, s).value.Some? {
      ReadAbsentSound(s);
    } else {
      ReadBytesSound(s, TAG_STRING);
    }
  }

  lemma ReadAiModeSound(s: Bytes)
    requires ReadAiMode(true, s).Some?
    ensures var (v, t) := ReadAiMode(true, s).value;
            |AiModeField(v).body| < U32_LIMIT && s == FieldBytes(AiModeField(v)) + t
  {
    hide FieldBytes;
    if ReadAbsent(true, s).value.Some? {
      ReadAbsentSound(s);
    } else {
      ReadBytesSound(s, TAG_BOOL);
      var (x, t) := ReadBytes(s, TAG_BOOL).value;
      assert x == [x[0]];
    }
  }

  lemma SplitThree(s: Bytes, i: nat, j: nat)
    requires i <= j <= |s|
    ensures s == s[..i] + s[i..j] + s[j..]
  {
  }

  lemma ItemsCons(x: Str, xs: seq<Str>)
    ensures Items([x] + xs) == BigEndian(|x|, 4) + x + Items(xs)
  {
    assert ([x] + xs)[1..] == xs;
  }

  lemma {:induction false} ReadItemsSound(f: Text, body: Bytes, count: nat)
    requires IsIdentity(f) && ReadItems(f, body, count).Some?
    ensures var xs := ReadItems(f, body, count).value; |xs| == count && Items(xs) == body
  {
    if count > 0 {
      hide Items, BigEndian, FromBigEndian;
      var n := FromBigEndian(body[..4]);
      var tail := ReadItems(f, body[4 + n..], count - 1).value;
      ReadItemsSound(f, body[4 + n..], count - 1);
      FromBigEndianRoundTrip(body[..4]);
      ItemsCons(body[4..4 + n], tail);
      SplitThree(body, 4, 4 + n);
    }
  }

  lemma ReadMembersSound(f: Text, s: Bytes)
    requires IsIdentity(f) && ReadMembers(f, true, s).Some?
    ensures var (v, t) := ReadMembers(f, true, s).value;
            |MembersField(v).body| < U32_LIMIT && s == FieldBytes(MembersField(v)) + t
  {
    hide FieldBytes;
    if ReadAbsent(true, s).value.Some? {
      ReadAbsentSound(s);
    } else {
      ReadBytesSound(s, TAG_ARRAY);
      var (x, t) := ReadBytes(s, TAG_ARRAY).value;
      ReadItemsSound(f, x[4..], FromBigEndian(x[..4]));
      FromBigEndianRoundTrip(x[..4]);
      assert x == x[..4] + x[4..];
    }
  }

  lemma ReadUintSound(s: Bytes)
    requires ReadUint(s).Some?
    ensures var (n, t) := ReadUint(s).value;
            n <= MAX_SAFE_INTEGER && s == FieldBytes(SeqNoField(n)) + t
  {
    hide FieldBytes, ReadBytes;
    ReadBytesSound(s, TAG_UINT);
    FromBigEndianRoundTrip(ReadBytes(s, TAG_UINT).value.0);
  }

  function HeadList(h: HeadFields): seq<Field>
  {
    [Field(TAG_STRING, KindName(h.0)), Field(TAG_STRING, h.1), SeqNoField(h.2), Field(TAG_BYTES, h.3)]
  }

  function TailList(l: TailFields): seq<Field>
  {
    [Field(TAG_STRING, l.0), SubjectField(l.1), AiModeField(l.2), MembersField(l.3), Field(TAG_BYTES, l.4)]
  }

  lemma ReadHeadSound(f: Text, s: Bytes)
    requires IsIdentity(f) && ReadHead(f, s).Some?
    ensures var (h, t) := ReadHead(f, s).value;
            h.2 <= MAX_SAFE_INTEGER && FieldsFit(HeadList(h)) && s == Encode(HeadList(h)) + t
  {
    hide FieldBytes, Encode, BigEndian, FromBigEndian;
    var (h, s4) := ReadHead(f, s).value;
    ReadHeadNested(f, s);
    FourFields(HeadList(h), s4);
    EncodeNothing(HeadList(h)[4..], s4);
  }

  lemma ReadHeadNested(f: Text, s: Bytes)
    requires IsIdentity(f) && ReadHead(f, s).Some?
    ensures var (h, t) := ReadHead(f, s).value;
            && h.2 <= MAX_SAFE_INTEGER && |h.1| < U32_LIMIT && |h.3| < U32_LIMIT
            && s == FieldBytes(Field(TAG_STRING, KindName(h.0))) +
                    (FieldBytes(Field(TAG_STRING, h.1)) +
                     (FieldBytes(SeqNoField(h.2)) + (FieldBytes(Field(TAG_BYTES, h.3)) + t)))
  {
    hide FieldBytes, ReadStr, ReadUint, ReadBytes;
    var (name, s1) := ReadStr(f, s).value;
    var (conversationId, s2) := ReadStr(f, s1).value;
    var (seqNo, s3) := ReadUint(s2).value;
    ReadStrSound(f, s);
    ReadStrSound(f, s1);
    ReadUintSound(s2);
    ReadBytesSound(s3, TAG_BYTES);
    assert name == KindName(ReadHead(f, s).value.0.0);
  }

  lemma ReadTailSound(f: Text, s: Bytes)
    requires IsIdentity(f) && ReadTail(f, true, s).Some?
    ensures var (l, t) := ReadTail(f, true, s).value;
            FieldsFit(TailList(l)) && s == Encode(TailList(l)) + t
  {
    hide FieldBytes, Encode, ReadStr, ReadBytes, ReadSubject, ReadAiMode, ReadMembers, SubjectField, AiModeField, MembersField;
    var (l, s5) := ReadTail(f, true, s).value;
    var (author, s1) := ReadStr(f, s).value;
    var (subject, s2) := ReadSubject(f, true, s1).value;
    var (aiMode, s3) := ReadAiMode(true, s2).value;
    var (members, s4) := ReadMembers(f, true, s3).value;
    ReadStrSound(f, s);
    ReadSubjectSound(f, s1);
    ReadAiModeSound(s2);
    ReadMembersSound(f, s3);
    ReadBytesSound(s4, TAG_BYTES);
    FiveFields(TailList(l), s5);
  }

  lemma FieldsFitParts(h: HeadFields, l: TailFields)
    requires FieldsFit(HeadList(h)) && FieldsFit(TailList(l)) && h.2 <= MAX_SAFE_INTEGER
    ensures UnsignedFits(Join(h, l))
  {
    hide BigEndian, ArrayBody, KindName;
    var hs, ls := HeadList(h), TailList(l);
    assert hs[1] in hs && hs[3] in hs && ls[0] in ls && ls[1] in ls && ls[3] in ls && ls[4] in ls;
  }

  lemma ReadUnsignedSound(f: Text, s: Bytes)
    requires IsIdentity(f) && ReadUnsigned(f, true, s).Some?
    ensures var (u, t) := ReadUnsigned(f, true, s).value;
            UnsignedFits(u) && u.seqNo <= MAX_SAFE_INTEGER && s == UnsignedBytes(u) + t
  {
    hide FieldBytes, ReadHead, ReadTail, Encode, KindName, SubjectField, AiModeField, MembersField, SeqNoField;
    var (h, s1) := ReadHead(f, s).value;
    var (l, t) := ReadTail(f, true, s1).value;
    var (u, _) := ReadUnsigned(f, true, s).value;
    ReadHeadSound(f, s);
    ReadTailSound(f, s1);
    EncodeAppend(HeadList(h), TailList(l));
    assert BodyFields(u) == HeadList(h) + TailList(l);
    FieldsFitParts(h, l);
    Associative(Encode(HeadList(h)), Encode(TailList(l)), t);
  }

  // ----- Main results -----

  /** The strict parser accepts exactly the encodings, with nothing before or after. */
  lemma StrictExact(f: Text, b: Bytes, op: Op)
    requires IsIdentity(f)
    ensures ReadOp(f, true, b) == Some(op) <==> EncodeOp(op) == Some(b) && op.body.seqNo <= MAX_SAFE_INTEGER
  {
    if ReadOp(f, true, b) == Some(op) {
      var (body, s1) := ReadUnsigned(f, true, b).value;
      ReadUnsignedSound(f, b);
      ReadBytesSound(s1, TAG_BYTES);
      var sig := Field(TAG_BYTES, op.sig);
      assert FieldBytes(sig) + [] == FieldBytes(sig);
      EncodeOne(sig);
      EncodeAppend(BodyFields(op.body), [sig]);
    }
    if EncodeOp(op) == Some(b) && op.body.seqNo <= MAX_SAFE_INTEGER {
      ReadOpEncoded(f, true, op);
    }
  }

  lemma {:induction false} ReadItemsText(f: Text, body: Bytes, count: nat)
    requires RepairsText(f) && ReadItems(f, body, count).Some?
    ensures forall x <- ReadItems(f, body, count).value :: f(x) == x
  {
    if count > 0 {
      ReadItemsText(f, body[4 + FromBigEndian(body[..4])..], count - 1);
    }
  }

  lemma ReadTailText(f: Text, strict: bool, s: Bytes)
    requires RepairsText(f) && ReadTail(f, strict, s).Some?
    ensures var l := ReadTail(f, strict, s).value.0;
            && f(l.0) == l.0 && (l.1.Some? ==> f(l.1.value) == l.1.value)
            && (l.3.Some? ==> forall x <- l.3.value :: f(x) == x)
  {
    var s1 := ReadStr(f, s).value.1;
    var s2 := ReadSubject(f, strict, s1).value.1;
    var s3 := ReadAiMode(strict, s2).value.1;
    if ReadAbsent(strict, s3).value.None? {
      var x := ReadBytes(s3, TAG_ARRAY).value.0;
      ReadItemsText(f, x[4..], FromBigEndian(x[..4]));
    }
  }

  lemma ReadHeadText(f: Text, s: Bytes)
    requires RepairsText(f) && ReadHead(f, s).Some?
    ensures var h := ReadHead(f, s).value.0;
            f(KindName(h.0)) == KindName(h.0) && f(h.1) == h.1 && h.2 <= MAX_SAFE_INTEGER
  {
  }

  lemma ReadOpText(f: Text, strict: bool, s: Bytes)
    requires RepairsText(f) && ReadOp(f, strict, s).Some?
    ensures TextOk(f, ReadOp(f, strict, s).value.body)
    ensures ReadOp(f, strict, s).value.body.seqNo <= MAX_SAFE_INTEGER
  {
    hide ReadHead, ReadTail, ReadBytes;
    ReadHeadText(f, s);
    ReadTailText(f, strict, ReadHead(f, s).value.1);
  }

  /**
   * `decodeOp` accepts exactly the encodings of wireable ops: it inverts `encodeOp` on them, and
   * every other buffer is refused.
   */
  lemma DecodeExact(p: Platform, b: Bytes, op: Op)
    requires RepairsText(p.utf8)
    ensures DecodeOp(p, b) == Some(op) <==> EncodeOp(op) == Some(b) && Wireable(p, op)
  {
    if DecodeOp(p, b) == Some(op) {
      ReadOpText(p.utf8, false, b);
    }
    if EncodeOp(op) == Some(b) && Wireable(p, op) {
      ReadOpEncoded(p.utf8, false, op);
    }
  }

  lemma SameOption<T>(a: Option<T>, b: Option<T>)
    requires forall x :: a == Some(x) <==> b == Some(x)
    ensures a == b
  {
    assert a.Some? ==> b == Some(a.value);
  }

  /**
   * On well-formed text the re-encoding check adds exactly one rule to the `Reader`: an absent
   * field must have length zero.
   */
  lemma ReencodeCheckIsStrictness(p: Platform, b: Bytes)
    requires IsIdentity(p.utf8)
    ensures DecodeOp(p, b) == ReadOp(p.utf8, true, b)
  {
    forall op
      ensures DecodeOp(p, b) == Some(op) <==> ReadOp(p.utf8, true, b) == Some(op)
    {
      DecodeExact(p, b, op);
      StrictExact(p.utf8, b, op);
    }
    SameOption(DecodeOp(p, b), ReadOp(p.utf8, true, b));
  }

  /** An op's wire form, except that its absent subject claims `len` bytes. */
  function Twin(op: Op, len: nat): Bytes
  {
    Encode(OpFields(op)[..5]) + (LongAbsent(len) + Encode(OpFields(op)[6..]))
  }

  lemma ReadTwinTail(f: Text, op: Op, len: nat)
    requires OpFits(op) && TextOk(f, op.body) && op.body.subject.None?
    requires len <= |Encode(OpFields(op)[6..])| && len < U32_LIMIT
    ensures var u, fs := op.body, OpFields(op);
            ReadTail(f, false, FieldBytes(fs[4]) + (LongAbsent(len) + Encode(fs[6..]))) ==
            Some(((u.author, u.subject, u.aiMode, u.initialMembers, u.authorIdentityKey), Encode(fs[9..])))
  {
    hide ReadBytes, ReadAbsent, ReadAiMode, ReadMembers, FieldBytes, Encode, LongAbsent;
    var u, fs := op.body, OpFields(op);
    ReadBytesField(fs[4], LongAbsent(len) + Encode(fs[6..]));
    ReadLongAbsent(false, len, Encode(fs[6..]));
    assert forall x: Bytes :: x + [] == x;
    EncodeAt(fs, 6, []);
    ReadAiModeField(false, u.aiMode, Encode(fs[7..]));
    EncodeAt(fs, 7, []);
    ReadMembersField(f, false, u.initialMembers, Encode(fs[8..]));
    EncodeAt(fs, 8, []);
    ReadBytesField(fs[8], Encode(fs[9..]));
  }

  /**
   * The re-encoding check is needed: every wireable op without a subject has further buffers that
   * the `Reader` takes for that op, and `decodeOp` refuses all of them.
   */
  lemma TwinsAreRefused(p: Platform, op: Op, len: nat)
    requires Wireable(p, op) && op.body.subject.None?
    requires 0 < len <= |Encode(OpFields(op)[6..])| && len < U32_LIMIT
    ensures ReadOp(p.utf8, false, Twin(op, len)) == Some(op)
    ensures DecodeOp(p, Twin(op, len)) == None
  {
    hide ReadHead, ReadTail, ReadBytes, FieldBytes, BodyFields, Encode, LongAbsent;
    var fs, rest := OpFields(op), LongAbsent(len) + Encode(OpFields(op)[6..]);
    assert fs[..5][..4] == BodyFields(op.body)[..4] && fs[..5][4..] == [fs[4]];
    ReadHeadEncoded(p.utf8, op.body, fs[..5], rest);
    EncodeOne(fs[4]);
    ReadTwinTail(p.utf8, op, len);
    assert fs[9..] == [fs[9]] && fs[9] == Field(TAG_BYTES, op.sig);
    EncodeOne(fs[9]);
    ReadBytesField(fs[9], []);
    assert FieldBytes(fs[9]) + [] == FieldBytes(fs[9]);
    TwinDiffers(op, len);
  }

  lemma TwinDiffers(op: Op, len: nat)
    requires OpFits(op) && op.body.subject.None? && 0 < len < U32_LIMIT
    ensures Twin(op, len) != OpBytes(op)
  {
    hide BodyFields, Encode;
    var fs := OpFields(op);
    if Twin(op, len) == OpBytes(op) {
      assert fs[5] == ABSENT by { SubjectAt(op); }
      EncodeAppend(fs[..5], fs[5..]);
      assert fs[..5] + fs[5..] == fs;
      EncodeAt(fs, 5, []);
      assert Encode(fs[5..]) + [] == Encode(fs[5..]) && Encode(fs[6..]) + [] == Encode(fs[6..]);
      var a, b := LongAbsent(len) + Encode(fs[6..]), FieldBytes(ABSENT) + Encode(fs[6..]);
      CancelLeft(Encode(fs[..5]), a, b);
      assert a[1..5] == BigEndian(len, 4) && b[1..5] == BigEndian(0, 4);
      U32RoundTrip(len);
      U32RoundTrip(0);
    }
  }

  lemma SubjectAt(op: Op)
    ensures OpFields(op)[5] == SubjectField(op.body.subject)
  {
  }
}
