/** The imperative codec: a `Writer` that collects chunks and a `Reader` that moves a cursor. */
module CanonicalCursor {
  import opened Common
  import opened ByteStrings
  import opened Ops
  import opened Canonical
  import opened Decoding

  function Flat(chunks: seq<Bytes>): Bytes
  {
    if chunks == [] then [] else Flat(chunks[..|chunks| - 1]) + chunks[|chunks| - 1]
  }

  lemma FlatTwo(chunks: seq<Bytes>, a: Bytes, b: Bytes)
    ensures Flat(chunks + [a, b]) == Flat(chunks) + (a + b)
  {
    var all := chunks + [a, b];
    assert all[..|all| - 1] == chunks + [a] && (chunks + [a])[..|chunks|] == chunks;
    Associative(Flat(chunks), a, b);
  }

  class Writer {
    var chunks: seq<Bytes>

    constructor ()
      ensures chunks == []
    {
      chunks := [];
    }

    /** Everything written so far. */
    ghost function Out(): Bytes
      reads this
    {
      Flat(chunks)
    }

    method Put(tag: Byte, body: Bytes) returns (r: Outcome)
      modifies this
      ensures r.Pass? <==> |body| < U32_LIMIT
      ensures Out() == if r.Pass? then old(Out()) + FieldBytes(Field(tag, body)) else old(Out())
    {
      if |body| >= U32_LIMIT {
        return Fail;
      }
      var header := [tag] + BigEndian(|body|, 4);
      FlatTwo(chunks, header, body);
      chunks := chunks + [header, body];
      return Pass;
    }

    method PutUint(n: int) returns (r: Outcome)
      modifies this
      ensures r.Pass? <==> 0 <= n < U64_LIMIT
      ensures Out() == if r.Pass? then old(Out()) + FieldBytes(SeqNoField(n)) else old(Out())
    {
      if n < 0 || n >= U64_LIMIT {
        return Fail;
      }
      r := Put(TAG_UINT, BigEndian(n, 8));
    }

    method PutArray(items: seq<Str>) returns (r: Outcome)
      modifies this
      ensures r.Pass? <==> |ArrayBody(items)| < U32_LIMIT
      ensures Out() == if r.Pass? then old(Out()) + FieldBytes(Field(TAG_ARRAY, ArrayBody(items))) else old(Out())
    {
      ItemsLength(items);
      if |items| >= U32_LIMIT {
        return Fail;
      }
      var body := BigEndian(|items|, 4);
      for i := 0 to |items|
        invariant body == BigEndian(|items|, 4) + Items(items[..i])
        invariant Out() == old(Out())
      {
        ItemsSnoc(items[..i], items[i]);
        assert items[..i + 1] == items[..i] + [items[i]];
        if |items[i]| >= U32_LIMIT {
          ItemFits(items, i);
          return Fail;
        }
        Regroup(BigEndian(|items|, 4), Items(items[..i]), BigEndian(|items[i]|, 4), items[i]);
        body := body + BigEndian(|items[i]|, 4) + items[i];
      }
      assert items[..|items|] == items;
      r := Put(TAG_ARRAY, body);
    }

    method Concat() returns (out: Bytes)
      ensures out == Out()
    {
      out := [];
      for i := 0 to |chunks|
        invariant out == Flat(chunks[..i])
      {
        assert chunks[..i + 1][..i] == chunks[..i];
        out := out + chunks[i];
      }
      assert chunks[..|chunks|] == chunks;
    }
  }

  lemma {:induction false} ItemsAppend(xs: seq<Str>, ys: seq<Str>)
    ensures Items(xs + ys) == Items(xs) + Items(ys)
  {
    if xs == [] {
      assert xs + ys == ys;
    } else {
      hide BigEndian;
      ItemsAppend(xs[1..], ys);
      assert (xs + ys)[1..] == xs[1..] + ys;
      Associative(BigEndian(|xs[0]|, 4) + xs[0], Items(xs[1..]), Items(ys));
    }
  }

  lemma ItemsSnoc(xs: seq<Str>, x: Str)
    ensures Items(xs + [x]) == Items(xs) + BigEndian(|x|, 4) + x
  {
    ItemsAppend(xs, [x]);
    assert Items([x]) == BigEndian(|x|, 4) + x + Items([]);
  }

  lemma ItemFits(xs: seq<Str>, i: nat)
    requires i < |xs|
    ensures |Items(xs)| >= |xs[i]|
  {
    ItemsSnoc(xs[..i], xs[i]);
    assert xs[..i + 1] == xs[..i] + [xs[i]];
    ItemsAppend(xs[..i + 1], xs[i + 1..]);
    assert xs[..i + 1] + xs[i + 1..] == xs;
  }

  lemma Regroup(a: Bytes, b: Bytes, c: Bytes, d: Bytes)
    ensures a + b + c + d == a + (b + c + d)
  {
  }

  method PutSubject(w: Writer, v: Option<Str>) returns (r: Outcome)
    modifies w
    ensures r.Pass? <==> (v.Some? ==> |v.value| < U32_LIMIT)
    ensures r.Pass? ==> w.Out() == old(w.Out()) + FieldBytes(SubjectField(v))
  {
    if v.None? {
      r := w.Put(TAG_ABSENT, []);
    } else {
      r := w.Put(TAG_STRING, v.value);
    }
  }

  method PutAiMode(w: Writer, v: Option<bool>)
    modifies w
    ensures w.Out() == old(w.Out()) + FieldBytes(AiModeField(v))
  {
    if v.None? {
      var _ := w.Put(TAG_ABSENT, []);
    } else {
      var _ := w.Put(TAG_BOOL, [if v.value then 1 else 0]);
    }
  }

  method PutMembers(w: Writer, v: Option<seq<Str>>) returns (r: Outcome)
    modifies w
    ensures r.Pass? <==> (v.Some? ==> |ArrayBody(v.value)| < U32_LIMIT)
    ensures r.Pass? ==> w.Out() == old(w.Out()) + FieldBytes(MembersField(v))
  {
    if v.None? {
      r := w.Put(TAG_ABSENT, []);
    } else {
      r := w.PutArray(v.value);
    }
  }

  lemma EncodeSnoc(fs: seq<Field>, i: nat)
    requires i < |fs|
    ensures Encode(fs[..i + 1]) == Encode(fs[..i]) + FieldBytes(fs[i])
  {
    assert fs[..i + 1] == fs[..i] + [fs[i]];
    EncodeAppend(fs[..i], [fs[i]]);
    EncodeOne(fs[i]);
  }

  /** The leading four fields. */
  method WriteHead(w: Writer, u: Unsigned) returns (r: Option<()>)
    modifies w
    ensures r.Some? <==> |u.conversationId| < U32_LIMIT && 0 <= u.seqNo < U64_LIMIT && |u.prevHash| < U32_LIMIT
    ensures r.Some? ==>
              w.Out() == old(w.Out()) + FieldBytes(Field(TAG_STRING, KindName(u.kind)))
                         + FieldBytes(Field(TAG_STRING, u.conversationId)) + FieldBytes(SeqNoField(u.seqNo))
                         + FieldBytes(Field(TAG_BYTES, u.prevHash))
  {
    hide FieldBytes, Flat;
    var _ := w.Put(TAG_STRING, KindName(u.kind));
    :- w.Put(TAG_STRING, u.conversationId);
    :- w.PutUint(u.seqNo);
    :- w.Put(TAG_BYTES, u.prevHash);
    return Some(());
  }

  predicate TailFits(u: Unsigned)
  {
    && |u.author| < U32_LIMIT
    && (u.subject.Some? ==> |u.subject.value| < U32_LIMIT)
    && (u.initialMembers.Some? ==> |ArrayBody(u.initialMembers.value)| < U32_LIMIT)
    && |u.authorIdentityKey| < U32_LIMIT
  }

  /** The remaining five. */
  method WriteTail(w: Writer, u: Unsigned) returns (r: Option<()>)
    modifies w
    ensures r.Some? <==> TailFits(u)
    ensures r.Some? ==>
              w.Out() == old(w.Out()) + FieldBytes(Field(TAG_STRING, u.author)) + FieldBytes(SubjectField(u.subject))
                         + FieldBytes(AiModeField(u.aiMode)) + FieldBytes(MembersField(u.initialMembers))
                         + FieldBytes(Field(TAG_BYTES, u.authorIdentityKey))
  {
    hide FieldBytes, Flat, SubjectField, AiModeField, MembersField;
    var written := w.Put(TAG_STRING, u.author);
    :- written;
    :- PutSubject(w, u.subject);
    PutAiMode(w, u.aiMode);
    :- PutMembers(w, u.initialMembers);
    :- w.Put(TAG_BYTES, u.authorIdentityKey);
    return Some(());
  }

  lemma FieldsInOrder(fs: seq<Field>)
    requires |fs| == 9
    ensures [] + FieldBytes(fs[0]) + FieldBytes(fs[1]) + FieldBytes(fs[2]) + FieldBytes(fs[3]) + FieldBytes(fs[4])
            + FieldBytes(fs[5]) + FieldBytes(fs[6]) + FieldBytes(fs[7]) + FieldBytes(fs[8]) == Encode(fs)
  {
    hide FieldBytes, Encode;
    EncodeNothing(fs[..0], []);
    assert [] + FieldBytes(fs[0]) == Encode(fs[..0]) + FieldBytes(fs[0]);
    EncodeSnoc(fs, 0);
    EncodeSnoc(fs, 1);
    EncodeSnoc(fs, 2);
    EncodeSnoc(fs, 3);
    EncodeSnoc(fs, 4);
    EncodeSnoc(fs, 5);
    EncodeSnoc(fs, 6);
    EncodeSnoc(fs, 7);
    EncodeSnoc(fs, 8);
    assert fs[..9] == fs;
  }

  /** `encodeFields`: without a signature the signing encoding, with one the wire encoding. */
  method EncodeFields(u: Unsigned, sig: Option<Bytes>) returns (r: Option<Bytes>)
    ensures r == if sig.None? then EncodeForSigning(u) else EncodeOp(Op(u, sig.value))
  {
    hide FieldBytes, Encode, KindName, SubjectField, AiModeField, MembersField, SeqNoField;
    FieldsInOrder(BodyFields(u));
    var w := new Writer();
    var _ :- WriteHead(w, u);
    var _ :- WriteTail(w, u);
    if sig.Some? {
      EncodeAppend(BodyFields(u), [Field(TAG_BYTES, sig.value)]);
      EncodeOne(Field(TAG_BYTES, sig.value));
      :- w.Put(TAG_BYTES, sig.value);
    }
    var out := w.Concat();
    return Some(out);
  }

  /** Contract shape of every Reader method: it refines a suffix parser. */
  ghost predicate Refines<T>(spec: Parsed<T>, r: Option<T>, rest: Bytes)
  {
    match spec
    case None => r.None?
    case Some((v, t)) => r == Some(v) && rest == t
  }

  ghost function Prepend<T>(xs: seq<T>, r: Option<seq<T>>): Option<seq<T>>
  {
    if r.None? then None else Some(xs + r.value)
  }

  lemma CountAt(s: Bytes, pos: nat, end: nat)
    requires pos + 4 <= end <= |s|
    ensures s[pos..end][..4] == s[pos..pos + 4]
  {
  }

  lemma ItemAt(s: Bytes, pos: nat, end: nat, n: nat)
    requires pos + 4 + n <= end <= |s|
    ensures s[pos..end][4..4 + n] == s[pos + 4..pos + 4 + n]
    ensures s[pos..end][4 + n..] == s[pos + 4 + n..end]
  {
    assert s[pos..end][4..4 + n] == s[pos..end][4..][..n];
    assert s[pos..end][4..] == s[pos + 4..end];
    assert s[pos + 4..end][..n] == s[pos + 4..pos + 4 + n];
  }

  /** `ReadItems` by cursor position instead of by suffix. */
  function ReadItemsAt(f: Text, s: Bytes, pos: nat, end: nat, count: nat): Option<seq<Str>>
    requires pos <= end <= |s|
    decreases count
  {
    if count == 0 then (if pos == end then Some([]) else None)
    else if pos + 4 > end then None
    else
      var n := FromBigEndian(s[pos..pos + 4]);
      if pos + 4 + n > end then None
      else
        var xs :- ReadItemsAt(f, s, pos + 4 + n, end, count - 1);
        Some([f(s[pos + 4..pos + 4 + n])] + xs)
  }

  lemma {:induction false} CursorIsSuffix(f: Text, s: Bytes, pos: nat, end: nat, count: nat)
    requires pos <= end <= |s|
    ensures ReadItemsAt(f, s, pos, end, count) == ReadItems(f, s[pos..end], count)
    decreases count
  {
    if count > 0 && pos + 4 <= end {
      CountAt(s, pos, end);
      var n := FromBigEndian(s[pos..pos + 4]);
      if pos + 4 + n <= end {
        ItemAt(s, pos, end, n);
        CursorIsSuffix(f, s, pos + 4 + n, end, count - 1);
      }
    }
  }

  lemma PrependAssoc<T>(xs: seq<T>, x: T, r: Option<seq<T>>)
    ensures Prepend(xs + [x], r) == Prepend(xs, Prepend([x], r))
  {
    if r.Some? {
      assert xs + [x] + r.value == xs + ([x] + r.value);
    }
  }

  /** The element loop of `nullableArr`: `count` elements that must end exactly at `end`. */
  method Elements(f: Text, buf: Bytes, start: nat, end: nat, count: nat) returns (r: Option<seq<Str>>)
    requires start <= end <= |buf|
    ensures r == ReadItems(f, buf[start..end], count)
  {
    hide BigEndian, FromBigEndian;
    CursorIsSuffix(f, buf, start, end, count);
    var items: seq<Str>, pos: nat := [], start;
    ghost var all := ReadItemsAt(f, buf, start, end, count);
    assert all.Some? ==> [] + all.value == all.value;
    for i := 0 to count
      invariant pos <= end
      invariant all == Prepend(items, ReadItemsAt(f, buf, pos, end, count - i))
    {
      if pos + 4 > end {
        return None;
      }
      var n := FromBigEndian(buf[pos..pos + 4]);
      if pos + 4 + n > end {
        return None;
      }
      var item := f(buf[pos + 4..pos + 4 + n]);
      PrependAssoc(items, item, ReadItemsAt(f, buf, pos + 4 + n, end, count - i - 1));
      items := items + [item];
      pos := pos + 4 + n;
    }
    if pos != end {
      return None;
    }
    assert items + [] == items;
    return Some(items);
  }

  class Reader {
    const p: Platform
    const buf: Bytes
    var pos: nat

    ghost predicate Valid()
      reads this
    {
      pos <= |buf|
    }

    /** What is still to be read. */
    ghost function Rest(): Bytes
      requires Valid()
      reads this
    {
      buf[pos..]
    }

    constructor (p: Platform, buf: Bytes)
      ensures Valid() && Rest() == buf && this.p == p && this.buf == buf
    {
      this.p := p;
      this.buf := buf;
      pos := 0;
    }

    method Header(expected: Byte) returns (r: Option<nat>)
      requires Valid()
      modifies this
      ensures Valid()
      ensures Refines(ReadHeader(old(Rest()), expected), r, Rest())
    {
      if pos + 5 > |buf| {
        return None;
      }
      if buf[pos] != expected {
        return None;
      }
      var len := FromBigEndian(buf[pos + 1..pos + 5]);
      assert buf[pos..][1..5] == buf[pos + 1..pos + 5] && buf[pos..][5..] == buf[pos + 5..];
      pos := pos + 5;
      if pos + len > |buf| {
        return None;
      }
      return Some(len);
    }

    /** The body of a field with the given tag; `bytes()` and the start of every other method. */
    method Body(tag: Byte) returns (r: Option<Bytes>)
      requires Valid()
      modifies this
      ensures Valid()
      ensures Refines(ReadBytes(old(Rest()), tag), r, Rest())
    {
      var len :- Header(tag);
      r := Some(buf[pos..pos + len]);
      assert buf[pos..][..len] == buf[pos..pos + len] && buf[pos..][len..] == buf[pos + len..];
      pos := pos + len;
    }

    method Text() returns (r: Option<Str>)
      requires Valid()
      modifies this
      ensures Valid()
      ensures Refines(ReadStr(p.utf8, old(Rest())), r, Rest())
    {
      var x :- Body(TAG_STRING);
      return Some(p.utf8(x));
    }

    method Uint() returns (r: Option<nat>)
      requires Valid()
      modifies this
      ensures Valid()
      ensures Refines(ReadUint(old(Rest())), r, Rest())
    {
      var x :- Body(TAG_UINT);
      if |x| != 8 || FromBigEndian(x) > MAX_SAFE_INTEGER {
        return None;
      }
      return Some(FromBigEndian(x));
    }

    /** `peekTag` and, when the field is absent, its header. */
    method Absent() returns (r: Option<bool>)
      requires Valid()
      modifies this
      ensures Valid()
      ensures match ReadAbsent(false, old(Rest()))
              case None => r.None?
              case Some(None) => r == Some(false) && Rest() == old(Rest())
              case Some(Some(t)) => r == Some(true) && Rest() == t
    {
      if pos + 5 > |buf| {
        return None;
      }
      if buf[pos] != TAG_ABSENT {
        return Some(false);
      }
      var _ :- Header(TAG_ABSENT);
      return Some(true);
    }

    method NullableText() returns (r: Option<Option<Str>>)
      requires Valid()
      modifies this
      ensures Valid()
      ensures Refines(ReadSubject(p.utf8, false, old(Rest())), r, Rest())
    {
      var absent :- Absent();
      if absent {
        return Some(None);
      }
      var x :- Text();
      return Some(Some(x));
    }

    method NullableBool() returns (r: Option<Option<bool>>)
      requires Valid()
      modifies this
      ensures Valid()
      ensures Refines(ReadAiMode(false, old(Rest())), r, Rest())
    {
      var absent :- Absent();
      if absent {
        return Some(None);
      }
      var x :- Body(TAG_BOOL);
      if |x| != 1 || x[0] > 1 {
        return None;
      }
      return Some(Some(x[0] == 1));
    }

    method NullableArray() returns (r: Option<Option<seq<Str>>>)
      requires Valid()
      modifies this
      ensures Valid()
      ensures Refines(ReadMembers(p.utf8, false, old(Rest())), r, Rest())
    {
      var absent :- Absent();
      if absent {
        return Some(None);
      }
      var len :- Header(TAG_ARRAY);
      var end := pos + len;
      if pos + 4 > end {
        return None;
      }
      var count := FromBigEndian(buf[pos..pos + 4]);
      assert buf[pos..][..len] == buf[pos..end] && buf[pos..][len..] == buf[end..];
      CountAt(buf, pos, end);
      ItemAt(buf, pos, end, 0);
      pos := pos + 4;
      var items :- Elements(p.utf8, buf, pos, end, count);
      pos := end;
      return Some(Some(items));
    }

    method AtEnd() returns (b: bool)
      requires Valid()
      ensures b <==> Rest() == []
    {
      b := pos == |buf|;
    }
  }

  method DecodeUnsigned(r: Reader) returns (u: Option<Unsigned>)
    requires r.Valid()
    modifies r
    ensures r.Valid()
    ensures Refines(ReadUnsigned(r.p.utf8, false, old(r.Rest())), u, r.Rest())
  {
    var name :- r.Text();
    var conversationId :- r.Text();
    var seqNo :- r.Uint();
    var prevHash :- r.Body(TAG_BYTES);
    var kind :- KindOf(name);
    var author :- r.Text();
    var subject :- r.NullableText();
    var aiMode :- r.NullableBool();
    var members :- r.NullableArray();
    var key :- r.Body(TAG_BYTES);
    return Some(Unsigned(kind, conversationId, seqNo, prevHash, author, subject, aiMode, members, key));
  }

  /** `decodeOp`, through the cursor and the re-encoding check. */
  method Decode(p: Platform, b: Bytes) returns (r: Option<Op>)
    ensures r == DecodeOp(p, b)
  {
    var reader := new Reader(p, b);
    var body :- DecodeUnsigned(reader);
    var sig :- reader.Body(TAG_BYTES);
    var ended := reader.AtEnd();
    if !ended {
      return None;
    }
    var again := EncodeFields(body, Some(sig));
    if again != Some(b) {
      return None;
    }
    return Some(Op(body, sig));
  }
}
