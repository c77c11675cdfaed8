// Decoding undoes encoding, for every schema and every message of it.
module ProtobufRoundTrip {
  import opened Wrappers
  import opened Varint
  import opened Protobuf

  // Field numbers as the Protocol Buffers language allows them, none used twice.
  ghost predicate ValidSchema(s: Schema) {
    && (forall k :: 0 <= k < |s.fields| ==> 0 < s.fields[k].num < 0x2000_0000 && ValidKind(s.fields[k].kind))
    && forall j, k :: 0 <= j < k < |s.fields| ==> s.fields[j].num != s.fields[k].num
  }

  ghost predicate ValidKind(kind: Kind) {
    match kind
    case MessageKind(s) => ValidSchema(s)
    case RepeatedMessageKind(s) => ValidSchema(s)
    case _ => true
  }

  // One value per field, each in the range of its Go type, and unrecognized bytes that are unknown fields.
  ghost predicate WellFormed(s: Schema, m: Message)
    decreases m
  {
    && |m.values| == |s.fields|
    && (forall k :: 0 <= k < |m.values| ==> HasKind(s.fields[k].kind, m.values[k]))
    && UnknownFields(s, m.unrecognized)
  }

  ghost predicate HasKind(kind: Kind, v: Value)
    decreases v
  {
    match kind
    case StringKind => v.StringValue?
    case Int64Kind => v.IntValue? && -TWO63 <= v.x < TWO63
    case Int32Kind => v.IntValue? && -TWO31 <= v.x < TWO31
    case BoolKind => v.BoolValue?
    case RepeatedStringKind => v.StringsValue?
    case MessageKind(s) => v.MessageValue? && (v.m.Some? ==> WellFormed(s, v.m.value))
    case RepeatedMessageKind(s) => v.MessagesValue? && forall j :: 0 <= j < |v.ms| ==> WellFormed(s, v.ms[j])
  }

  // A sequence of complete fields, groups included, whose numbers the schema does not have.
  ghost predicate UnknownFields(s: Schema, u: seq<Byte>)
    decreases |u|
  {
    u == [] || (IsUnknownTag(s, u) && var n := Skip(u, 0, 0); n.Ok? && n.value <= |u| && UnknownFields(s, u[n.value..]))
  }

  ghost predicate IsUnknownTag(s: Schema, u: seq<Byte>) {
    var tag := ReadVarint(u, 0, 0, 0);
    && tag.Ok?
    && tag.value.value % 8 != 4
    && ToInt32(tag.value.value / 8) > 0
    && FieldIndex(s, ToInt32(tag.value.value / 8), 0).None?
  }

  // Reading at i in b is reading at 0 in b[i..].
  lemma {:induction false} ReadFromSuffix(b: seq<Byte>, start: nat, i: nat, n: nat, acc: Uint64)
    requires start <= i && start <= |b|
    ensures ReadVarint(b, i, n, acc) ==
            match ReadVarint(b[start..], i - start, n, acc) { case Err(e) => Err(e) case Ok(r) => Ok(Read(r.value, r.next + start)) }
    decreases 10 - n
  {
    ReadBounds(b, i, n, acc);
    if n < 10 && i < |b| {
      assert b[start..][i - start] == b[i];
      if b[i] >= 128 {
        ReadBounds(b, i + 1, n + 1, AddByte(acc, b[i], n));
        ReadFromSuffix(b, start, i + 1, n + 1, AddByte(acc, b[i], n));
      }
    }
  }

  /******* The unrecognized bytes *******/

  lemma {:induction false} UnknownTail(s: Schema, m: Message, b: seq<Byte>, i: nat)
    requires i <= |b| < TWO63 && |m.values| == |s.fields|
    requires UnknownFields(s, b[i..])
    ensures UnmarshalFrom(s, m, b, i) == Ok(m.(unrecognized := m.unrecognized + b[i..]))
    decreases |b| - i
  {
    hide ReadVarint, ToInt32, Skip, UnmarshalField;
    if i == |b| {
      assert m.unrecognized + b[i..] == m.unrecognized;
    } else {
      ReadFromSuffix(b, i, i, 0, 0);
      ReadBounds(b, i, 0, 0);
      var n := Skip(b[i..], 0, 0).value;
      assert b[i..][n..] == b[i + n..];
      var m' := m.(unrecognized := m.unrecognized + b[i..i + n]);
      UnknownTail(s, m', b, i + n);
      assert m'.unrecognized + b[i + n..] == m.unrecognized + b[i..];
    }
  }

  /******* One field *******/

  lemma {:induction false} EncodedPrefix(v: nat, b: seq<Byte>, i: nat, rest: seq<Byte>)
    requires i <= |b| && b[i..] == Encoded(v) + rest
    ensures i + |Encoded(v)| <= |b|
    ensures b[i..i + |Encoded(v)|] == Encoded(v) && b[i + |Encoded(v)|..] == rest
  {
    hide Encoded;
    var e := Encoded(v);
    assert |b[i..]| == |e| + |rest|;
    assert b[i..i + |e|] == b[i..][..|e|] == e;
    assert b[i + |e|..] == b[i..][|e|..] == rest;
  }

  lemma {:induction false} TagRead(f: Field, wireType: nat, b: seq<Byte>, i: nat, rest: seq<Byte>)
    requires 0 < f.num < 0x2000_0000 && wireType < 8
    requires i <= |b| && b[i..] == Tag(f.num, wireType) + rest
    ensures var tag := ReadVarint(b, i, 0, 0);
            && tag.Ok? && i < tag.value.next <= |b| && b[tag.value.next..] == rest
            && ToInt32(tag.value.value / 8) == f.num && tag.value.value % 8 == wireType
  {
    hide Encoded, ReadVarint, ToInt32;
    var v := 8 * f.num + wireType;
    EncodedPrefix(v, b, i, rest);
    ReadBack(b, i, v);
    ReadBounds(b, i, 0, 0);
    TagParts(f.num, wireType);
  }

  lemma {:induction false} TagParts(num: nat, wireType: nat)
    requires num < 0x2000_0000 && wireType < 8
    ensures 8 * num + wireType < TWO64
    ensures ToInt32((8 * num + wireType) / 8) == num && (8 * num + wireType) % 8 == wireType
  {
  }

  lemma {:induction false} FieldIndexOf(s: Schema, k: nat)
    requires ValidSchema(s) && k < |s.fields|
    ensures FieldIndex(s, s.fields[k].num, 0) == Some(k)
  {
    var r := FieldIndex(s, s.fields[k].num, 0);
    assert r.Some? && r.value <= k;
  }

  // A scalar field in front of `rest` sets the value and reading goes on with `rest`.
  lemma {:induction false} VarintStep(s: Schema, m: Message, k: nat, u: Uint64, b: seq<Byte>, i: nat, rest: seq<Byte>)
    requires ValidSchema(s) && |m.values| == |s.fields| && k < |s.fields| && s.fields[k].kind.IsVarint()
    requires i <= |b| && b[i..] == Tag(s.fields[k].num, 0) + (Encoded(u) + rest)
    ensures |rest| <= |b| && b[|b| - |rest|..] == rest
    ensures UnmarshalFrom(s, m, b, i) ==
            UnmarshalFrom(s, m.(values := m.values[k := FromVarint(s.fields[k].kind, u)]), b, |b| - |rest|)
  {
    hide Encoded, ReadVarint, ToInt32;
    TagRead(s.fields[k], 0, b, i, Encoded(u) + rest);
    FieldIndexOf(s, k);
    var j := ReadVarint(b, i, 0, 0).value.next;
    EncodedPrefix(u, b, j, rest);
    ReadBack(b, j, u);
  }

  lemma {:induction false} LengthRead(b: seq<Byte>, j: nat, payload: seq<Byte>, rest: seq<Byte>)
    requires j <= |b| < TWO63 && b[j..] == Encoded(|payload|) + (payload + rest)
    ensures |rest| + |payload| <= |b| && b[|b| - |rest|..] == rest
    ensures ReadLength(b, j) == Ok((|b| - |rest| - |payload|, |b| - |rest|))
    ensures b[|b| - |rest| - |payload|..|b| - |rest|] == payload
  {
    hide Encoded, ReadVarint;
    EncodedPrefix(|payload|, b, j, payload + rest);
    ReadBack(b, j, |payload|);
    var start := j + |Encoded(|payload|)|;
    assert |b[start..]| == |payload| + |rest|;
    assert b[start..start + |payload|] == b[start..][..|payload|] == payload;
    assert b[start + |payload|..] == b[start..][|payload|..] == rest;
  }

  lemma {:induction false} DelimitedParts(num: nat, payload: seq<Byte>, rest: seq<Byte>)
    ensures Delimited(num, payload) + rest == Tag(num, 2) + (Encoded(|payload|) + (payload + rest))
  {
    hide Encoded, Tag;
  }

  // A length-delimited field in front of `rest` is absorbed and reading goes on with `rest`.
  lemma {:induction false} DelimitedStep(s: Schema, m: Message, k: nat, payload: seq<Byte>, b: seq<Byte>, i: nat,
                                         rest: seq<Byte>)
    requires ValidSchema(s) && |m.values| == |s.fields| && k < |s.fields| && !s.fields[k].kind.IsVarint()
    requires i <= |b| < TWO63 && b[i..] == Delimited(s.fields[k].num, payload) + rest
    requires Absorb(s.fields[k].kind, m.values[k], payload).Ok?
    ensures |rest| <= |b| && b[|b| - |rest|..] == rest
    ensures UnmarshalFrom(s, m, b, i) ==
            UnmarshalFrom(s, m.(values := m.values[k := Absorb(s.fields[k].kind, m.values[k], payload).value]), b, |b| - |rest|)
  {
    hide Encoded, Tag, Delimited, ReadVarint, ReadLength, ToInt32, Absorb, Skip;
    DelimitedParts(s.fields[k].num, payload, rest);
    TagRead(s.fields[k], 2, b, i, Encoded(|payload|) + (payload + rest));
    FieldIndexOf(s, k);
    LengthRead(b, ReadVarint(b, i, 0, 0).value.next, payload, rest);
  }

  /******* Whole messages *******/

  // The message after fields 0..k have been read.
  ghost function Partial(s: Schema, m: Message, k: nat): Message
    requires k <= |m.values| == |s.fields|
  {
    Message(m.values[..k] + Empty(s).values[k..], [])
  }

  lemma {:induction false} PartialStep(s: Schema, m: Message, k: nat)
    requires k < |m.values| == |s.fields|
    ensures |Partial(s, m, k).values| == |s.fields| && Partial(s, m, k).values[k] == s.fields[k].kind.Default()
    ensures Partial(s, m, k + 1) == Partial(s, m, k).(values := Partial(s, m, k).values[k := m.values[k]])
  {
  }

  // UnmarshalFrom of the rest of the encoding completes the message.
  lemma {:induction false} RoundTripFrom(s: Schema, m: Message, k: nat, b: seq<Byte>, i: nat)
    requires ValidSchema(s) && WellFormed(s, m) && k <= |s.fields|
    requires i <= |b| < TWO63 && b[i..] == EncodeFrom(s, m, k)
    ensures UnmarshalFrom(s, Partial(s, m, k), b, i) == Ok(m)
    decreases m, 2, |s.fields| - k
  {
    hide UnmarshalFrom, Encoded, Empty;
    if k == |s.fields| {
      UnknownTail(s, Partial(s, m, k), b, i);
      assert m.values[..k] + Empty(s).values[k..] == m.values;
      assert [] + m.unrecognized == m.unrecognized;
    } else {
      var p := Partial(s, m, k);
      PartialStep(s, m, k);
      var rest := EncodeFrom(s, m, k + 1);
      FieldRoundTrip(s, p, k, m.values[k], b, i, rest);
      RoundTripFrom(s, m, k + 1, b, |b| - |rest|);
    }
  }

  // Reading the encoding of one field turns its default into the value that was written.
  lemma {:induction false} FieldRoundTrip(s: Schema, p: Message, k: nat, v: Value, b: seq<Byte>, i: nat,
                                          rest: seq<Byte>)
    requires ValidSchema(s) && |p.values| == |s.fields| && k < |s.fields|
    requires HasKind(s.fields[k].kind, v) && p.values[k] == s.fields[k].kind.Default()
    requires i <= |b| < TWO63 && b[i..] == EncodeField(s.fields[k], v) + rest
    ensures |rest| <= |b| && b[|b| - |rest|..] == rest
    ensures UnmarshalFrom(s, p, b, i) == UnmarshalFrom(s, p.(values := p.values[k := v]), b, |b| - |rest|)
    decreases v, 1, 0
  {
    hide UnmarshalFrom, Encoded, WellFormed;
    var f := s.fields[k];
    if EncodeField(f, v) == [] && v == f.kind.Default() {
      assert b[i..] == rest;
      assert p.values[k := v] == p.values;
    } else {
      match v
      case StringValue(payload) =>
        DelimitedStep(s, p, k, payload, b, i, rest);
      case IntValue(x) =>
        SignedRoundTrip(x);
        assert b[i..] == Tag(f.num, 0) + (Encoded(FromInt64(x)) + rest);
        VarintStep(s, p, k, FromInt64(x), b, i, rest);
      case BoolValue(_) =>
        OneByte();
        assert b[i..] == Tag(f.num, 0) + (Encoded(1) + rest);
        VarintStep(s, p, k, 1, b, i, rest);
      case StringsValue(ss) =>
        assert p.values[k := StringsValue(ss[..0])] == p.values;
        StringsRoundTrip(s, p, k, ss, 0, b, i, rest);
        assert ss[..|ss|] == ss;
      case MessageValue(m) =>
        Nested(f.kind.schema, m.value, b, i, f.num, rest);
        DelimitedStep(s, p, k, Encode(f.kind.schema, m.value), b, i, rest);
      case MessagesValue(ms) =>
        assert p.values[k := MessagesValue(ms[..0])] == p.values;
        MessagesRoundTrip(s, p, k, v, 0, b, i, rest);
        assert ms[..|ms|] == ms;
    }
  }

  lemma {:induction false} OneByte()
    ensures Encoded(1) == [1]
  {
  }

  // The payload of a nested message is shorter than the buffer, and it is read back into an empty message.
  lemma {:induction false} Nested(s: Schema, m: Message, b: seq<Byte>, i: nat, num: nat, rest: seq<Byte>)
    requires ValidSchema(s) && WellFormed(s, m)
    requires i <= |b| < TWO63 && b[i..] == Delimited(num, Encode(s, m)) + rest
    ensures UnmarshalFrom(s, Empty(s), Encode(s, m), 0) == Ok(m)
    decreases m, 3, 0
  {
    hide UnmarshalFrom, Encoded;
    var e := Encode(s, m);
    assert |b[i..]| >= |e|;
    assert e[0..] == e;
    assert Partial(s, m, 0) == Empty(s);
    RoundTripFrom(s, m, 0, e, 0);
  }

  lemma {:induction false} StringsRoundTrip(s: Schema, p: Message, k: nat, ss: seq<seq<Byte>>, j: nat, b: seq<Byte>,
                                            i: nat, rest: seq<Byte>)
    requires ValidSchema(s) && |p.values| == |s.fields| && k < |s.fields| && s.fields[k].kind.RepeatedStringKind?
    requires j <= |ss| && i <= |b| < TWO63 && b[i..] == EncodeStrings(s.fields[k].num, ss, j) + rest
    ensures |rest| <= |b| && b[|b| - |rest|..] == rest
    ensures UnmarshalFrom(s, p.(values := p.values[k := StringsValue(ss[..j])]), b, i) ==
            UnmarshalFrom(s, p.(values := p.values[k := StringsValue(ss)]), b, |b| - |rest|)
    decreases |ss| - j
  {
    hide UnmarshalFrom, Encoded;
    var num := s.fields[k].num;
    if j == |ss| {
      assert b[i..] == rest;
      assert ss[..j] == ss;
    } else {
      var q := p.(values := p.values[k := StringsValue(ss[..j])]);
      var rest' := EncodeStrings(num, ss, j + 1) + rest;
      assert b[i..] == Delimited(num, ss[j]) + rest';
      DelimitedStep(s, q, k, ss[j], b, i, rest');
      assert ss[..j] + [ss[j]] == ss[..j + 1];
      assert q.values[k := StringsValue(ss[..j + 1])] == p.values[k := StringsValue(ss[..j + 1])];
      StringsRoundTrip(s, p, k, ss, j + 1, b, |b| - |rest'|, rest);
    }
  }

  lemma {:induction false} MessagesRoundTrip(s: Schema, p: Message, k: nat, v: Value, j: nat, b: seq<Byte>, i: nat,
                                             rest: seq<Byte>)
    requires ValidSchema(s) && |p.values| == |s.fields| && k < |s.fields| && s.fields[k].kind.RepeatedMessageKind?
    requires HasKind(s.fields[k].kind, v) && j <= |v.ms|
    requires i <= |b| < TWO63 && b[i..] == EncodeMessages(s.fields[k], v, j) + rest
    ensures |rest| <= |b| && b[|b| - |rest|..] == rest
    ensures UnmarshalFrom(s, p.(values := p.values[k := MessagesValue(v.ms[..j])]), b, i) ==
            UnmarshalFrom(s, p.(values := p.values[k := v]), b, |b| - |rest|)
    decreases v, 0, |v.ms| - j
  {
    hide UnmarshalFrom, Encoded, WellFormed;
    var f, ms := s.fields[k], v.ms;
    if j == |ms| {
      assert b[i..] == rest;
      assert ms[..j] == ms;
    } else {
      var q := p.(values := p.values[k := MessagesValue(ms[..j])]);
      var rest' := EncodeMessages(f, v, j + 1) + rest;
      assert b[i..] == Delimited(f.num, Encode(f.kind.schema, ms[j])) + rest';
      Nested(f.kind.schema, ms[j], b, i, f.num, rest');
      DelimitedStep(s, q, k, Encode(f.kind.schema, ms[j]), b, i, rest');
      assert ms[..j] + [ms[j]] == ms[..j + 1];
      assert q.values[k := MessagesValue(ms[..j + 1])] == p.values[k := MessagesValue(ms[..j + 1])];
      MessagesRoundTrip(s, p, k, v, j + 1, b, |b| - |rest'|, rest);
    }
  }

  // Decoding undoes encoding; ProtobufWire says the same of the buffers.
  lemma {:induction false} RoundTrip(s: Schema, m: Message)
    requires ValidSchema(s) && WellFormed(s, m) && |Encode(s, m)| < TWO63
    ensures Unmarshal(s, Encode(s, m)) == Ok(m)
  {
    var e := Encode(s, m);
    assert e[0..] == e;
    assert Partial(s, m, 0) == Empty(s);
    RoundTripFrom(s, m, 0, e, 0);
  }
}
