// Whatever bytes a message was decoded from, it is a message that survives being encoded and decoded again.
module ProtobufDecoded {
  import opened Wrappers
  import opened Varint
  import opened Protobuf
  import opened ProtobufRoundTrip

  /******* Skipping looks at nothing behind the skipped field *******/

  lemma {:induction false} ReadAgrees(b: seq<Byte>, c: seq<Byte>, i: nat, n: nat, acc: Uint64)
    requires b <= c
    ensures var r, q := ReadVarint(b, i, n, acc), ReadVarint(c, i, n, acc);
            (r.Ok? || (q.Ok? && q.value.next <= |b|)) ==> r == q
    decreases 10 - n
  {
    ReadBounds(c, i, n, acc);
    if n < 10 && i < |b| && b[i] >= 128 {
      ReadAgrees(b, c, i + 1, n + 1, AddByte(acc, b[i], n));
    }
  }

  lemma {:induction false} SkipVarintAgrees(b: seq<Byte>, c: seq<Byte>, i: nat, n: nat, depth: nat)
    requires b <= c
    ensures var r, q := SkipVarint(b, i, n, depth), SkipVarint(c, i, n, depth);
            (r.Ok? || (q.Ok? && q.value.0 <= |b|)) ==> r == q
    ensures SkipVarint(c, i, n, depth).Ok? ==> SkipVarint(c, i, n, depth).value.0 > i
    decreases 10 - n
  {
    if n < 10 && i < |c| && c[i] >= 128 {
      SkipVarintAgrees(b, c, i + 1, n + 1, depth);
    }
  }

  lemma {:induction false} SkipPayloadAgrees(b: seq<Byte>, c: seq<Byte>, i: nat, wireType: int, depth: nat)
    requires b <= c
    ensures var r, q := SkipPayload(b, i, wireType, depth), SkipPayload(c, i, wireType, depth);
            ((r.Ok? && r.value.0 <= |b|) || (q.Ok? && q.value.0 <= |b|)) ==> r == q
  {
    SkipVarintAgrees(b, c, i, 0, depth);
    ReadAgrees(b, c, i, 0, 0);
    ReadBounds(c, i, 0, 0);
  }

  lemma {:induction false} SkipAgrees(b: seq<Byte>, c: seq<Byte>, i: nat, depth: nat)
    requires b <= c
    ensures var r, q := Skip(b, i, depth), Skip(c, i, depth);
            ((r.Ok? && r.value <= |b|) || (q.Ok? && q.value <= |b|)) ==> r == q
    decreases if i <= |c| then |c| - i else 0
  {
    hide ReadVarint, SkipPayload;
    if i < |c| {
      ReadAgrees(b, c, i, 0, 0);
      ReadBounds(c, i, 0, 0);
      var tag := ReadVarint(c, i, 0, 0);
      if tag.Ok? {
        SkipPayloadAgrees(b, c, tag.value.next, tag.value.value % 8, depth);
        var skipped := SkipPayload(c, tag.value.next, tag.value.value % 8, depth);
        if skipped.Ok? {
          SkipAgrees(b, c, skipped.value.0, skipped.value.1);
        }
      }
    }
  }

  /******* Unrecognized bytes *******/

  lemma {:induction false} UnknownAppend(s: Schema, u: seq<Byte>, w: seq<Byte>)
    requires UnknownFields(s, u) && UnknownFields(s, w)
    ensures UnknownFields(s, u + w)
    decreases |u|
  {
    hide Skip, ReadVarint, ToInt32;
    if u == [] {
      assert u + w == w;
    } else {
      var n := Skip(u, 0, 0).value;
      SkipAgrees(u, u + w, 0, 0);
      ReadAgrees(u, u + w, 0, 0, 0);
      UnknownAppend(s, u[n..], w);
      assert (u + w)[n..] == u[n..] + w;
    }
  }

  // The bytes that the default case appends are one unknown field.
  lemma {:induction false} SkippedIsUnknown(s: Schema, b: seq<Byte>, i: nat, n: nat)
    requires i < |b| && Skip(b[i..], 0, 0) == Ok(n) && i + n <= |b|
    requires IsUnknownTag(s, b[i..])
    ensures UnknownFields(s, b[i..i + n])
  {
    hide Skip, ReadVarint, ToInt32;
    var w := b[i..i + n];
    assert w <= b[i..];
    SkipAgrees(w, b[i..], 0, 0);
    TagWithin(b[i..], n);
    ReadAgrees(w, b[i..], 0, 0, 0);
    assert w[n..] == [];
  }

  lemma {:induction false} TagWithin(b: seq<Byte>, n: nat)
    requires Skip(b, 0, 0) == Ok(n)
    ensures ReadVarint(b, 0, 0, 0).Ok? && ReadVarint(b, 0, 0, 0).value.next <= n
  {
    hide ReadVarint, SkipPayload;
  }

  /******* Decoded messages *******/

  lemma {:induction false} EmptyIsWellFormed(s: Schema)
    ensures WellFormed(s, Empty(s))
  {
  }

  lemma {:induction false} FromVarintHasKind(kind: Kind, u: Uint64)
    requires kind.IsVarint()
    ensures HasKind(kind, FromVarint(kind, u))
  {
  }

  lemma {:induction false} AbsorbedHasKind(kind: Kind, v: Value, payload: seq<Byte>)
    requires HasKind(kind, v) && !kind.IsVarint() && Absorb(kind, v, payload).Ok?
    ensures HasKind(kind, Absorb(kind, v, payload).value)
    decreases |payload|, 1
  {
    hide UnmarshalFrom, WellFormed;
    match kind
    case MessageKind(s) =>
      EmptyIsWellFormed(s);
      WellFormedShape(s, Existing(s, v));
      DecodedIsWellFormed(s, Existing(s, v), payload, 0);
    case RepeatedMessageKind(s) =>
      EmptyIsWellFormed(s);
      DecodedIsWellFormed(s, Empty(s), payload, 0);
    case _ =>
  }

  lemma {:induction false} WellFormedShape(s: Schema, m: Message)
    requires WellFormed(s, m)
    ensures |m.values| == |s.fields|
  {
  }

  lemma {:induction false} DecodedIsWellFormed(s: Schema, m: Message, b: seq<Byte>, i: nat)
    requires i <= |b| && WellFormed(s, m) && UnmarshalFrom(s, m, b, i).Ok?
    ensures WellFormed(s, UnmarshalFrom(s, m, b, i).value)
    decreases |b| - i, 0
  {
    hide ReadVarint, ToInt32, Skip, Absorb, FromVarint;
    if i < |b| {
      ReadBounds(b, i, 0, 0);
      var tag := ReadVarint(b, i, 0, 0).value;
      var num, wireType := ToInt32(tag.value / 8), tag.value % 8;
      match FieldIndex(s, num, 0)
      case Some(k) =>
        var kind := s.fields[k].kind;
        var field := UnmarshalField(kind, m.values[k], wireType, b, tag.next).value;
        FieldHasKind(kind, m.values[k], wireType, b, tag.next);
        DecodedIsWellFormed(s, m.(values := m.values[k := field.0]), b, field.1);
      case None =>
        var n := Skip(b[i..], 0, 0).value;
        ReadFromSuffix(b, i, i, 0, 0);
        SkippedIsUnknown(s, b, i, n);
        UnknownAppend(s, m.unrecognized, b[i..i + n]);
        DecodedIsWellFormed(s, m.(unrecognized := m.unrecognized + b[i..i + n]), b, i + n);
    }
  }

  lemma {:induction false} FieldHasKind(kind: Kind, v: Value, wireType: int, b: seq<Byte>, i: nat)
    requires i <= |b| && HasKind(kind, v) && UnmarshalField(kind, v, wireType, b, i).Ok?
    ensures HasKind(kind, UnmarshalField(kind, v, wireType, b, i).value.0)
    decreases |b| - i, 1
  {
    hide ReadVarint, Absorb, FromVarint, HasKind;
    if kind.IsVarint() {
      FromVarintHasKind(kind, ReadVarint(b, i, 0, 0).value.value);
    } else {
      var span := ReadLength(b, i).value;
      AbsorbedHasKind(kind, v, b[span.0..span.1]);
    }
  }

  // Every message that decoding returns survives a second round trip.
  lemma {:induction false} DecodedSurvives(s: Schema, b: seq<Byte>)
    requires ValidSchema(s) && Unmarshal(s, b).Ok?
    requires |Encode(s, Unmarshal(s, b).value)| < TWO63
    ensures Unmarshal(s, Encode(s, Unmarshal(s, b).value)) == Unmarshal(s, b)
  {
    EmptyIsWellFormed(s);
    DecodedIsWellFormed(s, Empty(s), b, 0);
    RoundTrip(s, Unmarshal(s, b).value);
  }
}
