// Parsing two messages that stand one behind the other merges the second into the first, and what makes a field an
// error.
module ProtobufMerge {
  import opened Wrappers
  import opened Varint
  import opened Protobuf
  import opened ProtobufRoundTrip
  import opened ProtobufDecoded

  // The same message, or an error in both cases; which one may depend on where in the buffer it occurs.
  ghost predicate Same<T>(r: Result<T, Error>, q: Result<T, Error>) { r.Ok? == q.Ok? && (r.Ok? ==> r == q) }

  /******* Concatenation *******/

  // A field that is complete in b is the same field in every longer buffer.
  lemma {:induction false} FieldAgrees(kind: Kind, v: Value, wireType: int, b: seq<Byte>, c: seq<Byte>, i: nat)
    requires b <= c && |c| < TWO63 && i <= |b| && UnmarshalField(kind, v, wireType, b, i).Ok?
    ensures UnmarshalField(kind, v, wireType, c, i) == UnmarshalField(kind, v, wireType, b, i)
  {
    hide ReadVarint, Absorb;
    ReadAgrees(b, c, i, 0, 0);
    ReadBounds(b, i, 0, 0);
    if !kind.IsVarint() {
      var span := ReadLength(b, i).value;
      assert ReadLength(c, i) == Ok(span) && c[span.0..span.1] == b[span.0..span.1];
    }
  }

  // If b is a message, then a buffer that begins with b is parsed by going on behind it.
  lemma {:induction false} PrefixParses(s: Schema, m: Message, b: seq<Byte>, c: seq<Byte>, i: nat)
    requires b <= c && |c| < TWO63 && i <= |b| && |m.values| == |s.fields| && UnmarshalFrom(s, m, b, i).Ok?
    ensures var m' := UnmarshalFrom(s, m, b, i).value;
            |m'.values| == |s.fields| && UnmarshalFrom(s, m, c, i) == UnmarshalFrom(s, m', c, |b|)
    decreases |b| - i
  {
    hide ReadVarint, UnmarshalField, Skip, FieldIndex;
    if i < |b| {
      ReadAgrees(b, c, i, 0, 0);
      ReadBounds(b, i, 0, 0);
      var tag := ReadVarint(b, i, 0, 0).value;
      var f := FieldIndex(s, ToInt32(tag.value / 8), 0);
      if f.Some? {
        var field := UnmarshalField(s.fields[f.value].kind, m.values[f.value], tag.value % 8, b, tag.next).value;
        FieldAgrees(s.fields[f.value].kind, m.values[f.value], tag.value % 8, b, c, tag.next);
        PrefixParses(s, m.(values := m.values[f.value := field.0]), b, c, field.1);
      } else {
        assert b[i..] <= c[i..];
        SkipAgrees(b[i..], c[i..], 0, 0);
        var n := Skip(b[i..], 0, 0).value;
        assert b[i..i + n] == c[i..i + n];
        PrefixParses(s, m.(unrecognized := m.unrecognized + b[i..i + n]), b, c, i + n);
      }
    }
  }

  lemma {:induction false} LengthOfSuffix(c: seq<Byte>, start: nat, i: nat)
    requires start <= i <= |c| < TWO63
    ensures var r, q := ReadLength(c, i), ReadLength(c[start..], i - start);
            && r.Ok? == q.Ok? && (r.Ok? ==> q.value == (r.value.0 - start, r.value.1 - start))
            && (r.Ok? ==> c[start..][r.value.0 - start..r.value.1 - start] == c[r.value.0..r.value.1])
  {
    hide ReadVarint;
    ReadFromSuffix(c, start, i, 0, 0);
    ReadBounds(c, i, 0, 0);
  }

  lemma {:induction false} FieldOfSuffix(kind: Kind, v: Value, wireType: int, c: seq<Byte>, start: nat, i: nat)
    requires start <= i <= |c| < TWO63
    ensures var r, q := UnmarshalField(kind, v, wireType, c, i), UnmarshalField(kind, v, wireType, c[start..], i - start);
            r.Ok? == q.Ok? && (r.Ok? ==> q.value == (r.value.0, r.value.1 - start))
  {
    hide ReadVarint, ReadLength, Absorb;
    ReadFromSuffix(c, start, i, 0, 0);
    ReadBounds(c, i, 0, 0);
    LengthOfSuffix(c, start, i);
  }

  // Where in the buffer a message stands does not matter.
  lemma {:induction false} SuffixParses(s: Schema, m: Message, c: seq<Byte>, start: nat, i: nat)
    requires start <= i <= |c| < TWO63 && |m.values| == |s.fields|
    ensures Same(UnmarshalFrom(s, m, c, i), UnmarshalFrom(s, m, c[start..], i - start))
    decreases |c| - i
  {
    hide ReadVarint, UnmarshalField, Skip, FieldIndex;
    if i < |c| {
      ReadFromSuffix(c, start, i, 0, 0);
      ReadBounds(c, i, 0, 0);
      var tag := ReadVarint(c, i, 0, 0);
      if tag.Ok? {
        var f := FieldIndex(s, ToInt32(tag.value.value / 8), 0);
        if f.Some? {
          var kind, v, wireType := s.fields[f.value].kind, m.values[f.value], tag.value.value % 8;
          FieldOfSuffix(kind, v, wireType, c, start, tag.value.next);
          var field := UnmarshalField(kind, v, wireType, c, tag.value.next);
          if field.Ok? {
            SuffixParses(s, m.(values := m.values[f.value := field.value.0]), c, start, field.value.1);
          }
        } else {
          assert c[start..][i - start..] == c[i..];
          var n := Skip(c[i..], 0, 0);
          if n.Ok? && i + n.value <= |c| {
            assert c[start..][i - start..i - start + n.value] == c[i..i + n.value];
            SuffixParses(s, m.(unrecognized := m.unrecognized + c[i..i + n.value]), c, start, i + n.value);
          }
        }
      }
    }
  }

  // Parsing a message and then another into it is parsing them as one.
  lemma {:induction false} ConcatenationMerges(s: Schema, m: Message, a: seq<Byte>, b: seq<Byte>)
    requires |a + b| < TWO63 && |m.values| == |s.fields| && UnmarshalFrom(s, m, a, 0).Ok?
    ensures var m' := UnmarshalFrom(s, m, a, 0).value;
            |m'.values| == |s.fields| && Same(UnmarshalFrom(s, m, a + b, 0), UnmarshalFrom(s, m', b, 0))
  {
    hide UnmarshalFrom;
    PrefixParses(s, m, a, a + b, 0);
    SuffixParses(s, UnmarshalFrom(s, m, a, 0).value, a + b, |a|, |a|);
    assert (a + b)[|a|..] == b;
  }

  // An embedded message that occurs twice is merged: it is the message that the two payloads give together.
  lemma {:induction false} EmbeddedFieldsMerge(s: Schema, k: nat, p: seq<Byte>, q: seq<Byte>, rest: seq<Byte>)
    requires ValidSchema(s) && k < |s.fields| && s.fields[k].kind.MessageKind?
    requires Unmarshal(s.fields[k].kind.schema, p).Ok? && Unmarshal(s.fields[k].kind.schema, p + q).Ok?
    requires |Delimited(s.fields[k].num, p) + Delimited(s.fields[k].num, q) + rest| < TWO63
    requires |Delimited(s.fields[k].num, p + q) + rest| < TWO63
    ensures var num := s.fields[k].num;
            Same(Unmarshal(s, Delimited(num, p) + Delimited(num, q) + rest), Unmarshal(s, Delimited(num, p + q) + rest))
  {
    hide UnmarshalFrom, Delimited;
    var num, t, m := s.fields[k].num, s.fields[k].kind.schema, Empty(s);
    var two, one := Delimited(num, p) + Delimited(num, q) + rest, Delimited(num, p + q) + rest;
    ShorterThanField(num, p + q);
    ConcatenationMerges(t, Empty(t), p, q);
    var first, both := Unmarshal(t, p).value, MessageValue(Some(Unmarshal(t, p + q).value));
    assert two[0..] == Delimited(num, p) + (Delimited(num, q) + rest);
    DelimitedStep(s, m, k, p, two, 0, Delimited(num, q) + rest);
    var m1 := m.(values := m.values[k := MessageValue(Some(first))]);
    DelimitedStep(s, m1, k, q, two, |two| - |Delimited(num, q) + rest|, rest);
    assert one[0..] == one;
    DelimitedStep(s, m, k, p + q, one, 0, rest);
    var m2 := m.(values := m.values[k := both]);
    assert m1.(values := m1.values[k := both]) == m2;
    SuffixParses(s, m2, two, |two| - |rest|, |two| - |rest|);
    SuffixParses(s, m2, one, |one| - |rest|, |one| - |rest|);
  }

  lemma {:induction false} ShorterThanField(num: nat, payload: seq<Byte>)
    ensures |payload| <= |Delimited(num, payload)|
  {
    hide Encoded, Tag;
  }

  /******* Errors *******/

  // A field of the schema with another wire type than its own is an error, wherever it stands.
  lemma {:induction false} WrongWireTypeIsRefused(s: Schema, m: Message, k: nat, wireType: nat, b: seq<Byte>, i: nat,
                                                  rest: seq<Byte>)
    requires ValidSchema(s) && |m.values| == |s.fields| && k < |s.fields| && i <= |b|
    requires b[i..] == Tag(s.fields[k].num, wireType) + rest
    requires wireType in {0, 1, 2, 3, 5, 6, 7} && wireType != (if s.fields[k].kind in {Int64Kind, Int32Kind, BoolKind} then 0 else 2)
    ensures UnmarshalFrom(s, m, b, i) == Err(WrongWireType)
  {
    hide Tag, ReadVarint, ToInt32;
    TagRead(s.fields[k], wireType, b, i, rest);
    FieldIndexOf(s, k);
  }

  // A length that is negative as a 64-bit number, or whose end is, is invalid; one that ends behind the buffer is one
  // of
  // a truncated message.
  lemma {:induction false} LengthIsChecked(s: Schema, m: Message, k: nat, v: Uint64, b: seq<Byte>, i: nat,
                                           rest: seq<Byte>)
    requires ValidSchema(s) && |m.values| == |s.fields| && k < |s.fields| && i <= |b| && v > |rest|
    requires s.fields[k].kind !in {Int64Kind, Int32Kind, BoolKind}
    requires b[i..] == Tag(s.fields[k].num, 2) + (Encoded(v) + rest)
    ensures |rest| <= |b|
    ensures UnmarshalFrom(s, m, b, i) == Err(if v >= TWO63 || |b| - |rest| + v >= TWO63 then InvalidLength else UnexpectedEOF)
  {
    hide Tag, Encoded, ReadVarint, ToInt32, Absorb, Skip;
    TagRead(s.fields[k], 2, b, i, Encoded(v) + rest);
    FieldIndexOf(s, k);
    var j := ReadVarint(b, i, 0, 0).value.next;
    EncodedPrefix(v, b, j, rest);
    ReadBack(b, j, v);
    assert |b[j + |Encoded(v)|..]| == |rest|;
  }

  // The same of a field that the schema does not know.
  lemma {:induction false} UnknownLengthIsChecked(s: Schema, m: Message, f: Field, v: Uint64, b: seq<Byte>, i: nat,
                                                  rest: seq<Byte>)
    requires |m.values| == |s.fields| && 0 < f.num < 0x2000_0000 && i <= |b| && v > |rest|
    requires forall k :: 0 <= k < |s.fields| ==> s.fields[k].num != f.num
    requires b[i..] == Tag(f.num, 2) + (Encoded(v) + rest)
    ensures |rest| <= |b|
    ensures UnmarshalFrom(s, m, b, i) == Err(if v >= TWO63 || |b| - |rest| + v >= TWO63 then InvalidLength else UnexpectedEOF)
  {
    hide Tag, Encoded, ReadVarint, ToInt32;
    TagRead(f, 2, b, i, Encoded(v) + rest);
    var c := b[i..];
    assert c[0..] == c;
    TagRead(f, 2, c, 0, Encoded(v) + rest);
    var j := ReadVarint(c, 0, 0, 0).value.next;
    EncodedPrefix(v, c, j, rest);
    ReadBack(c, j, v);
    assert |c[j + |Encoded(v)|..]| == |rest|;
    assert FieldIndex(s, f.num, 0).None?;
  }
}
