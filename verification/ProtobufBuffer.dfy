// The statements of the generated methods: Size, the writer that fills a buffer from its end to its start,
// and the parser's loops.
module ProtobufBuffer {
  import opened Wrappers
  import opened Varint
  import opened Protobuf

  /******* Size *******/

  // 1 + l + sovRollout(uint64(l)); the generator writes the length of the tag as a literal.
  function DelimitedSize(num: nat, l: nat): nat { Sov(8 * num + 2) + l + Sov(l) }

  lemma {:induction false} DelimitedSizeIsLength(num: nat, payload: seq<Byte>)
    ensures DelimitedSize(num, |payload|) == |Delimited(num, payload)|
  {
    hide Sov, Encoded;
    SovIsLength(8 * num + 2);
    SovIsLength(|payload|);
  }

  method Size(s: Schema, m: Message) returns (n: nat)
    requires |m.values| == |s.fields|
    requires Shaped(s, m)
    ensures n == |Encode(s, m)|
    decreases m, 1
  {
    n := 0;
    for k := 0 to |s.fields|
      invariant n + |EncodeFrom(s, m, k)| == |EncodeFrom(s, m, 0)|
    {
      var size := SizeOfField(s.fields[k], m.values[k]);
      n := n + size;
    }
    n := n + |m.unrecognized|;
  }

  // Every value that holds messages belongs to a field of such a kind, all the way down.
  ghost predicate Shaped(s: Schema, m: Message)
    decreases m
  {
    |m.values| == |s.fields| && forall k :: 0 <= k < |m.values| ==> ShapedValue(s.fields[k].kind, m.values[k])
  }

  ghost predicate ShapedValue(kind: Kind, v: Value)
    decreases v
  {
    match v
    case MessageValue(m) => kind.MessageKind? && (m.Some? ==> Shaped(kind.schema, m.value))
    case MessagesValue(ms) => kind.RepeatedMessageKind? && forall j :: 0 <= j < |ms| ==> Shaped(kind.schema, ms[j])
    case _ => true
  }

  method SizeOfField(f: Field, v: Value) returns (n: nat)
    requires ShapedValue(f.kind, v)
    ensures n == |EncodeField(f, v)|
    decreases v, 0
  {
    hide Sov, Encoded;
    n := 0;
    match v
    case StringValue(s) =>
      if |s| > 0 {
        DelimitedSizeIsLength(f.num, s);
        n := DelimitedSize(f.num, |s|);
      }
    case IntValue(x) =>
      if x != 0 {
        SovIsLength(8 * f.num);
        SovIsLength(FromInt64(x));
        n := Sov(8 * f.num) + Sov(FromInt64(x));
      }
    case BoolValue(b) =>
      if b {
        SovIsLength(8 * f.num);
        n := Sov(8 * f.num) + 1;
      }
    case StringsValue(ss) =>
      for j := 0 to |ss|
        invariant n + |EncodeStrings(f.num, ss, j)| == |EncodeStrings(f.num, ss, 0)|
      {
        DelimitedSizeIsLength(f.num, ss[j]);
        n := n + DelimitedSize(f.num, |ss[j]|);
      }
    case MessageValue(m) =>
      if m.Some? {
        var l := Size(f.kind.schema, m.value);
        DelimitedSizeIsLength(f.num, Encode(f.kind.schema, m.value));
        n := DelimitedSize(f.num, l);
      }
    case MessagesValue(ms) =>
      for j := 0 to |ms|
        invariant n + |EncodeMessages(f, v, j)| == |EncodeMessages(f, v, 0)|
      {
        var l := Size(f.kind.schema, ms[j]);
        DelimitedSizeIsLength(f.num, Encode(f.kind.schema, ms[j]));
        n := n + DelimitedSize(f.num, l);
      }
  }

  /******* Marshal *******/

  // i -= len(src); copy(dAtA[i:], src)
  method CopyInFront(dAtA: array<Byte>, end: nat, src: seq<Byte>) returns (i: nat)
    requires |src| <= end <= dAtA.Length
    modifies dAtA
    ensures i == end - |src| && Written(old(dAtA[..]), dAtA[..], i, end, src)
  {
    i := end - |src|;
    forall j | 0 <= j < |src| { dAtA[i + j] := src[j]; }
  }

  // A length-delimited field whose payload already stands in front of `end`.
  method PrefixInFront(dAtA: array<Byte>, i0: nat, num: nat, size: nat) returns (i: nat)
    requires |Tag(num, 2) + Encoded(size)| <= i0 <= dAtA.Length
    modifies dAtA
    ensures i == i0 - |Tag(num, 2) + Encoded(size)|
    ensures Written(old(dAtA[..]), dAtA[..], i, i0, Tag(num, 2) + Encoded(size))
  {
    hide Encoded, Written;
    i := EncodeVarint(dAtA, i0, size);
    ghost var mid, b1 := i, dAtA[..];
    i := EncodeVarint(dAtA, i, 8 * num + 2);
    WrittenInFront(old(dAtA[..]), b1, dAtA[..], i, mid, i0, Tag(num, 2), Encoded(size));
  }

  method DelimitedInFront(dAtA: array<Byte>, end: nat, num: nat, payload: seq<Byte>) returns (i: nat)
    requires |Delimited(num, payload)| <= end <= dAtA.Length
    modifies dAtA
    ensures i == end - |Delimited(num, payload)|
    ensures Written(old(dAtA[..]), dAtA[..], i, end, Delimited(num, payload))
  {
    hide Encoded, Written;
    i := CopyInFront(dAtA, end, payload);
    ghost var mid, b1 := i, dAtA[..];
    i := PrefixInFront(dAtA, i, num, |payload|);
    WrittenInFront(old(dAtA[..]), b1, dAtA[..], i, mid, end, Tag(num, 2) + Encoded(|payload|), payload);
  }

  // The unrecognized bytes first, then the fields from the last to the first, each in front of the other.
  method MarshalToSizedBuffer(s: Schema, m: Message, dAtA: array<Byte>, end: nat) returns (i: nat)
    requires Shaped(s, m) && |Encode(s, m)| <= end <= dAtA.Length
    modifies dAtA
    ensures i == end - |Encode(s, m)|
    ensures Written(old(dAtA[..]), dAtA[..], i, end, Encode(s, m))
    decreases m, 1, 0
  {
    hide Written;
    var k: nat := |s.fields|;
    FromShrinks(s, m, 0, k);
    i := CopyInFront(dAtA, end, m.unrecognized);
    while k > 0
      invariant k <= |s.fields| && i == end - |EncodeFrom(s, m, k)|
      invariant Written(old(dAtA[..]), dAtA[..], i, end, EncodeFrom(s, m, k))
    {
      ghost var mid, b1, y := i, dAtA[..], EncodeFrom(s, m, k);
      FromShrinks(s, m, 0, k - 1);
      k := k - 1;
      i := MarshalField(s.fields[k], m.values[k], dAtA, i);
      WrittenInFront(old(dAtA[..]), b1, dAtA[..], i, mid, end, EncodeField(s.fields[k], m.values[k]), y);
    }
  }

  lemma {:induction false} FromShrinks(s: Schema, m: Message, j: nat, k: nat)
    requires |m.values| == |s.fields| && j <= k <= |s.fields|
    ensures |EncodeFrom(s, m, k)| <= |EncodeFrom(s, m, j)|
    decreases k - j
  {
    if j < k {
      FromShrinks(s, m, j + 1, k);
    }
  }

  method MarshalField(f: Field, v: Value, dAtA: array<Byte>, end: nat) returns (i: nat)
    requires ShapedValue(f.kind, v) && |EncodeField(f, v)| <= end <= dAtA.Length
    modifies dAtA
    ensures i == end - |EncodeField(f, v)|
    ensures Written(old(dAtA[..]), dAtA[..], i, end, EncodeField(f, v))
    decreases v, 1, 0
  {
    hide Encoded, Written, Shaped;
    NothingWritten(dAtA[..], end);
    i := end;
    match v
    case StringValue(s) =>
      if |s| > 0 {
        i := DelimitedInFront(dAtA, i, f.num, s);
      }
    case IntValue(x) =>
      if x != 0 {
        i := EncodeVarint(dAtA, i, FromInt64(x));
        ghost var mid, b1 := i, dAtA[..];
        i := EncodeVarint(dAtA, i, 8 * f.num);
        WrittenInFront(old(dAtA[..]), b1, dAtA[..], i, mid, end, Tag(f.num, 0), Encoded(FromInt64(x)));
      }
    case BoolValue(b) =>
      if b {
        i := CopyInFront(dAtA, i, [1]);
        ghost var mid, b1 := i, dAtA[..];
        i := EncodeVarint(dAtA, i, 8 * f.num);
        WrittenInFront(old(dAtA[..]), b1, dAtA[..], i, mid, end, Tag(f.num, 0), [1]);
      }
    case StringsValue(_) =>
      i := MarshalStrings(f.num, v.ss, dAtA, i);
    case MessageValue(m) =>
      if m.Some? {
        i := MarshalNested(f, m.value, dAtA, i);
      }
    case MessagesValue(_) =>
      i := MarshalMessages(f, v, dAtA, i);
  }

  lemma {:induction false} NothingWritten(b: seq<Byte>, end: nat)
    requires end <= |b|
    ensures Written(b, b, end, end, [])
  {
  }

  // for iNdEx := len(...) - 1; iNdEx >= 0; iNdEx--
  method MarshalStrings(num: nat, ss: seq<seq<Byte>>, dAtA: array<Byte>, end: nat) returns (i: nat)
    requires |EncodeStrings(num, ss, 0)| <= end <= dAtA.Length
    modifies dAtA
    ensures i == end - |EncodeStrings(num, ss, 0)|
    ensures Written(old(dAtA[..]), dAtA[..], i, end, EncodeStrings(num, ss, 0))
  {
    hide Encoded, Written, Delimited;
    NothingWritten(dAtA[..], end);
    i := end;
    var j: nat := |ss|;
    while j > 0
      invariant j <= |ss| && i == end - |EncodeStrings(num, ss, j)|
      invariant Written(old(dAtA[..]), dAtA[..], i, end, EncodeStrings(num, ss, j))
    {
      ghost var mid, b1, y := i, dAtA[..], EncodeStrings(num, ss, j);
      j := j - 1;
      StringsShrink(num, ss, 0, j);
      i := DelimitedInFront(dAtA, i, num, ss[j]);
      WrittenInFront(old(dAtA[..]), b1, dAtA[..], i, mid, end, Delimited(num, ss[j]), y);
    }
  }

  lemma {:induction false} StringsShrink(num: nat, ss: seq<seq<Byte>>, j: nat, k: nat)
    requires j <= k <= |ss|
    ensures |EncodeStrings(num, ss, k)| <= |EncodeStrings(num, ss, j)|
    decreases k - j
  {
    hide Delimited;
    if j < k {
      StringsShrink(num, ss, j + 1, k);
    }
  }

  method MarshalNested(f: Field, m: Message, dAtA: array<Byte>, end: nat) returns (i: nat)
    requires (f.kind.MessageKind? || f.kind.RepeatedMessageKind?) && Shaped(f.kind.schema, m)
    requires |Delimited(f.num, Encode(f.kind.schema, m))| <= end <= dAtA.Length
    modifies dAtA
    ensures i == end - |Delimited(f.num, Encode(f.kind.schema, m))|
    ensures Written(old(dAtA[..]), dAtA[..], i, end, Delimited(f.num, Encode(f.kind.schema, m)))
    decreases m, 2, 0
  {
    hide Encoded, Written, Shaped, Encode;
    i := MarshalToSizedBuffer(f.kind.schema, m, dAtA, end);
    ghost var mid, b1, y := i, dAtA[..], Encode(f.kind.schema, m);
    i := PrefixInFront(dAtA, i, f.num, end - i);
    WrittenInFront(old(dAtA[..]), b1, dAtA[..], i, mid, end, Tag(f.num, 2) + Encoded(|y|), y);
  }

  method MarshalMessages(f: Field, v: Value, dAtA: array<Byte>, end: nat) returns (i: nat)
    requires f.kind.RepeatedMessageKind? && v.MessagesValue? && ShapedValue(f.kind, v)
    requires |EncodeMessages(f, v, 0)| <= end <= dAtA.Length
    modifies dAtA
    ensures i == end - |EncodeMessages(f, v, 0)|
    ensures Written(old(dAtA[..]), dAtA[..], i, end, EncodeMessages(f, v, 0))
    decreases v, 0, 0
  {
    hide Encoded, Written, Delimited, Encode, Shaped;
    NothingWritten(dAtA[..], end);
    i := end;
    var j: nat := |v.ms|;
    while j > 0
      invariant j <= |v.ms| && i == end - |EncodeMessages(f, v, j)|
      invariant Written(old(dAtA[..]), dAtA[..], i, end, EncodeMessages(f, v, j))
    {
      ghost var mid, b1, y := i, dAtA[..], EncodeMessages(f, v, j);
      j := j - 1;
      MessagesShrink(f, v, 0, j);
      i := MarshalNested(f, v.ms[j], dAtA, i);
      WrittenInFront(old(dAtA[..]), b1, dAtA[..], i, mid, end, Delimited(f.num, Encode(f.kind.schema, v.ms[j])), y);
    }
  }

  lemma {:induction false} MessagesShrink(f: Field, v: Value, j: nat, k: nat)
    requires f.kind.RepeatedMessageKind? && v.MessagesValue? && j <= k <= |v.ms|
    ensures |EncodeMessages(f, v, k)| <= |EncodeMessages(f, v, j)|
    decreases k - j
  {
    hide Delimited, Encode;
    if j < k {
      MessagesShrink(f, v, j + 1, k);
    }
  }

  // Marshal: the buffer that Size asks for is filled exactly.
  method Marshal(s: Schema, m: Message) returns (dAtA: array<Byte>)
    requires Shaped(s, m)
    ensures dAtA[..] == Encode(s, m)
    ensures fresh(dAtA)
  {
    var size := Size(s, m);
    dAtA := new Byte[size](_ => 0);
    var i := MarshalToSizedBuffer(s, m, dAtA, size);
  }

  /******* Unmarshal *******/

  method SkipRollout(dAtA: seq<Byte>) returns (r: Result<nat, Error>)
    ensures r == Skip(dAtA, 0, 0)
  {
    hide ReadVarint;
    var i: nat, depth: nat := 0, 0;
    while i < |dAtA|
      invariant Skip(dAtA, 0, 0) == Skip(dAtA, i, depth)
      decreases |dAtA| - i
    {
      var tag := DecodeVarint(dAtA, i);
      if tag.Err? { return Err(tag.error); }
      ReadBounds(dAtA, i, 0, 0);
      i := tag.value.next;
      var wireType := tag.value.value % 8;
      match wireType {
        case 0 =>
          var next := SkipOneVarint(dAtA, i, depth);
          if next.Err? { return Err(next.error); }
          i := next.value;
        case 1 => i := i + 8;
        case 2 =>
          var len := DecodeVarint(dAtA, i);
          if len.Err? { return Err(len.error); }
          ReadBounds(dAtA, i, 0, 0);
          if ToInt64(len.value.value) < 0 { return Err(InvalidLength); }
          i := len.value.next + ToInt64(len.value.value);
        case 3 => depth := depth + 1;
        case 4 =>
          if depth == 0 { return Err(UnexpectedEndOfGroup); }
          depth := depth - 1;
        case 5 => i := i + 4;
        case _ => return Err(IllegalWireType);
      }
      if i >= TWO63 { return Err(InvalidLength); }
      if depth == 0 { return Ok(i); }
    }
    return Err(UnexpectedEOF);
  }

  method SkipOneVarint(dAtA: seq<Byte>, i0: nat, ghost depth: nat) returns (r: Result<nat, Error>)
    ensures match SkipVarint(dAtA, i0, 0, depth) { case Err(e) => r == Err(e) case Ok(p) => r == Ok(p.0) && p.1 == depth }
    ensures r.Ok? ==> r.value > i0
  {
    var i, n := i0, 0;
    while true
      invariant i0 <= i && 0 <= n <= 10 && SkipVarint(dAtA, i0, 0, depth) == SkipVarint(dAtA, i, n, depth)
      decreases 10 - n
    {
      if n >= 10 { return Err(IntOverflow); }
      if i >= |dAtA| { return Err(UnexpectedEOF); }
      i := i + 1;
      if dAtA[i - 1] < 128 { return Ok(i); }
      n := n + 1;
    }
  }

  // Unmarshal into m0, which is what a caller passes for a message that was met before.
  method UnmarshalInto(s: Schema, m0: Message, dAtA: seq<Byte>) returns (r: Result<Message, Error>)
    requires |m0.values| == |s.fields|
    ensures r == UnmarshalFrom(s, m0, dAtA, 0)
    decreases |dAtA|, 1
  {
    hide ReadVarint, ToInt32, Skip;
    var m, iNdEx := m0, 0;
    while iNdEx < |dAtA|
      invariant 0 <= iNdEx <= |dAtA| && |m.values| == |s.fields|
      invariant UnmarshalFrom(s, m0, dAtA, 0) == UnmarshalFrom(s, m, dAtA, iNdEx)
    {
      var preIndex := iNdEx;
      var tag := DecodeVarint(dAtA, iNdEx);
      if tag.Err? { return Err(tag.error); }
      ReadBounds(dAtA, iNdEx, 0, 0);
      iNdEx := tag.value.next;
      var fieldNum, wireType := ToInt32(tag.value.value / 8), tag.value.value % 8;
      if wireType == 4 { return Err(EndGroupForNonGroup); }
      if fieldNum <= 0 { return Err(IllegalTag); }
      var k := FieldIndex(s, fieldNum, 0);
      if k.Some? {
        var field := UnmarshalOne(s.fields[k.value].kind, m.values[k.value], wireType, dAtA, iNdEx);
        if field.Err? { return Err(field.error); }
        m := m.(values := m.values[k.value := field.value.0]);
        iNdEx := field.value.1;
      } else {
        iNdEx := preIndex;
        var skippy := SkipRollout(dAtA[iNdEx..]);
        if skippy.Err? { return Err(skippy.error); }
        if iNdEx + skippy.value >= TWO63 { return Err(InvalidLength); }
        if iNdEx + skippy.value > |dAtA| { return Err(UnexpectedEOF); }
        m := m.(unrecognized := m.unrecognized + dAtA[iNdEx..iNdEx + skippy.value]);
        iNdEx := iNdEx + skippy.value;
      }
    }
    return Ok(m);
  }

  method UnmarshalOne(kind: Kind, v: Value, wireType: int, dAtA: seq<Byte>, iNdEx: nat)
    returns (r: Result<(Value, nat), Error>)
    requires 0 < iNdEx <= |dAtA|
    ensures r == UnmarshalField(kind, v, wireType, dAtA, iNdEx)
    decreases |dAtA|, 0
  {
    hide ReadVarint, UnmarshalFrom;
    if wireType != kind.WireType() { return Err(WrongWireType); }
    var u := DecodeVarint(dAtA, iNdEx);
    if u.Err? { return Err(u.error); }
    ReadBounds(dAtA, iNdEx, 0, 0);
    if kind.IsVarint() { return Ok((FromVarint(kind, u.value.value), u.value.next)); }
    var length := ToInt64(u.value.value);
    if length < 0 { return Err(InvalidLength); }
    var postIndex := u.value.next + length;
    if postIndex >= TWO63 { return Err(InvalidLength); }
    if postIndex > |dAtA| { return Err(UnexpectedEOF); }
    var payload := dAtA[u.value.next..postIndex];
    if kind.RepeatedStringKind? {
      return Ok((StringsValue(Strings(v) + [payload]), postIndex));
    } else if kind.MessageKind? {
      var m := UnmarshalInto(kind.schema, Existing(kind.schema, v), payload);
      if m.Err? { return Err(m.error); }
      return Ok((MessageValue(Some(m.value)), postIndex));
    } else if kind.RepeatedMessageKind? {
      var m := UnmarshalInto(kind.schema, Empty(kind.schema), payload);
      if m.Err? { return Err(m.error); }
      return Ok((MessagesValue(Messages(v) + [m.value]), postIndex));
    } else {
      return Ok((StringValue(payload), postIndex));
    }
  }
}
