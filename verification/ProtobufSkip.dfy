// Fields that a schema does not know, as the wire format has them, and that the codec skips each of them as a whole.
module ProtobufSkip {
  import opened Wrappers
  import opened Varint
  import opened Protobuf
  import opened ProtobufRoundTrip

  // A field on the wire, by wire type: varint, eight bytes, length-delimited, group, four bytes.
  datatype WireField =
    | VarintField(num: nat, v: Uint64)
    | Fixed64(num: nat, bytes: seq<Byte>)
    | BytesField(num: nat, payload: seq<Byte>)
    | Group(num: nat, fields: seq<WireField>)
    | Fixed32(num: nat, bytes: seq<Byte>)

  ghost predicate Valid(f: WireField) {
    && 0 < f.num < 0x2000_0000
    && match f
       case VarintField(_, _) => true
       case Fixed64(_, bytes) => |bytes| == 8
       case BytesField(_, _) => true
       case Group(_, fields) => forall i :: 0 <= i < |fields| ==> Valid(fields[i])
       case Fixed32(_, bytes) => |bytes| == 4
  }

  function Wire(f: WireField): seq<Byte>
    decreases f, 1, 0
  {
    match f
    case VarintField(num, v) => Encoded(8 * num) + Encoded(v)
    case Fixed64(num, bytes) => Encoded(8 * num + 1) + bytes
    case BytesField(num, payload) => Encoded(8 * num + 2) + Encoded(|payload|) + payload
    case Group(num, _) => Encoded(8 * num + 3) + WireFrom(f, 0) + Encoded(8 * num + 4)
    case Fixed32(num, bytes) => Encoded(8 * num + 5) + bytes
  }

  // The fields of a group from the j-th on.
  function WireFrom(f: WireField, j: nat): seq<Byte>
    requires f.Group?
    decreases f, 0, |f.fields| - j
  {
    if j >= |f.fields| then [] else Wire(f.fields[j]) + WireFrom(f, j + 1)
  }

  // Where the loop of skipRollout stands after it has come to `next`.
  function Onward(b: seq<Byte>, next: nat, depth: nat): Result<nat, Error> {
    if depth == 0 then Ok(next) else Skip(b, next, depth)
  }

  lemma {:induction false} TagOfField(b: seq<Byte>, i: nat, num: nat, wireType: nat, rest: seq<Byte>)
    requires num < 0x2000_0000 && wireType < 8 && i <= |b| && b[i..] == Encoded(8 * num + wireType) + rest
    ensures var tag := ReadVarint(b, i, 0, 0);
            && tag.Ok? && tag.value.value % 8 == wireType && tag.value.next == |b| - |rest| && i < tag.value.next
            && b[tag.value.next..] == rest
  {
    hide Encoded, ReadVarint;
    EncodedPrefix(8 * num + wireType, b, i, rest);
    ReadBack(b, i, 8 * num + wireType);
    ReadBounds(b, i, 0, 0);
  }

  // Skipping a varint ends where reading it does.
  lemma {:induction false} SkipLikeRead(b: seq<Byte>, i: nat, n: nat, acc: Uint64, depth: nat)
    requires ReadVarint(b, i, n, acc).Ok?
    ensures SkipVarint(b, i, n, depth) == Ok((ReadVarint(b, i, n, acc).value.next, depth))
    decreases 10 - n
  {
    if b[i] >= 128 {
      SkipLikeRead(b, i + 1, n + 1, AddByte(acc, b[i], n), depth);
    }
  }

  lemma {:induction false} VarintIsSkipped(b: seq<Byte>, i: nat, v: Uint64, rest: seq<Byte>, depth: nat)
    requires i <= |b| && b[i..] == Encoded(v) + rest
    ensures SkipVarint(b, i, 0, depth) == Ok((|b| - |rest|, depth))
  {
    hide Encoded, ReadVarint, SkipVarint;
    EncodedPrefix(v, b, i, rest);
    ReadBack(b, i, v);
    SkipLikeRead(b, i, 0, 0, depth);
  }

  // Reading and skipping refuse a varint of more than ten bytes, and one that the buffer ends before.
  lemma {:induction false} UnendingVarint(b: seq<Byte>, i: nat, n: nat, len: nat, acc: Uint64, depth: nat)
    requires n <= 10 && i + len <= |b| && forall j :: i <= j < i + len ==> b[j] >= 128
    requires n + len == 10 || (n + len < 10 && i + len == |b|)
    ensures ReadVarint(b, i, n, acc) == Err(if n + len == 10 then IntOverflow else UnexpectedEOF)
    ensures SkipVarint(b, i, n, depth) == Err(if n + len == 10 then IntOverflow else UnexpectedEOF)
    decreases len
  {
    if len > 0 {
      UnendingVarint(b, i + 1, n + 1, len - 1, AddByte(acc, b[i], n), depth);
    }
  }

  lemma {:induction false} BytesAreSkipped(b: seq<Byte>, i: nat, payload: seq<Byte>, rest: seq<Byte>, depth: nat)
    requires i <= |b| < TWO63 && b[i..] == Encoded(|payload|) + (payload + rest)
    ensures SkipPayload(b, i, 2, depth) == Ok((|b| - |rest|, depth))
  {
    hide Encoded, ReadVarint;
    EncodedPrefix(|payload|, b, i, payload + rest);
    ReadBack(b, i, |payload|);
    assert |b[i + |Encoded(|payload|)|..]| == |payload| + |rest|;
  }

  // One step of the loop: a tag and what belongs to it.
  lemma {:induction false} StepOver(b: seq<Byte>, i: nat, num: nat, wireType: nat, rest: seq<Byte>, depth: nat,
                                    next: nat, depth': nat)
    requires num < 0x2000_0000 && wireType < 8 && i <= |b| < TWO63 && b[i..] == Encoded(8 * num + wireType) + rest
    requires SkipPayload(b, |b| - |rest|, wireType, depth) == Ok((next, depth')) && next <= |b|
    ensures Skip(b, i, depth) == Onward(b, next, depth')
  {
    hide Encoded, ReadVarint, SkipPayload;
    TagOfField(b, i, num, wireType, rest);
    ReadBounds(b, i, 0, 0);
    assert i < |b|;
  }

  lemma {:induction false} RestIsTail(b: seq<Byte>, i: nat, front: seq<Byte>, rest: seq<Byte>)
    requires i <= |b| && b[i..] == front + rest
    ensures i + |front| + |rest| == |b| && b[|b| - |rest|..] == rest
  {
    assert |b[i..]| == |front| + |rest|;
    assert b[|b| - |rest|..] == b[i..][|front|..];
  }

  // A tag and a payload that the switch over the wire type comes over.
  lemma {:induction false} PayloadIsSkipped(b: seq<Byte>, i: nat, num: nat, wireType: nat, payload: seq<Byte>,
                                            rest: seq<Byte>,
                                            depth: nat)
    requires num < 0x2000_0000 && wireType < 8 && i <= |b| < TWO63
    requires b[i..] == Encoded(8 * num + wireType) + payload + rest
    requires SkipPayload(b, |b| - |payload| - |rest|, wireType, depth) == Ok((|b| - |rest|, depth))
    ensures Skip(b, i, depth) == Onward(b, |b| - |rest|, depth)
  {
    hide Encoded, Skip, SkipPayload;
    assert b[i..] == Encoded(8 * num + wireType) + (payload + rest);
    TagOfField(b, i, num, wireType, payload + rest);
    StepOver(b, i, num, wireType, payload + rest, depth, |b| - |rest|, depth);
  }

  lemma {:induction false} VarintFieldIsSkipped(b: seq<Byte>, i: nat, num: nat, v: Uint64, rest: seq<Byte>, depth: nat)
    requires num < 0x2000_0000 && i <= |b| < TWO63 && b[i..] == Encoded(8 * num) + Encoded(v) + rest
    ensures Skip(b, i, depth) == Onward(b, |b| - |rest|, depth)
  {
    hide Encoded, Skip, SkipVarint;
    assert b[i..] == Encoded(8 * num + 0) + (Encoded(v) + rest);
    TagOfField(b, i, num, 0, Encoded(v) + rest);
    VarintIsSkipped(b, |b| - |Encoded(v)| - |rest|, v, rest, depth);
    PayloadIsSkipped(b, i, num, 0, Encoded(v), rest, depth);
  }

  lemma {:induction false} BytesFieldIsSkipped(b: seq<Byte>, i: nat, num: nat, payload: seq<Byte>, rest: seq<Byte>,
                                               depth: nat)
    requires num < 0x2000_0000 && i <= |b| < TWO63 && b[i..] == Encoded(8 * num + 2) + (Encoded(|payload|) + payload) + rest
    ensures Skip(b, i, depth) == Onward(b, |b| - |rest|, depth)
  {
    hide Encoded, Skip, SkipPayload;
    var all := Encoded(|payload|) + payload;
    assert b[i..] == Encoded(8 * num + 2) + (all + rest);
    TagOfField(b, i, num, 2, all + rest);
    assert all + rest == Encoded(|payload|) + (payload + rest);
    BytesAreSkipped(b, |b| - |all| - |rest|, payload, rest, depth);
    PayloadIsSkipped(b, i, num, 2, all, rest, depth);
  }

  // A field that is not a group is skipped as a whole, at any depth.
  lemma {:induction false} PlainIsSkipped(f: WireField, b: seq<Byte>, i: nat, rest: seq<Byte>, depth: nat)
    requires Valid(f) && !f.Group? && i <= |b| < TWO63 && b[i..] == Wire(f) + rest
    ensures |rest| <= |b| && b[|b| - |rest|..] == rest && Skip(b, i, depth) == Onward(b, |b| - |rest|, depth)
  {
    hide Encoded, Skip, SkipVarint, ReadVarint;
    RestIsTail(b, i, Wire(f), rest);
    match f
    case VarintField(num, v) => VarintFieldIsSkipped(b, i, num, v, rest, depth);
    case Fixed64(num, bytes) => PayloadIsSkipped(b, i, num, 1, bytes, rest, depth);
    case BytesField(num, payload) =>
      assert Encoded(8 * num + 2) + Encoded(|payload|) + payload == Encoded(8 * num + 2) + (Encoded(|payload|) + payload);
      BytesFieldIsSkipped(b, i, num, payload, rest, depth);
    case Fixed32(num, bytes) => PayloadIsSkipped(b, i, num, 5, bytes, rest, depth);
  }

  // The tags of a group count its depth.
  lemma {:induction false} GroupOpens(b: seq<Byte>, i: nat, num: nat, rest: seq<Byte>, depth: nat)
    requires num < 0x2000_0000 && i <= |b| < TWO63 && b[i..] == Encoded(8 * num + 3) + rest
    ensures |rest| <= |b| && b[|b| - |rest|..] == rest && Skip(b, i, depth) == Skip(b, |b| - |rest|, depth + 1)
  {
    hide Encoded, Skip;
    TagOfField(b, i, num, 3, rest);
    StepOver(b, i, num, 3, rest, depth, |b| - |rest|, depth + 1);
  }

  lemma {:induction false} GroupCloses(b: seq<Byte>, i: nat, num: nat, rest: seq<Byte>, depth: nat)
    requires num < 0x2000_0000 && i <= |b| < TWO63 && b[i..] == Encoded(8 * num + 4) + rest
    ensures |rest| <= |b| && b[|b| - |rest|..] == rest && Skip(b, i, depth + 1) == Onward(b, |b| - |rest|, depth)
  {
    hide Encoded, Skip;
    TagOfField(b, i, num, 4, rest);
    StepOver(b, i, num, 4, rest, depth + 1, |b| - |rest|, depth);
  }

  // Every field is skipped as a whole, groups with all that they contain.
  lemma {:induction false} FieldIsSkipped(f: WireField, b: seq<Byte>, i: nat, rest: seq<Byte>, depth: nat)
    requires Valid(f) && i <= |b| < TWO63 && b[i..] == Wire(f) + rest
    ensures |rest| <= |b| && b[|b| - |rest|..] == rest && Skip(b, i, depth) == Onward(b, |b| - |rest|, depth)
    decreases f, 1, 0
  {
    hide Encoded, Skip, Wire, WireFrom;
    if f.Group? {
      var end := Encoded(8 * f.num + 4) + rest;
      var tail := WireFrom(f, 0) + end;
      GroupParts(f, rest);
      GroupOpens(b, i, f.num, tail, depth);
      GroupIsSkipped(f, 0, b, |b| - |tail|, end, depth + 1);
      GroupCloses(b, |b| - |end|, f.num, rest, depth);
    } else {
      PlainIsSkipped(f, b, i, rest, depth);
    }
  }

  lemma {:induction false} GroupParts(f: WireField, rest: seq<Byte>)
    requires f.Group?
    ensures Wire(f) + rest == Encoded(8 * f.num + 3) + (WireFrom(f, 0) + (Encoded(8 * f.num + 4) + rest))
  {
    hide Encoded, WireFrom;
  }

  lemma {:induction false} GroupIsSkipped(f: WireField, j: nat, b: seq<Byte>, i: nat, rest: seq<Byte>, depth: nat)
    requires f.Group? && Valid(f) && j <= |f.fields| && depth > 0 && i <= |b| < TWO63 && b[i..] == WireFrom(f, j) + rest
    ensures |rest| <= |b| && b[|b| - |rest|..] == rest && Skip(b, i, depth) == Skip(b, |b| - |rest|, depth)
    decreases f, 0, |f.fields| - j
  {
    hide Encoded, Skip, Wire;
    if j == |f.fields| {
      assert b[i..] == rest;
    } else {
      var tail := WireFrom(f, j + 1) + rest;
      assert b[i..] == Wire(f.fields[j]) + tail;
      FieldIsSkipped(f.fields[j], b, i, tail, depth);
      GroupIsSkipped(f, j + 1, b, |b| - |tail|, rest, depth);
    }
  }

  // So the bytes of any such field are one complete unknown field for a schema without its number.
  lemma {:induction false} WireFieldIsSkipped(f: WireField, rest: seq<Byte>)
    requires Valid(f) && |Wire(f) + rest| < TWO63
    ensures Skip(Wire(f) + rest, 0, 0) == Ok(|Wire(f)|)
  {
    hide Skip, Wire;
    var b := Wire(f) + rest;
    assert b[0..] == b;
    FieldIsSkipped(f, b, 0, rest, 0);
  }
}
