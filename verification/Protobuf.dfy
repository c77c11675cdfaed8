// The generated codec of pkg/apiclient/rollout/rollout.pb.go. The generator emits the same statements
// for every message type; a Schema lists what distinguishes them: field numbers and kinds.
module Protobuf {
  import opened Wrappers
  import opened Varint

  datatype Kind =
    | StringKind
    | Int64Kind
    | Int32Kind
    | BoolKind
    | RepeatedStringKind
    | MessageKind(schema: Schema)
    | RepeatedMessageKind(schema: Schema)
  {
    predicate IsVarint() { Int64Kind? || Int32Kind? || BoolKind? }

    function WireType(): int { if IsVarint() then 0 else 2 }

    function Default(): Value {
      match this
      case StringKind => StringValue([])
      case Int64Kind => IntValue(0)
      case Int32Kind => IntValue(0)
      case BoolKind => BoolValue(false)
      case RepeatedStringKind => StringsValue([])
      case MessageKind(_) => MessageValue(None)
      case RepeatedMessageKind(_) => MessagesValue([])
    }
  }

  datatype Field = Field(num: nat, kind: Kind)

  datatype Schema = Schema(fields: seq<Field>)

  // Strings are their UTF-8 bytes; the codec does not look inside them.
  datatype Value =
    | StringValue(s: seq<Byte>)
    | IntValue(x: int)
    | BoolValue(b: bool)
    | StringsValue(ss: seq<seq<Byte>>)
    | MessageValue(m: Option<Message>)
    | MessagesValue(ms: seq<Message>)

  // `unrecognized` is XXX_unrecognized.
  datatype Message = Message(values: seq<Value>, unrecognized: seq<Byte>)

  function Empty(s: Schema): (m: Message)
    ensures |m.values| == |s.fields|
  {
    Message(seq(|s.fields|, k requires 0 <= k < |s.fields| => s.fields[k].kind.Default()), [])
  }

  /******* Encoding *******/

  function Tag(num: nat, wireType: nat): seq<Byte> { Encoded(8 * num + wireType) }

  function Delimited(num: nat, payload: seq<Byte>): seq<Byte> { Tag(num, 2) + Encoded(|payload|) + payload }

  function Encode(s: Schema, m: Message): seq<Byte>
    decreases m, 3, 0
  {
    EncodeFrom(s, m, 0)
  }

  // Fields k, k+1, ... and the unrecognized bytes, in the order in which they stand in the buffer.
  function EncodeFrom(s: Schema, m: Message, k: nat): seq<Byte>
    decreases m, 2, |s.fields| - k
  {
    if k >= |s.fields| || k >= |m.values| then m.unrecognized
    else EncodeField(s.fields[k], m.values[k]) + EncodeFrom(s, m, k + 1)
  }

  function EncodeField(f: Field, v: Value): seq<Byte>
    decreases v, 1, 0
  {
    match v
    case StringValue(s) => if s == [] then [] else Delimited(f.num, s)
    case IntValue(x) => if x == 0 then [] else Tag(f.num, 0) + Encoded(FromInt64(x))
    case BoolValue(b) => if b then Tag(f.num, 0) + [1] else []
    case StringsValue(ss) => EncodeStrings(f.num, ss, 0)
    case MessageValue(None) => []
    case MessageValue(Some(m)) => if f.kind.MessageKind? then Delimited(f.num, Encode(f.kind.schema, m)) else []
    case MessagesValue(_) => if f.kind.RepeatedMessageKind? then EncodeMessages(f, v, 0) else []
  }

  function EncodeStrings(num: nat, ss: seq<seq<Byte>>, j: nat): seq<Byte>
    decreases |ss| - j
  {
    if j >= |ss| then [] else Delimited(num, ss[j]) + EncodeStrings(num, ss, j + 1)
  }

  function EncodeMessages(f: Field, v: Value, j: nat): seq<Byte>
    requires f.kind.RepeatedMessageKind? && v.MessagesValue?
    decreases v, 0, |v.ms| - j
  {
    if j >= |v.ms| then []
    else Delimited(f.num, Encode(f.kind.schema, v.ms[j])) + EncodeMessages(f, v, j + 1)
  }

  /******* Decoding *******/

  // skipRollout: the index behind the first field of b, groups with all they contain.
  function Skip(b: seq<Byte>, i: nat, depth: nat): (r: Result<nat, Error>)
    ensures r.Ok? ==> r.value > i
    decreases if i <= |b| then |b| - i else 0
  {
    if i >= |b| then Err(UnexpectedEOF)
    else
      match ReadVarint(b, i, 0, 0)
      case Err(e) => Err(e)
      case Ok(tag) =>
        ReadBounds(b, i, 0, 0);
        match SkipPayload(b, tag.next, tag.value % 8, depth)
        case Err(e) => Err(e)
        case Ok(skipped) =>
          if skipped.0 >= TWO63 then Err(InvalidLength)
          else if skipped.1 == 0 then Ok(skipped.0)
          else Skip(b, skipped.0, skipped.1)
  }

  // The switch over the wire type: the index behind the payload and the depth after it.
  function SkipPayload(b: seq<Byte>, i: nat, wireType: int, depth: nat): (r: Result<(nat, nat), Error>)
    ensures r.Ok? ==> r.value.0 >= i
  {
    match wireType
    case 0 => SkipVarint(b, i, 0, depth)
    case 1 => Ok((i + 8, depth))
    case 2 =>
      ReadBounds(b, i, 0, 0);
      (match ReadVarint(b, i, 0, 0)
       case Err(e) => Err(e)
       case Ok(len) => if ToInt64(len.value) < 0 then Err(InvalidLength) else Ok((len.next + ToInt64(len.value), depth)))
    case 3 => Ok((i, depth + 1))
    case 4 => if depth == 0 then Err(UnexpectedEndOfGroup) else Ok((i, depth - 1))
    case 5 => Ok((i + 4, depth))
    case _ => Err(IllegalWireType)
  }

  function SkipVarint(b: seq<Byte>, i: nat, n: nat, depth: nat): (r: Result<(nat, nat), Error>)
    ensures r.Ok? ==> r.value.0 >= i
    decreases 10 - n
  {
    if n >= 10 then Err(IntOverflow)
    else if i >= |b| then Err(UnexpectedEOF)
    else if b[i] < 128 then Ok((i + 1, depth))
    else SkipVarint(b, i + 1, n + 1, depth)
  }

  function FieldIndex(s: Schema, num: int, k: nat): (r: Option<nat>)
    ensures r.Some? ==> k <= r.value < |s.fields| && s.fields[r.value].num == num
    ensures forall j :: k <= j < (if r.Some? then r.value else |s.fields|) ==> s.fields[j].num != num
    decreases |s.fields| - k
  {
    if k >= |s.fields| then None else if s.fields[k].num == num then Some(k) else FieldIndex(s, num, k + 1)
  }

  function FromVarint(kind: Kind, u: Uint64): Value {
    match kind
    case Int64Kind => IntValue(ToInt64(u))
    case Int32Kind => IntValue(ToInt32(u))
    case _ => BoolValue(u != 0)
  }

  // What `v.ss`, `v.ms` and `v.m` hold; the generated struct has a field of the right type.
  function Strings(v: Value): seq<seq<Byte>> { if v.StringsValue? then v.ss else [] }

  function Messages(v: Value): seq<Message> { if v.MessagesValue? then v.ms else [] }

  function Existing(s: Schema, v: Value): (m: Message)
    ensures |m.values| == |s.fields|
  {
    if v.MessageValue? && v.m.Some? && |v.m.value.values| == |s.fields| then v.m.value else Empty(s)
  }

  // A length prefix: where the payload starts and where it ends.
  function ReadLength(b: seq<Byte>, i: nat): (r: Result<(nat, nat), Error>)
    ensures r.Ok? ==> i < r.value.0 <= r.value.1 <= |b|
  {
    ReadBounds(b, i, 0, 0);
    match ReadVarint(b, i, 0, 0)
    case Err(e) => Err(e)
    case Ok(len) =>
      if ToInt64(len.value) < 0 then Err(InvalidLength)
      else if len.next + ToInt64(len.value) >= TWO63 then Err(InvalidLength)
      else if len.next + ToInt64(len.value) > |b| then Err(UnexpectedEOF)
      else Ok((len.next, len.next + ToInt64(len.value)))
  }

  // A singular message is merged into the one that is already there; repeated ones are appended.
  function Absorb(kind: Kind, v: Value, payload: seq<Byte>): Result<Value, Error>
    decreases |payload|, 1
  {
    match kind
    case RepeatedStringKind => Ok(StringsValue(Strings(v) + [payload]))
    case MessageKind(s) =>
      (match UnmarshalFrom(s, Existing(s, v), payload, 0)
       case Err(e) => Err(e)
       case Ok(m) => Ok(MessageValue(Some(m))))
    case RepeatedMessageKind(s) =>
      (match UnmarshalFrom(s, Empty(s), payload, 0)
       case Err(e) => Err(e)
       case Ok(m) => Ok(MessagesValue(Messages(v) + [m])))
    case _ => Ok(StringValue(payload))
  }

  // One `case` of the switch over the field number: the new value and the index behind the field.
  function UnmarshalField(kind: Kind, v: Value, wireType: int, b: seq<Byte>, i: nat): (r: Result<(Value, nat), Error>)
    requires i <= |b|
    ensures r.Ok? ==> i < r.value.1 <= |b|
    decreases |b| - i, 1
  {
    if wireType != kind.WireType() then Err(WrongWireType)
    else if kind.IsVarint() then
      ReadBounds(b, i, 0, 0);
      match ReadVarint(b, i, 0, 0)
      case Err(e) => Err(e)
      case Ok(u) => Ok((FromVarint(kind, u.value), u.next))
    else
      match ReadLength(b, i)
      case Err(e) => Err(e)
      case Ok(span) =>
        match Absorb(kind, v, b[span.0..span.1])
        case Err(e) => Err(e)
        case Ok(v') => Ok((v', span.1))
  }

  // The loop of Unmarshal from index i on.
  function UnmarshalFrom(s: Schema, m: Message, b: seq<Byte>, i: nat): Result<Message, Error>
    requires i <= |b| && |m.values| == |s.fields|
    decreases |b| - i, 0
  {
    if i == |b| then Ok(m)
    else
      ReadBounds(b, i, 0, 0);
      match ReadVarint(b, i, 0, 0)
      case Err(e) => Err(e)
      case Ok(tag) =>
        var num, wireType := ToInt32(tag.value / 8), tag.value % 8;
        if wireType == 4 then Err(EndGroupForNonGroup)
        else if num <= 0 then Err(IllegalTag)
        else
          match FieldIndex(s, num, 0)
          case Some(k) =>
            (match UnmarshalField(s.fields[k].kind, m.values[k], wireType, b, tag.next)
             case Err(e) => Err(e)
             case Ok(field) => UnmarshalFrom(s, m.(values := m.values[k := field.0]), b, field.1))
          case None =>
            (match Skip(b[i..], 0, 0)
             case Err(e) => Err(e)
             case Ok(n) =>
               if i + n >= TWO63 then Err(InvalidLength)
               else if i + n > |b| then Err(UnexpectedEOF)
               else UnmarshalFrom(s, m.(unrecognized := m.unrecognized + b[i..i + n]), b, i + n))
  }

  function Unmarshal(s: Schema, b: seq<Byte>): Result<Message, Error> { UnmarshalFrom(s, Empty(s), b, 0) }
}
