// A message on its way from one side to the other: what Marshal writes, Unmarshal reads.
module ProtobufWire {
  import opened Wrappers
  import opened Varint
  import opened Protobuf
  import opened ProtobufBuffer
  import opened ProtobufRoundTrip

  // A message whose values have the kinds of their fields can be marshalled.
  lemma {:induction false} WellFormedIsShaped(s: Schema, m: Message)
    requires WellFormed(s, m)
    ensures Shaped(s, m)
    decreases m
  {
    hide UnknownFields;
    forall k | 0 <= k < |m.values| ensures ShapedValue(s.fields[k].kind, m.values[k]) {
      KindIsShaped(s.fields[k].kind, m.values[k]);
    }
  }

  lemma {:induction false} KindIsShaped(kind: Kind, v: Value)
    requires HasKind(kind, v)
    ensures ShapedValue(kind, v)
    decreases v
  {
    match v
    case MessageValue(m) =>
      if m.Some? {
        WellFormedIsShaped(kind.schema, m.value);
      }
    case MessagesValue(ms) =>
      forall j | 0 <= j < |ms| ensures Shaped(kind.schema, ms[j]) {
        WellFormedIsShaped(kind.schema, ms[j]);
      }
    case _ =>
  }

  // The buffer that Marshal fills is read back as the message by the loop of Unmarshal, whatever the schema.
  method Transmit(s: Schema, m: Message) returns (received: Result<Message, Error>)
    requires ValidSchema(s) && WellFormed(s, m) && |Encode(s, m)| < TWO63
    ensures received == Ok(m)
  {
    hide Encode, UnmarshalFrom, WellFormed, ValidSchema;
    WellFormedIsShaped(s, m);
    var dAtA := Marshal(s, m);
    RoundTrip(s, m);
    received := UnmarshalInto(s, Empty(s), dAtA[..]);
  }
}
