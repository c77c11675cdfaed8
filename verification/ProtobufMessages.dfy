// The message types of pkg/apiclient/rollout/rollout.proto. ObjectMeta and CanaryStep belong to other
// packages: a message without fields of its own keeps all their bytes as they are.
module ProtobufMessages {
  import opened Wrappers
  import opened Varint
  import opened Protobuf
  import opened ProtobufRoundTrip

  const OPAQUE := Schema([])
  const ROLLOUT_INFO_QUERY := Schema([Field(1, StringKind), Field(2, StringKind)])
  const UNDO_ROLLOUT_REQUEST := Schema([Field(1, StringKind), Field(2, Int64Kind), Field(3, StringKind)])
  const PROMOTE_ROLLOUT_REQUEST := Schema([Field(1, StringKind), Field(2, StringKind), Field(3, BoolKind)])
  const NAMESPACE_INFO := Schema([Field(1, StringKind), Field(2, RepeatedStringKind)])
  const CONTAINER_INFO := Schema([Field(1, StringKind), Field(2, StringKind)])
  const JOB_INFO := Schema([Field(1, MessageKind(OPAQUE)), Field(2, StringKind), Field(3, StringKind)])
  const ANALYSIS_RUN_INFO := Schema([
    Field(1, MessageKind(OPAQUE)), Field(2, StringKind), Field(3, Int32Kind), Field(4, StringKind),
    Field(5, Int32Kind), Field(6, Int32Kind), Field(7, Int32Kind), Field(8, Int32Kind),
    Field(9, RepeatedMessageKind(JOB_INFO))])
  const POD_INFO := Schema([
    Field(1, MessageKind(OPAQUE)), Field(2, StringKind), Field(3, StringKind), Field(4, StringKind), Field(5, Int32Kind)])
  const REPLICA_SET_INFO := Schema([
    Field(1, MessageKind(OPAQUE)), Field(2, StringKind), Field(3, StringKind), Field(4, Int32Kind), Field(5, BoolKind),
    Field(6, BoolKind), Field(7, BoolKind), Field(8, BoolKind), Field(9, Int32Kind), Field(10, Int32Kind),
    Field(11, StringKind), Field(12, StringKind), Field(13, RepeatedStringKind), Field(14, RepeatedMessageKind(POD_INFO))])
  const EXPERIMENT_INFO := Schema([
    Field(1, MessageKind(OPAQUE)), Field(2, StringKind), Field(3, Int32Kind), Field(4, StringKind), Field(5, StringKind),
    Field(6, RepeatedMessageKind(REPLICA_SET_INFO)), Field(7, RepeatedMessageKind(ANALYSIS_RUN_INFO))])
  const ROLLOUT_INFO := Schema([
    Field(1, MessageKind(OPAQUE)), Field(2, StringKind), Field(3, StringKind), Field(4, StringKind), Field(5, StringKind),
    Field(6, StringKind), Field(7, StringKind), Field(8, StringKind), Field(9, Int32Kind), Field(10, Int32Kind),
    Field(11, Int32Kind), Field(12, Int32Kind), Field(13, Int32Kind), Field(14, StringKind), Field(15, StringKind),
    Field(16, RepeatedMessageKind(REPLICA_SET_INFO)), Field(17, RepeatedMessageKind(EXPERIMENT_INFO)),
    Field(18, RepeatedMessageKind(ANALYSIS_RUN_INFO)), Field(19, RepeatedMessageKind(CONTAINER_INFO)),
    Field(20, RepeatedMessageKind(OPAQUE))])
  const ROLLOUT_WATCH_EVENT := Schema([Field(1, StringKind), Field(2, MessageKind(ROLLOUT_INFO))])

  // rollout.proto numbers the fields of every message 1, 2, 3, ...
  lemma {:induction false} NumberedFromOne(s: Schema)
    requires |s.fields| < 100 && forall k :: 0 <= k < |s.fields| ==> s.fields[k].num == k + 1 && ValidKind(s.fields[k].kind)
    ensures ValidSchema(s)
  {
  }

  lemma {:induction false} QuerySchemasAreValid()
    ensures ValidSchema(ROLLOUT_INFO_QUERY) && ValidSchema(UNDO_ROLLOUT_REQUEST)
    ensures ValidSchema(PROMOTE_ROLLOUT_REQUEST) && ValidSchema(NAMESPACE_INFO)
  {
    hide ValidSchema;
    NumberedFromOne(ROLLOUT_INFO_QUERY);
    NumberedFromOne(UNDO_ROLLOUT_REQUEST);
    NumberedFromOne(PROMOTE_ROLLOUT_REQUEST);
    NumberedFromOne(NAMESPACE_INFO);
  }

  lemma {:induction false} PartSchemasAreValid()
    ensures ValidSchema(OPAQUE) && ValidSchema(CONTAINER_INFO) && ValidSchema(ANALYSIS_RUN_INFO) && ValidSchema(REPLICA_SET_INFO)
  {
    hide ValidSchema;
    NumberedFromOne(OPAQUE);
    NumberedFromOne(CONTAINER_INFO);
    NumberedFromOne(JOB_INFO);
    NumberedFromOne(POD_INFO);
    NumberedFromOne(ANALYSIS_RUN_INFO);
    NumberedFromOne(REPLICA_SET_INFO);
  }

  lemma {:induction false} InfoSchemasAreValid()
    ensures ValidSchema(EXPERIMENT_INFO) && ValidSchema(ROLLOUT_INFO) && ValidSchema(ROLLOUT_WATCH_EVENT)
  {
    hide ValidSchema;
    PartSchemasAreValid();
    NumberedFromOne(EXPERIMENT_INFO);
    NumberedFromOne(ROLLOUT_INFO);
    NumberedFromOne(ROLLOUT_WATCH_EVENT);
  }

  // A string field as the generated writer puts it: a tag literal, the length, the bytes.
  function StringField(tag: Byte, s: seq<Byte>): seq<Byte> { if s == [] then [] else [tag] + Encoded(|s|) + s }

  function IntField(tag: Byte, x: int): seq<Byte> { if x == 0 then [] else [tag] + Encoded(FromInt64(x)) }

  lemma {:induction false} SmallTag(num: nat, wireType: nat)
    requires 8 * num + wireType < 128
    ensures Tag(num, wireType) == [8 * num + wireType]
  {
  }

  lemma {:induction false} LargeTag(num: nat, wireType: nat)
    requires 16 <= num < 32 && wireType < 8
    ensures Tag(num, wireType) == [8 * num + wireType, 1]
  {
    assert (8 * num + wireType) / 128 == 1;
    assert Encoded(1) == [1];
  }

  lemma {:induction false} FieldsOf(s: Schema, values: seq<Value>, unrecognized: seq<Byte>, k: nat)
    requires |values| == |s.fields| && k <= |values|
    ensures var m := Message(values, unrecognized);
            EncodeFrom(s, m, k) == if k == |values| then unrecognized else EncodeField(s.fields[k], values[k]) + EncodeFrom(s, m, k + 1)
  {
  }

  lemma {:induction false} ScalarFields(num: nat, s: seq<Byte>, x: int)
    requires 8 * num + 2 < 128
    ensures EncodeField(Field(num, StringKind), StringValue(s)) == StringField(8 * num + 2, s)
    ensures EncodeField(Field(num, Int64Kind), IntValue(x)) == IntField(8 * num, x)
    ensures EncodeField(Field(num, BoolKind), BoolValue(true)) == [8 * num, 1]
    ensures EncodeField(Field(num, BoolKind), BoolValue(false)) == []
  {
    hide Encoded, Tag;
    SmallTag(num, 2);
    SmallTag(num, 0);
  }

  // UndoRolloutRequest: the tag literals 0xa, 0x10 and 0x1a.
  lemma {:induction false} UndoRolloutRequestBytes(rollout: seq<Byte>, revision: int, namespace: seq<Byte>,
                                                   unrecognized: seq<Byte>)
    ensures Encode(UNDO_ROLLOUT_REQUEST, Message([StringValue(rollout), IntValue(revision), StringValue(namespace)], unrecognized))
            == StringField(0xa, rollout) + (IntField(0x10, revision) + (StringField(0x1a, namespace) + unrecognized))
  {
    hide Encoded, EncodeFrom, EncodeField;
    var values := [StringValue(rollout), IntValue(revision), StringValue(namespace)];
    ScalarFields(1, rollout, 0);
    ScalarFields(2, [], revision);
    ScalarFields(3, namespace, 0);
    FieldsOf(UNDO_ROLLOUT_REQUEST, values, unrecognized, 0);
    FieldsOf(UNDO_ROLLOUT_REQUEST, values, unrecognized, 1);
    FieldsOf(UNDO_ROLLOUT_REQUEST, values, unrecognized, 2);
    FieldsOf(UNDO_ROLLOUT_REQUEST, values, unrecognized, 3);
  }

  // PromoteRolloutRequest: a flag that is not set is not written.
  lemma {:induction false} PromoteRolloutRequestBytes(name: seq<Byte>, namespace: seq<Byte>, full: bool,
                                                      unrecognized: seq<Byte>)
    ensures Encode(PROMOTE_ROLLOUT_REQUEST, Message([StringValue(name), StringValue(namespace), BoolValue(full)], unrecognized))
            == StringField(0xa, name) + (StringField(0x12, namespace) + ((if full then [0x18, 1] else []) + unrecognized))
  {
    hide Encoded, EncodeFrom, EncodeField;
    var values := [StringValue(name), StringValue(namespace), BoolValue(full)];
    ScalarFields(1, name, 0);
    ScalarFields(2, namespace, 0);
    ScalarFields(3, [], 0);
    FieldsOf(PROMOTE_ROLLOUT_REQUEST, values, unrecognized, 0);
    FieldsOf(PROMOTE_ROLLOUT_REQUEST, values, unrecognized, 1);
    FieldsOf(PROMOTE_ROLLOUT_REQUEST, values, unrecognized, 2);
    FieldsOf(PROMOTE_ROLLOUT_REQUEST, values, unrecognized, 3);
  }

  // An UndoRolloutRequest is read back with any revision of 64 bits, negative ones included.
  lemma {:induction false} UndoRolloutRequestRoundTrip(rollout: seq<Byte>, revision: int, namespace: seq<Byte>,
                                                       unrecognized: seq<Byte>)
    requires -TWO63 <= revision < TWO63 && UnknownFields(UNDO_ROLLOUT_REQUEST, unrecognized)
    requires |StringField(0xa, rollout) + (IntField(0x10, revision) + (StringField(0x1a, namespace) + unrecognized))| < TWO63
    ensures Unmarshal(UNDO_ROLLOUT_REQUEST, StringField(0xa, rollout) + (IntField(0x10, revision) + (StringField(0x1a, namespace) + unrecognized)))
            == Ok(Message([StringValue(rollout), IntValue(revision), StringValue(namespace)], unrecognized))
  {
    hide Encoded, Encode, Unmarshal;
    QuerySchemasAreValid();
    UndoRolloutRequestBytes(rollout, revision, namespace, unrecognized);
    RoundTrip(UNDO_ROLLOUT_REQUEST, Message([StringValue(rollout), IntValue(revision), StringValue(namespace)], unrecognized));
  }
}
