// Labels and annotations that a rollout injects into the pod template of a ReplicaSet and takes back
// (utils/replicaset/canary.go).
module EphemeralMetadata {
  import opened Wrappers

  type Keys = map<string, string>

  // A pod template's labels and annotations; a map may be nil.
  datatype ObjectMeta = ObjectMeta(labels: Option<Keys>, annotations: Option<Keys>)

  // What a strategy wants injected. For reading and ranging, a nil map is an empty one.
  datatype PodMetadata = PodMetadata(labels: Keys, annotations: Keys)

  // The ephemeral-metadata annotation, which need not be readable.
  datatype Record = NotRecorded | Unreadable | Recorded(metadata: PodMetadata)

  datatype AnnotatedSet = AnnotatedSet(template: ObjectMeta, record: Record)

  function OrEmpty(m: Option<Keys>): Keys { if m.Some? then m.value else map[] }

  // Indexing a Go map: a missing key reads as the empty string.
  function At(m: Keys, k: string): string { if k in m then m[k] else "" }

  // The map after the desired keys were written; a key that is missing and wanted empty stays missing.
  function Injected(m: Keys, desired: Keys): Keys {
    map k | k in m.Keys + desired.Keys && (k in m || desired[k] != "") :: if k in desired then desired[k] else m[k]
  }

  // One of the two maps after a sync.
  function SyncedMap(m: Option<Keys>, existing: Keys, desired: Keys): Option<Keys> {
    if m.None? && desired == map[] then None
    else Some(Injected(OrEmpty(m), desired) - (existing.Keys - desired.Keys))
  }

  predicate ModifiesMap(m: Option<Keys>, existing: Keys, desired: Keys) {
    || Differs(OrEmpty(m), desired)
    || ((m.Some? || desired != map[]) && exists k :: k in existing && k !in desired)
  }

  predicate Differs(m: Keys, desired: Keys) { exists k :: k in desired && At(m, k) != desired[k] }

  lemma {:induction false} InjectOneMore(m: Keys, done: Keys, k: string, v: string)
    requires k !in done
    ensures At(Injected(m, done), k) == At(m, k)
    ensures Injected(m, done[k := v]) == if At(m, k) != v then Injected(m, done)[k := v] else Injected(m, done)
  {
    var next := if At(m, k) != v then Injected(m, done)[k := v] else Injected(m, done);
    assert forall j :: j in Injected(m, done[k := v]) <==> j in next;
    assert forall j :: j in next ==> Injected(m, done[k := v])[j] == next[j];
  }

  lemma {:induction false} DiffersOneMore(m: Keys, done: Keys, k: string, v: string)
    requires k !in done
    ensures Differs(m, done[k := v]) <==> Differs(m, done) || At(m, k) != v
  {
    if At(m, k) != v {
      assert k in done[k := v] && At(m, k) != done[k := v][k];
    }
    if Differs(m, done) {
      var j :| j in done && At(m, j) != done[j];
      assert j in done[k := v] && At(m, j) != done[k := v][j];
    }
  }

  // The loop that injects. Go ranges over a map in an arbitrary order.
  method InjectMap(m: Keys, desired: Keys) returns (written: Keys, modified: bool)
    ensures written == Injected(m, desired)
    ensures modified <==> Differs(m, desired)
  {
    hide Injected, Differs, At;
    written, modified := m, false;
    var todo := desired.Keys;
    NothingInjected(m);
    assert desired - todo == map[];
    while todo != {}
      invariant todo <= desired.Keys
      invariant written == Injected(m, desired - todo)
      invariant modified <==> Differs(m, desired - todo)
      decreases |todo|
    {
      var k :| k in todo;
      InjectOneMore(m, desired - todo, k, desired[k]);
      DiffersOneMore(m, desired - todo, k, desired[k]);
      assert desired - (todo - {k}) == (desired - todo)[k := desired[k]];
      if At(written, k) != desired[k] {
        written := written[k := desired[k]];
        modified := true;
      }
      todo := todo - {k};
    }
    assert desired - {} == desired;
  }

  lemma {:induction false} NothingInjected(m: Keys)
    ensures Injected(m, map[]) == m && !Differs(m, map[])
  {
  }

  // The loop that removes what is no longer desired.
  method RemoveFromMap(m: Keys, existing: Keys, desired: Keys) returns (kept: Keys, modified: bool)
    ensures kept == m - (existing.Keys - desired.Keys)
    ensures modified <==> exists k :: k in existing && k !in desired
  {
    kept, modified := m, false;
    var rest := existing.Keys;
    while rest != {}
      invariant rest <= existing.Keys
      invariant kept == m - (existing.Keys - desired.Keys - rest)
      invariant modified <==> exists k :: k in existing && k !in desired && k !in rest
      decreases |rest|
    {
      var k :| k in rest;
      if k !in desired {
        kept := kept - {k};
        modified := true;
      }
      rest := rest - {k};
    }
  }

  // SyncEphemeralPodMetadata for one of the two maps; a nil map is only allocated when something is to be injected.
  method SyncMap(m: Option<Keys>, existing: Keys, desired: Keys) returns (synced: Option<Keys>, modified: bool)
    ensures synced == SyncedMap(m, existing, desired)
    ensures modified <==> ModifiesMap(m, existing, desired)
  {
    if m.None? && |desired| == 0 { return None, false; }
    var written, injects := InjectMap(OrEmpty(m), desired);
    var kept, removes := RemoveFromMap(written, existing, desired);
    return Some(kept), injects || removes;
  }

  // ParseExistingPodMetadata
  function Existing(record: Record): PodMetadata {
    if record.Recorded? then record.metadata else PodMetadata(map[], map[])
  }

  function Desired(podMetadata: Option<PodMetadata>): PodMetadata {
    if podMetadata.Some? then podMetadata.value else PodMetadata(map[], map[])
  }

  predicate Modifies(rs: AnnotatedSet, podMetadata: Option<PodMetadata>) {
    var existing, desired := Existing(rs.record), Desired(podMetadata);
    ModifiesMap(rs.template.labels, existing.labels, desired.labels) || ModifiesMap(rs.template.annotations, existing.annotations, desired.annotations)
  }

  // SyncReplicaSetEphemeralPodMetadata as a function.
  function Synced(rs: AnnotatedSet, podMetadata: Option<PodMetadata>): AnnotatedSet {
    var existing, desired := Existing(rs.record), Desired(podMetadata);
    if !Modifies(rs, podMetadata) then rs
    else
      AnnotatedSet(ObjectMeta(SyncedMap(rs.template.labels, existing.labels, desired.labels),
                            SyncedMap(rs.template.annotations, existing.annotations, desired.annotations)),
                 if podMetadata.Some? then Recorded(podMetadata.value) else NotRecorded)
  }

  method SyncReplicaSetEphemeralPodMetadata(rs: AnnotatedSet, podMetadata: Option<PodMetadata>)
    returns (rs': AnnotatedSet, modified: bool)
    ensures rs' == Synced(rs, podMetadata) && modified == Modifies(rs, podMetadata)
  {
    hide SyncedMap, ModifiesMap;
    var existing, desired := Existing(rs.record), Desired(podMetadata);
    var annotations, annotationsModified := SyncMap(rs.template.annotations, existing.annotations, desired.annotations);
    var labels, labelsModified := SyncMap(rs.template.labels, existing.labels, desired.labels);
    if !annotationsModified && !labelsModified { return rs, false; }
    rs' := AnnotatedSet(ObjectMeta(labels, annotations), rs.record);
    if podMetadata.Some? {
      rs' := rs'.(record := Recorded(podMetadata.value));
    } else {
      rs' := rs'.(record := NotRecorded);
    }
    return rs', true;
  }

  /******* What a call touches *******/

  // A key that was not injected before and is not desired now reads as it did, and is there if it was there.
  lemma {:induction false} OtherKeysUntouched(m: Option<Keys>, existing: Keys, desired: Keys, k: string)
    requires k !in existing && k !in desired
    ensures var m' := OrEmpty(SyncedMap(m, existing, desired));
            (k in m' <==> k in OrEmpty(m)) && (k in m' ==> m'[k] == OrEmpty(m)[k])
  {
  }

  // Desired keys read as desired afterwards.
  lemma {:induction false} DesiredKeysInjected(m: Option<Keys>, existing: Keys, desired: Keys, k: string)
    requires k in desired
    ensures At(OrEmpty(SyncedMap(m, existing, desired)), k) == desired[k]
  {
  }

  // A map that a template lacks is not made for the sake of keys to remove, and that is no modification.
  lemma {:induction false} NilMapStaysNil(m: Option<Keys>, existing: Keys, desired: Keys)
    requires m.None?
    ensures SyncedMap(m, existing, desired).None? <==> desired == map[]
    ensures desired == map[] ==> !ModifiesMap(m, existing, desired)
  {
  }

  // A call that reports no modification would have changed nothing but turn a nil map into an empty one.
  lemma {:induction false} UnmodifiedIsUnchanged(m: Option<Keys>, existing: Keys, desired: Keys)
    requires !ModifiesMap(m, existing, desired)
    ensures OrEmpty(SyncedMap(m, existing, desired)) == OrEmpty(m)
  {
    if m.Some? || desired != map[] {
      assert existing.Keys - desired.Keys == {} by {
        assert forall k :: k in existing ==> k in desired;
      }
      var injected := Injected(OrEmpty(m), desired);
      assert forall k :: k in desired ==> At(OrEmpty(m), k) == desired[k];
      assert forall k :: k in injected <==> k in OrEmpty(m);
      assert forall k :: k in injected ==> injected[k] == OrEmpty(m)[k];
      assert injected == OrEmpty(m);
      assert injected - (existing.Keys - desired.Keys) == injected;
    }
  }

  // Repeating a call reports no modification.
  lemma {:induction false} RepeatIsQuiet(rs: AnnotatedSet, podMetadata: Option<PodMetadata>)
    ensures !Modifies(Synced(rs, podMetadata), podMetadata)
  {
    hide SyncedMap, ModifiesMap;
    if Modifies(rs, podMetadata) {
      var existing, desired := Existing(rs.record), Desired(podMetadata);
      SyncedMapIsQuiet(rs.template.labels, existing.labels, desired.labels);
      SyncedMapIsQuiet(rs.template.annotations, existing.annotations, desired.annotations);
    }
  }

  lemma {:induction false} SyncedMapIsQuiet(m: Option<Keys>, existing: Keys, desired: Keys)
    ensures !ModifiesMap(SyncedMap(m, existing, desired), desired, desired)
  {
    forall k | k in desired ensures At(OrEmpty(SyncedMap(m, existing, desired)), k) == desired[k] {
      DesiredKeysInjected(m, existing, desired, k);
    }
  }

  /******* Round trip *******/

  // m is the original map and some keys that are recorded as injected.
  ghost predicate OriginalPlus(original: Keys, m: Keys, recorded: set<string>) {
    forall k :: (k in original ==> k in m && m[k] == original[k]) && (k in m && k !in original ==> k in recorded)
  }

  lemma {:induction false} SyncKeepsOriginal(original: Keys, m: Option<Keys>, existing: Keys, desired: Keys)
    requires OriginalPlus(original, OrEmpty(m), existing.Keys)
    requires original.Keys !! existing.Keys && original.Keys !! desired.Keys
    ensures OriginalPlus(original, OrEmpty(SyncedMap(m, existing, desired)), desired.Keys)
    ensures !ModifiesMap(m, existing, desired) ==> OriginalPlus(original, OrEmpty(SyncedMap(m, existing, desired)), existing.Keys)
  {
    var m' := OrEmpty(SyncedMap(m, existing, desired));
    forall k | k in original ensures k in m' && m'[k] == original[k] {
      OtherKeysUntouched(m, existing, desired, k);
    }
    if !ModifiesMap(m, existing, desired) {
      UnmodifiedIsUnchanged(m, existing, desired);
    }
  }

  // The template is the original one and what the record lists, and the two have no key in common.
  ghost predicate Tracked(original: ObjectMeta, rs: AnnotatedSet) {
    var existing := Existing(rs.record);
    && OriginalPlus(OrEmpty(original.labels), OrEmpty(rs.template.labels), existing.labels.Keys)
    && OriginalPlus(OrEmpty(original.annotations), OrEmpty(rs.template.annotations), existing.annotations.Keys)
    && OrEmpty(original.labels).Keys !! existing.labels.Keys
    && OrEmpty(original.annotations).Keys !! existing.annotations.Keys
  }

  ghost predicate DisjointFrom(original: ObjectMeta, podMetadata: Option<PodMetadata>) {
    && OrEmpty(original.labels).Keys !! Desired(podMetadata).labels.Keys
    && OrEmpty(original.annotations).Keys !! Desired(podMetadata).annotations.Keys
  }

  lemma {:induction false} SyncKeepsTracked(original: ObjectMeta, rs: AnnotatedSet, podMetadata: Option<PodMetadata>)
    requires Tracked(original, rs) && DisjointFrom(original, podMetadata)
    ensures Tracked(original, Synced(rs, podMetadata))
  {
    hide SyncedMap, ModifiesMap, OriginalPlus;
    var existing, desired := Existing(rs.record), Desired(podMetadata);
    SyncKeepsOriginal(OrEmpty(original.labels), rs.template.labels, existing.labels, desired.labels);
    SyncKeepsOriginal(OrEmpty(original.annotations), rs.template.annotations, existing.annotations, desired.annotations);
  }

  function SyncedAll(rs: AnnotatedSet, wanted: seq<Option<PodMetadata>>): AnnotatedSet {
    if wanted == [] then rs else Synced(SyncedAll(rs, wanted[..|wanted| - 1]), wanted[|wanted| - 1])
  }

  lemma {:induction false} AllKeepTracked(original: ObjectMeta, rs: AnnotatedSet, wanted: seq<Option<PodMetadata>>)
    requires Tracked(original, rs) && forall i :: 0 <= i < |wanted| ==> DisjointFrom(original, wanted[i])
    ensures Tracked(original, SyncedAll(rs, wanted))
  {
    hide Synced, Tracked;
    if wanted != [] {
      AllKeepTracked(original, rs, wanted[..|wanted| - 1]);
      SyncKeepsTracked(original, SyncedAll(rs, wanted[..|wanted| - 1]), wanted[|wanted| - 1]);
    }
  }

  // The labels and annotations are back.
  predicate Restored(original: ObjectMeta, template: ObjectMeta) {
    OrEmpty(template.labels) == OrEmpty(original.labels) && OrEmpty(template.annotations) == OrEmpty(original.annotations)
  }

  // Taking everything back leaves nothing but the original.
  lemma {:induction false} RemovalRestores(original: ObjectMeta, rs: AnnotatedSet)
    requires Tracked(original, rs)
    ensures Restored(original, Synced(rs, None).template)
  {
    hide SyncedMap, ModifiesMap, OriginalPlus;
    var existing := Existing(rs.record);
    RemovalRestoresMap(OrEmpty(original.labels), rs.template.labels, existing.labels);
    RemovalRestoresMap(OrEmpty(original.annotations), rs.template.annotations, existing.annotations);
  }

  lemma {:induction false} RemovalRestoresMap(original: Keys, m: Option<Keys>, existing: Keys)
    requires OriginalPlus(original, OrEmpty(m), existing.Keys) && original.Keys !! existing.Keys
    ensures OrEmpty(SyncedMap(m, existing, map[])) == original
    ensures !ModifiesMap(m, existing, map[]) ==> OrEmpty(m) == original
  {
    SyncKeepsOriginal(original, m, existing, map[]);
    if !ModifiesMap(m, existing, map[]) {
      UnmodifiedIsUnchanged(m, existing, map[]);
    }
    assert forall k :: k in OrEmpty(SyncedMap(m, existing, map[])) <==> k in original;
  }

  // For a template whose keys the strategies never use, any sequence of injections and removals followed by a removal
  // gives the original labels and annotations back.
  lemma {:induction false} RoundTrip(original: ObjectMeta, wanted: seq<Option<PodMetadata>>)
    requires forall i :: 0 <= i < |wanted| ==> DisjointFrom(original, wanted[i])
    ensures Restored(original, Synced(SyncedAll(AnnotatedSet(original, NotRecorded), wanted), None).template)
  {
    hide Synced;
    AllKeepTracked(original, AnnotatedSet(original, NotRecorded), wanted);
    RemovalRestores(original, SyncedAll(AnnotatedSet(original, NotRecorded), wanted));
  }

  /******* Templates that share keys with what is injected *******/

  // A key of the original template is lost once it is recorded as injected: the next modification without it removes
  // it, and nothing brings it back for good.
  predicate LostKey(m: Option<Keys>, existing: Keys, k: string) { k in existing || k !in OrEmpty(m) }

  ghost predicate Lost(original: ObjectMeta, rs: AnnotatedSet) {
    || (exists k :: k in OrEmpty(original.labels) && LostKey(rs.template.labels, Existing(rs.record).labels, k))
    || (exists k :: k in OrEmpty(original.annotations) && LostKey(rs.template.annotations, Existing(rs.record).annotations, k))
  }

  lemma {:induction false} LostKeyStaysLost(m: Option<Keys>, existing: Keys, desired: Keys, k: string)
    requires LostKey(m, existing, k)
    ensures LostKey(SyncedMap(m, existing, desired), desired, k)
    ensures !ModifiesMap(m, existing, map[]) ==> k !in OrEmpty(m)
  {
  }

  lemma {:induction false} StaysLost(original: ObjectMeta, rs: AnnotatedSet, podMetadata: Option<PodMetadata>)
    requires Lost(original, rs) || (Modifies(rs, podMetadata) && !DisjointFrom(original, podMetadata))
    ensures Lost(original, Synced(rs, podMetadata))
  {
    hide SyncedMap, ModifiesMap, LostKey;
    var existing, desired := Existing(rs.record), Desired(podMetadata);
    if Modifies(rs, podMetadata) {
      KeysStayLost(OrEmpty(original.labels), rs.template.labels, existing.labels, desired.labels);
      KeysStayLost(OrEmpty(original.annotations), rs.template.annotations, existing.annotations, desired.annotations);
    }
  }

  lemma {:induction false} KeysStayLost(original: Keys, m: Option<Keys>, existing: Keys, desired: Keys)
    ensures (exists k :: k in original && LostKey(m, existing, k)) || !(original.Keys !! desired.Keys) ==>
              exists k :: k in original && LostKey(SyncedMap(m, existing, desired), desired, k)
  {
    hide SyncedMap;
    if k :| k in original && LostKey(m, existing, k) {
      LostKeyStaysLost(m, existing, desired, k);
    }
    if k :| k in original && k in desired {
      assert LostKey(SyncedMap(m, existing, desired), desired, k);
    }
  }

  lemma {:induction false} LostIsNotRestored(original: ObjectMeta, rs: AnnotatedSet)
    requires Lost(original, rs)
    ensures !Restored(original, Synced(rs, None).template)
  {
    hide SyncedMap, ModifiesMap;
    var existing := Existing(rs.record);
    forall k ensures LostKey(rs.template.labels, existing.labels, k) ==> k !in OrEmpty(Synced(rs, None).template.labels) {
      if LostKey(rs.template.labels, existing.labels, k) {
        LostKeyStaysLost(rs.template.labels, existing.labels, map[], k);
      }
    }
    forall k ensures LostKey(rs.template.annotations, existing.annotations, k) ==> k !in OrEmpty(Synced(rs, None).template.annotations) {
      if LostKey(rs.template.annotations, existing.annotations, k) {
        LostKeyStaysLost(rs.template.annotations, existing.annotations, map[], k);
      }
    }
  }

  // No call that modifies something wants a key of the original template; calls that have nothing to modify are not
  // recorded.
  ghost predicate OnlyForeignKeys(original: ObjectMeta, wanted: seq<Option<PodMetadata>>) {
    wanted == [] ||
    var before := wanted[..|wanted| - 1];
    && OnlyForeignKeys(original, before)
    && (Modifies(SyncedAll(AnnotatedSet(original, NotRecorded), before), wanted[|wanted| - 1]) ==>
          DisjointFrom(original, wanted[|wanted| - 1]))
  }

  lemma {:induction false} TrackedOrLost(original: ObjectMeta, wanted: seq<Option<PodMetadata>>)
    ensures var rs := SyncedAll(AnnotatedSet(original, NotRecorded), wanted);
            if OnlyForeignKeys(original, wanted) then Tracked(original, rs) else Lost(original, rs)
  {
    hide Tracked, Lost, Modifies, DisjointFrom;
    if wanted == [] {
      StartsTracked(original);
    } else {
      var before, last := wanted[..|wanted| - 1], wanted[|wanted| - 1];
      var rs := SyncedAll(AnnotatedSet(original, NotRecorded), before);
      TrackedOrLost(original, before);
      if !OnlyForeignKeys(original, wanted) {
        StaysLost(original, rs, last);
      } else if Modifies(rs, last) {
        SyncKeepsTracked(original, rs, last);
      }
    }
  }

  lemma {:induction false} StartsTracked(original: ObjectMeta)
    ensures Tracked(original, AnnotatedSet(original, NotRecorded))
  {
  }

  // So the round trip fails for some templates. Any sequence of calls followed by a removal gives the original labels
  // and annotations back exactly when no call that modified the template wanted a key that it has.
  lemma {:induction false} RestoredExactlyWhen(original: ObjectMeta, wanted: seq<Option<PodMetadata>>)
    ensures Restored(original, Synced(SyncedAll(AnnotatedSet(original, NotRecorded), wanted), None).template)
       <==> OnlyForeignKeys(original, wanted)
  {
    hide Synced, Tracked, Lost;
    var rs := SyncedAll(AnnotatedSet(original, NotRecorded), wanted);
    TrackedOrLost(original, wanted);
    if OnlyForeignKeys(original, wanted) {
      RemovalRestores(original, rs);
    } else {
      LostIsNotRestored(original, rs);
    }
  }
}
