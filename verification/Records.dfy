/**
 The repository's tables and how they are read (src/repository.rs, src/layer.rs, src/publish.rs).
 A hash identity is the value it identifies: checkpoints and version identities are compared whole.
 */
module Records {
  import opened Names
  import opened Chunks
  import opened Directories
  import opened Apply
  import opened Domain

  type OperationId = nat

  /** A World version's identity: a hash chain over roots and changesets. */
  datatype Identity = Identity(parent: Option<Identity>, tree: Snapshot, changes: Changeset)

  datatype Version = Version(number: nat, id: Identity, tree: Snapshot, operation: Option<OperationId>)

  /** A recorded World advance. A Layer publication records no tree of its own. */
  datatype Attempt = Attempt(expected: nat, tree: Option<Snapshot>, accepted: bool, result: nat)

  /** An immutable capture of a Layer over a frozen base version. */
  datatype Checkpoint = Checkpoint(base: nat, changes: Changeset, sources: set<Checkpoint>, provenance: Option<nat>)

  datatype Event = Event(checkpoint: Checkpoint, discarded: bool, operation: Option<OperationId>)

  /** A recorded Layer update, with its Stack source and resolution when it is a Stack. */
  datatype LayerAttempt = LayerAttempt(layer: LayerId, expected: nat, checkpoint: Checkpoint, discard: bool,
    accepted: bool, result: nat,
                                       source: Option<Checkpoint>, resolution: Option<nat>)

  datatype Head = Head(layer: LayerId, revision: nat, checkpoint: Checkpoint)

  datatype LayerState =
    | Active(head: Head)
    | Discarded(layer: LayerId, revision: nat, checkpoint: Checkpoint)
    | Published(head: Head, operation: OperationId, version: Version)

  datatype Attribution = Human | Agent(context: Option<nat>, allowMissingTrace: bool)
  datatype Outcome = Landed(version: Version) | Conflicted(paths: set<Path>) | LayerStale(actual: LayerState)
  datatype Receipt = Receipt(operation: OperationId, expected: Head, attribution: Attribution, against: Version,
    missingTrace: bool, outcome: Outcome)

  datatype Tag = SUCCESS | CONFLICT | STALE

  /** A publication row with the receipt it names. */
  datatype Row = Row(layer: LayerId, expected: nat, checkpoint: Checkpoint, against: nat, observed: nat,
    observedPublication: Option<OperationId>,
                     attribution: Attribution, tag: Tag, result: Option<nat>, worldOperation: Option<OperationId>,
                       receipt: Receipt)

  /** An indexed Layer path: its entry and the checkpoint and provenance that last set it. */
  datatype Tracked = Tracked(entry: Option<FileEntry>, checkpoint: Checkpoint, provenance: Option<nat>)
  type Index = map<(Path, LayerId), Tracked>

  datatype Tables = Tables(
    versions: seq<Version>,
    changes: seq<Changeset>,
    attempts: map<OperationId, Attempt>,
    events: map<LayerId, seq<Event>>,
    layerAttempts: map<OperationId, LayerAttempt>,
    publications: map<OperationId, Row>,
    index: Index,
    contexts: set<nat>)

  const GENESIS: Version := Version(0, Identity(None, map[], map[]), map[], None)
  const INITIAL: Tables := Tables([GENESIS], [map[]], map[], map[], map[], map[], map[], {})

  // ------------------------------------------------------------------------------- readings

  function WorldHead(s: Tables): Version
    requires s.versions != []
  {
    s.versions[|s.versions| - 1]
  }

  function EventState(layer: LayerId, revision: nat, event: Event): LayerState {
    if event.discarded then Discarded(layer, revision, event.checkpoint)
      else Active(Head(layer, revision, event.checkpoint))
  }

  /** The state a Layer event recorded. */
  function StateAt(s: Tables, layer: LayerId, revision: nat): Option<LayerState> {
    if layer in s.events
      && revision < |s.events[layer]| then Some(EventState(layer, revision, s.events[layer][revision])) else None
  }

  function LatestState(s: Tables, layer: LayerId): Option<LayerState> {
    if layer in s.events && s.events[layer] != [] then StateAt(s, layer, |s.events[layer]| - 1) else None
  }

  /** The head an Active event recorded. */
  function HeadAt(s: Tables, layer: LayerId, revision: nat): Option<Head> {
    var state := StateAt(s, layer, revision);
    if state.Some? && state.value.Active? then Some(state.value.head) else None
  }

  /** A head token that names an Active event exactly. */
  predicate HeadVerified(s: Tables, head: Head) {
    HeadAt(s, head.layer, head.revision) == Some(head)
  }

  predicate Succeeded(s: Tables, layer: LayerId, operation: OperationId) {
    operation in s.publications && s.publications[operation].layer == layer && s.publications[operation].tag == SUCCESS
  }

  predicate HasSucceeded(s: Tables, layer: LayerId) {
    exists operation :: operation in s.publications && Succeeded(s, layer, operation)
  }

  /** The state a successful publication leaves its Layer in. */
  function SuccessState(s: Tables, operation: OperationId): Option<LayerState>
    requires operation in s.publications
  {
    var row := s.publications[operation];
    var head := HeadAt(s, row.layer, row.expected);
    if row.tag == SUCCESS && head.Some? && row.result.Some? && row.result.value < |s.versions|
    then Some(Published(head.value, operation, s.versions[row.result.value])) else None
  }

  /** A checkpoint as the reader accepts it: over an existing base, and normalized against it. */
  predicate CheckpointValid(s: Tables, checkpoint: Checkpoint) {
    checkpoint.base < |s.versions| && Normalized(s.versions[checkpoint.base].tree, checkpoint.changes)
  }

  /** Nothing recorded is ever changed or removed; what is added cannot disturb what is recorded. */
  ghost predicate Grows(s: Tables, t: Tables) {
    && s.versions <= t.versions
    && s.changes <= t.changes
    && (forall op :: op in s.attempts ==> op in t.attempts && t.attempts[op] == s.attempts[op])
    && (forall op :: op in t.attempts && op !in s.attempts ==> op !in s.publications)
    && (forall layer :: layer in s.events ==> layer in t.events && s.events[layer] <= t.events[layer])
    && (forall layer :: layer in s.events && HasSucceeded(s, layer) ==> t.events[layer] == s.events[layer])
    && (forall op :: op in s.layerAttempts ==> op in t.layerAttempts && t.layerAttempts[op] == s.layerAttempts[op])
    && (forall op :: op in s.publications ==> op in t.publications && t.publications[op] == s.publications[op])
    && (forall op :: op in t.publications && op !in s.publications && t.publications[op].tag == SUCCESS ==>
          t.publications[op].result.Some? && t.publications[op].result.value >= |s.versions|)
    && s.contexts <= t.contexts
  }

  lemma {:induction false} GrowsSame(s: Tables)
    ensures Grows(s, s)
  {
  }

  lemma {:induction false} GrowsOn(s: Tables, t: Tables, u: Tables)
    requires Grows(s, t) && Grows(t, u)
    ensures Grows(s, u)
  {
    hide Succeeded;
    forall layer | layer in s.events && HasSucceeded(s, layer) ensures u.events[layer] == s.events[layer]
    {
      SuccessStays(s, t, layer);
    }
    forall layer | layer in s.events ensures layer in u.events && s.events[layer] <= u.events[layer]
    {
      assert s.events[layer] <= t.events[layer] <= u.events[layer];
    }
  }

  lemma {:induction false} SuccessStays(s: Tables, t: Tables, layer: LayerId)
    requires Grows(s, t) && HasSucceeded(s, layer)
    ensures HasSucceeded(t, layer)
  {
    var op :| op in s.publications && Succeeded(s, layer, op);
    assert Succeeded(t, layer, op);
  }

  lemma {:induction false} StateStays(s: Tables, t: Tables, layer: LayerId, revision: nat)
    requires Grows(s, t) && StateAt(s, layer, revision).Some?
    ensures StateAt(t, layer, revision) == StateAt(s, layer, revision)
    ensures HeadAt(t, layer, revision) == HeadAt(s, layer, revision)
  {
    assert s.events[layer] <= t.events[layer];
    assert s.events[layer][revision] == t.events[layer][revision];
  }

  lemma {:induction false} VersionStays(s: Tables, t: Tables, number: nat)
    requires Grows(s, t) && number < |s.versions|
    ensures number < |t.versions| && t.versions[number] == s.versions[number]
  {
  }
}
