/**
 What each transaction does, told from the tables before it, the tables after it and its reply alone
 (src/publish.rs, src/layer.rs, src/repository.rs).
 */
module Transactions {
  import opened Names
  import opened Chunks
  import opened Directories
  import opened Apply
  import opened Domain
  import opened Records
  import opened Layers
  import opened Publishing
  import opened Commits
  import opened Runs

  // ------------------------------------------------------------------------- states of a Layer

  /** `head` names an event of its Layer that is no discard. */
  predicate Known(s: Tables, head: Head) {
    && head.layer in s.events && head.revision < |s.events[head.layer]|
    && !s.events[head.layer][head.revision].discarded
    && s.events[head.layer][head.revision].checkpoint == head.checkpoint
  }

  ghost predicate IsPublished(s: Tables, layer: LayerId) {
    exists op :: op in s.publications && s.publications[op].layer == layer && s.publications[op].tag == SUCCESS
  }

  /** `head` is its Layer's last event, and the Layer was never published. */
  ghost predicate IsActive(s: Tables, head: Head) {
    Known(s, head) && head.revision == |s.events[head.layer]| - 1 && !IsPublished(s, head.layer)
  }

  /** The state an event leaves its Layer in. */
  function Leaves(layer: LayerId, revision: nat, event: Event): LayerState {
    if event.discarded then Discarded(layer, revision, event.checkpoint)
    else Active(Head(layer, revision, event.checkpoint))
  }

  /** What a Layer is: its one publication with the version that made, or else its last event. */
  ghost predicate IsState(s: Tables, layer: LayerId, state: LayerState) {
    match state
    case Active(head) => head.layer == layer && IsActive(s, head)
    case Discarded(of, revision, checkpoint) =>
      && of == layer && layer in s.events && revision == |s.events[layer]| - 1 && !IsPublished(s, layer)
      && s.events[layer][revision].discarded && s.events[layer][revision].checkpoint == checkpoint
    case Published(head, operation, version) =>
      && operation in s.publications
      && var row := s.publications[operation];
      && row.layer == layer && row.tag == SUCCESS && row.receipt.outcome == Landed(version)
      && version in s.versions && version.operation == Some(operation)
      && head == Head(layer, row.expected, row.checkpoint)
      && Known(s, head) && head.revision == |s.events[layer]| - 1
  }

  lemma {:induction false} KnownVerified(s: Tables, head: Head)
    ensures HeadVerified(s, head) <==> Known(s, head)
    ensures Known(s, head) ==> head.layer in s.events && s.events[head.layer] != []
  {
  }

  lemma {:induction false} PublishedSucceeded(s: Tables, layer: LayerId)
    ensures HasSucceeded(s, layer) <==> IsPublished(s, layer)
  {
    if op :| op in s.publications && s.publications[op].layer == layer && s.publications[op].tag == SUCCESS {
      assert Succeeded(s, layer, op);
    }
  }

  lemma {:induction false} EventIsState(s: Tables, layer: LayerId)
    requires !HasSucceeded(s, layer) && layer in s.events && s.events[layer] != []
    ensures LayerStateIn(s, layer).Some? && IsState(s, layer, LayerStateIn(s, layer).value)
  {
    PublishedSucceeded(s, layer);
    hide HasSucceeded, IsPublished;
  }

  lemma {:induction false} SuccessIsState(s: Tables, layer: LayerId)
    requires WorldChecked(s) && PublicationsChecked(s) && HasSucceeded(s, layer)
    ensures LayerStateIn(s, layer).Some? && LayerStateIn(s, layer).value.Published?
    ensures IsState(s, layer, LayerStateIn(s, layer).value)
  {
    hide HasSucceeded, WorldChecked, OutcomeIn, ObservedIn, TerminalSeen, WarningsFor;
    var op := SuccessOf(s, layer);
    assert ReceiptIn(s, op).Some?;
    SuccessReceipt(s, op);
  }

  /** What the tables are read to say a Layer is, it is. */
  lemma {:induction false} StateRead(s: Tables, head: Head)
    requires WorldChecked(s) && PublicationsChecked(s) && Known(s, head)
    ensures LayerStateIn(s, head.layer).Some? && IsState(s, head.layer, LayerStateIn(s, head.layer).value)
    ensures LayerStateIn(s, head.layer) == Some(Active(head)) <==> IsActive(s, head)
  {
    hide WorldChecked, PublicationsChecked, LayerStateIn, IsPublished, HasSucceeded;
    PublishedSucceeded(s, head.layer);
    if HasSucceeded(s, head.layer) {
      SuccessIsState(s, head.layer);
    } else {
      EventIsState(s, head.layer);
      LastIsActive(s, head);
    }
  }

  lemma {:induction false} LastIsActive(s: Tables, head: Head)
    requires Known(s, head) && !HasSucceeded(s, head.layer)
    ensures LayerStateIn(s, head.layer) == Some(Active(head)) <==> head.revision == |s.events[head.layer]| - 1
  {
    hide HasSucceeded;
  }

  // -------------------------------------------------------------------------------- publishing

  /** The paths on which a checkpoint's changes meet what the World changed since its base. */
  function Meets(s: Tables, checkpoint: Checkpoint): set<Path>
    requires s.versions != [] && checkpoint.base < |s.versions|
  {
    Touched(s.versions[checkpoint.base].tree, s.versions[|s.versions| - 1].tree, checkpoint.changes.Keys)
  }

  /** An attribution that names an agent's trace. */
  predicate NamesTrace(attribution: Attribution) {
    attribution.Agent? && attribution.context.Some?
  }

  /** An attribution that can be published: a person, a known trace, or no trace when that is allowed. */
  predicate Acceptable(s: Tables, attribution: Attribution) {
    && attribution != Agent(None, false)
    && (NamesTrace(attribution) ==> attribution.context.value in s.contexts && !attribution.allowMissingTrace)
  }

  /** Why a publish under a new operation is refused. */
  ghost predicate PublishRefused(s: Tables, expected: Head, attribution: Attribution, allowed: bool, why: Reason)
    requires s.versions != []
  {
    match why
    case InvalidHead => !Known(s, expected)
    case MissingAgentTrace => Known(s, expected) && attribution == Agent(None, false)
    case Corrupt => Known(s, expected) && NamesTrace(attribution) && attribution.context.value !in s.contexts
    case InvalidInput =>
      && Known(s, expected) && NamesTrace(attribution) && attribution.context.value in s.contexts
      && attribution.allowMissingTrace
    case GuardRefused =>
      && IsActive(s, expected) && Acceptable(s, attribution) && !allowed
      && expected.checkpoint.base < |s.versions| && Meets(s, expected.checkpoint) == {}
    case _ => false
  }

  /** What a publish writes besides its row. */
  ghost predicate PublishOutcome(s: Tables, operation: OperationId, expected: Head, t: Tables, outcome: Outcome)
    requires s.versions != [] && expected.checkpoint.base < |s.versions|
  {
    var head, changes := s.versions[|s.versions| - 1], expected.checkpoint.changes;
    match outcome
    case Landed(version) =>
      && IsActive(s, expected) && Meets(s, expected.checkpoint) == {}
      && version.number == |s.versions| == head.number + 1 && version.operation == Some(operation)
      && version.tree == Changed(head.tree, changes)
      && version.id == Identity(Some(head.id), version.tree, changes)
      && t.versions == s.versions + [version] && t.changes == s.changes + [changes]
      && t.attempts == s.attempts[operation := Attempt(head.number, None, true, version.number)]
      && (forall row :: row in t.index <==> row in s.index && row.1 != expected.layer)
      && (forall row :: row in t.index ==> t.index[row] == s.index[row])
    case Conflicted(paths) =>
      && IsActive(s, expected) && Meets(s, expected.checkpoint) == paths != {}
      && t == s.(publications := t.publications)
    case LayerStale(actual) =>
      && !IsActive(s, expected) && IsState(s, expected.layer, actual)
      && t == s.(publications := t.publications)
  }

  /** The row a publish writes: its input, what it saw, and its receipt. */
  ghost predicate PublishRow(s: Tables, operation: OperationId, expected: Head, attribution: Attribution, row: Row)
    requires s.versions != []
  {
    var receipt := row.receipt;
    && expected.layer in s.events
    && row.layer == expected.layer && row.expected == expected.revision && row.checkpoint == expected.checkpoint
    && row.attribution == attribution && row.against == |s.versions| - 1
    && receipt.operation == operation && receipt.expected == expected && receipt.attribution == attribution
    && receipt.against == s.versions[|s.versions| - 1]
    && (receipt.missingTrace <==> attribution == Agent(None, true))
    && row.result == (if receipt.outcome.Landed? then Some(|s.versions|) else None)
    && row.worldOperation == (if receipt.outcome.Landed? then Some(operation) else None)
    && match receipt.outcome
       case Landed(_) => row.tag == SUCCESS && row.observed == expected.revision && row.observedPublication == None
       case Conflicted(_) => row.tag == CONFLICT && row.observed == expected.revision && row.observedPublication == None
       case LayerStale(actual) =>
         && row.tag == STALE && row.observed == |s.events[expected.layer]| - 1
         && row.observedPublication == if actual.Published? then Some(actual.operation) else None
  }

  /**
   A publish under a new operation. It is refused, with nothing changed, exactly for the stated
   reasons. Otherwise its receipt is recorded: the Layer is stale unless `expected` is its active
   head; an active Layer conflicts on exactly the paths where it meets the World, and lands as one
   more version, the World changed by the Layer's whole changeset, when there are none.
   */
  ghost predicate FreshPublish(s: Tables, operation: OperationId, expected: Head, attribution: Attribution,
      allowed: bool, t: Tables, reply: Reply<Receipt>)
  {
    && s.versions != []
    && (Known(s, expected) ==> expected.checkpoint.base < |s.versions|)
    && (forall why :: reply == Refuse(why) <==> PublishRefused(s, expected, attribution, allowed, why))
    && (reply.Refuse? ==> t == s)
    && (reply.Done? ==>
          && Known(s, expected) && operation in t.publications
          && t.publications == s.publications[operation := t.publications[operation]]
          && t.events == s.events && t.layerAttempts == s.layerAttempts && t.contexts == s.contexts
          && reply.value == t.publications[operation].receipt
          && PublishRow(s, operation, expected, attribution, t.publications[operation])
          && PublishOutcome(s, operation, expected, t, reply.value.outcome))
  }

  /** A publish: a recorded operation answers the same input with its receipt, and nothing else. */
  ghost predicate PublishLaw(s: Tables, operation: OperationId, expected: Head, attribution: Attribution,
      allowed: bool, t: Tables, reply: Reply<Receipt>)
  {
    if operation in s.publications then
      var receipt := s.publications[operation].receipt;
      && t == s
      && reply == if receipt.expected == expected && receipt.attribution == attribution then Done(receipt)
        else Refuse(OperationIdReused)
    else if operation in s.attempts then t == s && reply == Refuse(OperationIdReused)
    else FreshPublish(s, operation, expected, attribution, allowed, t, reply)
  }

  /** In a checked state the base of a known head is a version of the World. */
  lemma {:induction false} KnownBase(s: Tables, head: Head)
    requires Checked(s) && Known(s, head)
    ensures s.versions != [] && head.checkpoint.base < |s.versions| && WorldHead(s).number == |s.versions| - 1
  {
    hide LayersChecked, IndexChecked, PublicationsChecked, Normalized, Follows, AttemptChecked;
    KnownVerified(s, head);
    HeadChecked(s, head);
    TreesPrefixFree(s, |s.versions| - 1);
  }

  /** What planning makes of a known head and an acceptable attribution. */
  lemma {:induction false} PlanMade(s: Tables, operation: OperationId, expected: Head, attribution: Attribution)
    requires Checked(s) && Known(s, expected) && Acceptable(s, attribution)
    requires operation !in s.publications && operation !in s.attempts
    ensures s.versions != [] && expected.checkpoint.base < |s.versions|
    ensures LayerStateIn(s, expected.layer).Some?
    ensures var actual, meets := LayerStateIn(s, expected.layer).value, Meets(s, expected.checkpoint);
      var against, changes := WorldHead(s), expected.checkpoint.changes;
      Prepare(s, operation, expected, attribution) == Ready(Plan(against, actual, attribution == Agent(None, true),
        if actual != Active(expected) then None
        else Some(if meets != {} then Intersecting(meets) else Candidate(changes, Changed(against.tree, changes)))))
  {
    hide LayersChecked, IndexChecked, WorldChecked, PublicationsChecked, LayerStateIn, Grounded, Touched, Changed,
      Known, IsActive, HeadVerified, IsState;
    KnownVerified(s, expected);
    KnownBase(s, expected);
    StateRead(s, expected);
    GroundedChecked(s, expected.layer);
  }

  /** What planning refuses. */
  lemma {:induction false} PlanRefused(s: Tables, operation: OperationId, expected: Head, attribution: Attribution)
    requires operation !in s.publications && operation !in s.attempts
    requires !Known(s, expected) || !Acceptable(s, attribution)
    ensures Prepare(s, operation, expected, attribution) == NotReady(
      if !Known(s, expected) then InvalidHead
      else if attribution == Agent(None, false) then MissingAgentTrace
      else if attribution.context.value !in s.contexts then Corrupt else InvalidInput)
  {
    hide Known, HeadVerified;
    KnownVerified(s, expected);
  }

  /** The index of a Layer that was published keeps every other Layer's rows and none of its own. */
  lemma {:induction false} Emptied(index: Index, layer: LayerId)
    ensures forall row :: row in Replaced(index, layer, map[]) <==> row in index && row.1 != layer
    ensures forall row :: row in Replaced(index, layer, map[]) ==> Replaced(index, layer, map[])[row] == index[row]
  {
    forall row
      ensures row in Replaced(index, layer, map[]) <==> row in index && row.1 != layer
      ensures row in Replaced(index, layer, map[]) ==> Replaced(index, layer, map[])[row] == index[row]
    {
      ReplacedRow(index, layer, map[], row);
    }
  }

  /** A plan as a checked state makes it. */
  ghost predicate PlanMatches(s: Tables, expected: Head, attribution: Attribution, plan: Plan) {
    && Known(s, expected) && s.versions != [] && expected.checkpoint.base < |s.versions|
    && WorldHead(s).number == |s.versions| - 1
    && IsState(s, expected.layer, plan.actual) && (plan.actual == Active(expected) <==> IsActive(s, expected))
    && var meets, changes := Meets(s, expected.checkpoint), expected.checkpoint.changes;
       plan == Plan(WorldHead(s), plan.actual, attribution == Agent(None, true),
         if plan.actual != Active(expected) then None
         else Some(if meets != {} then Intersecting(meets)
           else Candidate(changes, Changed(WorldHead(s).tree, changes))))
  }

  lemma {:induction false} RowWritten(s: Tables, operation: OperationId, expected: Head, attribution: Attribution,
      plan: Plan)
    requires PlanMatches(s, expected, attribution, plan)
    ensures PublishRow(s, operation, expected, attribution, RowFor(operation, expected, attribution, plan))
  {
    hide Meets, Changed, IsPublished;
  }

  lemma {:induction false} OutcomeWritten(s: Tables, operation: OperationId, expected: Head, attribution: Attribution,
      plan: Plan)
    requires PlanMatches(s, expected, attribution, plan)
    ensures PublishOutcome(s, operation, expected, Committed(s, operation, expected, attribution, plan),
      OutcomeFor(operation, plan))
  {
    hide Meets, Replaced, Changed, IsActive, IsState, Known, RowFor;
    Emptied(s.index, expected.layer);
  }

  /** What committing a plan for the state it was made in writes. */
  lemma {:induction false} CommitWrites(s: Tables, operation: OperationId, expected: Head, attribution: Attribution,
      plan: Plan)
    requires PlanMatches(s, expected, attribution, plan)
    ensures s.versions != [] && expected.checkpoint.base < |s.versions|
    ensures var t := Committed(s, operation, expected, attribution, plan);
      && operation in t.publications
      && t.publications == s.publications[operation := t.publications[operation]]
      && t.events == s.events && t.layerAttempts == s.layerAttempts && t.contexts == s.contexts
      && PublishRow(s, operation, expected, attribution, t.publications[operation])
      && PublishOutcome(s, operation, expected, t, t.publications[operation].receipt.outcome)
  {
    hide Meets, Replaced, Changed, PublishRow, PublishOutcome, IsState, IsActive, Known, RowFor;
    CommittedRow(s, operation, expected, attribution, plan);
    RowWritten(s, operation, expected, attribution, plan);
    Emptied(s.index, expected.layer);
    assert PublishOutcome(s, operation, expected, Committed(s, operation, expected, attribution, plan),
      OutcomeFor(operation, plan)) by {
      OutcomeWritten(s, operation, expected, attribution, plan);
    }
    RowReceipt(operation, expected, attribution, plan);
  }

  lemma {:induction false} RowReceipt(operation: OperationId, expected: Head, attribution: Attribution, plan: Plan)
    ensures RowFor(operation, expected, attribution, plan).receipt.outcome == OutcomeFor(operation, plan)
  {
  }

  /** A publish under a new operation in a checked state. */
  lemma {:induction false} AtomicFresh(s: Tables, operation: OperationId, expected: Head, attribution: Attribution,
      allowed: bool)
    requires Checked(s) && operation !in s.publications && operation !in s.attempts
    ensures var (t, reply) := AtomicPublish(s, operation, expected, attribution, allowed);
      FreshPublish(s, operation, expected, attribution, allowed, t, reply)
  {
    hide Checked, Prepare, Known, IsActive, IsState, Meets, Committed, RowFor, PublishRow, PublishOutcome,
      LayerStateIn, Changed;
    assert s.versions != [] by { CheckedHead(s); }
    if Known(s, expected) {
      KnownBase(s, expected);
    }
    if !Known(s, expected) || !Acceptable(s, attribution) {
      PlanRefused(s, operation, expected, attribution);
      ActiveKnown(s, expected);
    } else {
      PlanMade(s, operation, expected, attribution);
      CheckedStateRead(s, expected);
      var plan := Prepare(s, operation, expected, attribution).plan;
      CommitWrites(s, operation, expected, attribution, plan);
      CommittedRow(s, operation, expected, attribution, plan);
      ActiveKnown(s, expected);
    }
  }

  lemma {:induction false} ActiveKnown(s: Tables, head: Head)
    ensures IsActive(s, head) ==> Known(s, head)
  {
  }

  lemma {:induction false} CommittedRow(s: Tables, operation: OperationId, expected: Head, attribution: Attribution,
      plan: Plan)
    ensures var t := Committed(s, operation, expected, attribution, plan);
      operation in t.publications && t.publications[operation] == RowFor(operation, expected, attribution, plan)
  {
  }

  lemma {:induction false} CheckedHead(s: Tables)
    requires Checked(s)
    ensures s.versions != []
  {
    VersionsFilled(s);
  }

  lemma {:induction false} CheckedStateRead(s: Tables, head: Head)
    requires Checked(s) && Known(s, head)
    ensures LayerStateIn(s, head.layer).Some? && IsState(s, head.layer, LayerStateIn(s, head.layer).value)
    ensures LayerStateIn(s, head.layer) == Some(Active(head)) <==> IsActive(s, head)
  {
    StateRead(s, head);
  }

  /** Publishing does what the tables before it say, whatever the input. */
  lemma {:induction false} AtomicLaw(s: Tables, operation: OperationId, expected: Head, attribution: Attribution,
      allowed: bool)
    requires Checked(s)
    ensures var (t, reply) := AtomicPublish(s, operation, expected, attribution, allowed);
      PublishLaw(s, operation, expected, attribution, allowed, t, reply)
  {
    hide Checked, FreshPublish, ReceiptIn;
    if operation in s.publications {
      RecordedReceipt(s, operation);
    } else if operation !in s.attempts {
      AtomicFresh(s, operation, expected, attribution, allowed);
    }
  }

  lemma {:induction false} RecordedReceipt(s: Tables, operation: OperationId)
    requires Checked(s) && operation in s.publications
    ensures ReceiptIn(s, operation) == Some(s.publications[operation].receipt)
  {
    hide LayersChecked, IndexChecked, WorldChecked, ReceiptIn;
    assert ReceiptIn(s, operation).Some?;
    ReceiptNamed(s, operation);
  }

  /** What a receipt says of the World and the Layer its row names. */
  ghost predicate OutcomeCertified(s: Tables, operation: OperationId, row: Row, outcome: Outcome)
    requires row.against < |s.versions| && row.checkpoint.base < |s.versions|
  {
    var expected, head := Head(row.layer, row.expected, row.checkpoint), s.versions[row.against];
    var meets := Touched(s.versions[row.checkpoint.base].tree, head.tree, row.checkpoint.changes.Keys);
    match outcome
    case Landed(version) =>
      && row.tag == SUCCESS && meets == {} && row.against + 1 < |s.versions| && row.against + 1 < |s.changes|
      && version == s.versions[row.against + 1] && version.operation == Some(operation)
      && version.tree == Changed(head.tree, row.checkpoint.changes)
      && s.changes[row.against + 1] == row.checkpoint.changes
    case Conflicted(paths) => row.tag == CONFLICT && paths == meets != {}
    case LayerStale(actual) =>
      && row.tag == STALE && actual != Active(expected)
      && match row.observedPublication
         case None =>
           row.layer in s.events && row.observed < |s.events[row.layer]|
           && actual == Leaves(row.layer, row.observed, s.events[row.layer][row.observed])
         case Some(prior) =>
           actual.Published? && actual.operation == prior && prior in s.publications
           && s.publications[prior].layer == row.layer && s.publications[prior].tag == SUCCESS
  }

  /** A receipt that derives is true of the tables, whoever wrote its row. */
  lemma {:induction false} ReceiptCertifies(s: Tables, operation: OperationId)
    requires WorldChecked(s) && operation in s.publications && ReceiptIn(s, operation).Some?
    ensures var row := s.publications[operation];
      && row.against < |s.versions| && row.checkpoint.base <= row.against
      && row.receipt.operation == operation && row.receipt.expected == Head(row.layer, row.expected, row.checkpoint)
      && Known(s, row.receipt.expected) && row.receipt.attribution == row.attribution
      && row.attribution != Agent(None, false)
      && (NamesTrace(row.attribution) ==> row.attribution.context.value in s.contexts)
      && (row.receipt.missingTrace <==> row.attribution == Agent(None, true))
      && row.receipt.against == s.versions[row.against]
      && OutcomeCertified(s, operation, row, row.receipt.outcome)
      && forall other ::
           other in s.publications && s.publications[other].layer == row.layer && s.publications[other].tag == SUCCESS
           && s.publications[other].result.Some? && s.publications[other].result.value <= row.against ==>
             row.observedPublication == Some(other)
  {
    hide WorldChecked, Touched, Changed, OutcomeIn, ObservedIn, OutcomeCertified;
    var row := s.publications[operation];
    TreesPrefixFree(s, row.against);
    var expected := HeadAt(s, row.layer, row.expected).value;
    var observed := ObservedIn(s, operation).value;
    OutcomeDerived(s, operation, expected, s.versions[row.against], observed);
  }

  lemma {:induction false} OutcomeDerived(s: Tables, operation: OperationId, expected: Head, against: Version,
      observed: LayerState)
    requires operation in s.publications && ObservedIn(s, operation) == Some(observed)
    requires var row := s.publications[operation];
      && expected == Head(row.layer, row.expected, row.checkpoint)
      && row.against < |s.versions| && against == s.versions[row.against] && against.number == row.against
      && row.checkpoint.base <= row.against
    requires OutcomeIn(s, operation, expected, against, observed).Some?
    ensures OutcomeCertified(s, operation, s.publications[operation],
      OutcomeIn(s, operation, expected, against, observed).value)
  {
    hide Touched, Changed;
  }

  // ------------------------------------------------------------------------------- updating

  /** Changes that delete no directory by its own path: nothing is left or added below a deleted path without a file. */
  ghost predicate DeletesFiles(files: Snapshot, changes: Changeset) {
    forall p, q :: p in changes && changes[p] == None && p !in files && p < q ==>
      q !in files && (q in changes ==> changes[q] == None)
  }

  lemma {:induction false} DeletesFilesIs(files: Snapshot, changes: Changeset)
    ensures DeletesFiles(files, changes) <==> forall p :: !DeletesDirectory(files, changes, p)
  {
    if forall p :: !DeletesDirectory(files, changes, p) {
      forall p, q | p in changes && changes[p] == None && p !in files && p < q
        ensures q !in files && (q in changes ==> changes[q] == None)
      {
        assert !DeletesDirectory(files, changes, p);
      }
    }
  }

  /** An update that normalizing does not refuse, and whose source, if it has one, is a checkpoint. */
  ghost predicate Takes(s: Tables, base: nat, change: Change)
    requires base < |s.versions|
  {
    change.Discard?
    || var files := s.versions[base].tree;
       && DeletesFiles(files, change.changes) && PrefixFree(Changed(files, change.changes))
       && (change.Stack? ==>
             change.source.base < |s.versions|
             && Normalized(s.versions[change.source.base].tree, change.source.changes))
  }

  /**
   The checkpoint an update makes of its head: the captured changes over the same base, without
   no-ops, with the Stack's source added. A discard keeps the checkpoint.
   */
  ghost predicate Makes(s: Tables, expected: Head, change: Change, provenance: Option<nat>, made: Checkpoint)
    requires expected.checkpoint.base < |s.versions|
  {
    if change.Discard? then made == expected.checkpoint
    else
      var files := s.versions[expected.checkpoint.base].tree;
      && made.base == expected.checkpoint.base && made.provenance == provenance
      && made.sources == expected.checkpoint.sources + (if change.Stack? then {change.source} else {})
      && Changed(files, made.changes) == Changed(files, change.changes)
      && Normalized(files, made.changes)
  }

  /** A recorded attempt has this input. */
  ghost predicate Repeats(s: Tables, attempt: LayerAttempt, expected: Head, change: Change, provenance: Option<nat>)
    requires expected.checkpoint.base < |s.versions|
  {
    && attempt.layer == expected.layer && attempt.expected == expected.revision && attempt.discard == change.Discard?
    && attempt.source == (if change.Stack? then Some(change.source) else None)
    && attempt.resolution == (if change.Stack? then change.resolution else None)
    && Makes(s, expected, change, provenance, attempt.checkpoint)
  }

  /** Why an update is refused. */
  ghost predicate UpdateRefused(s: Tables, operation: OperationId, expected: Head, change: Change,
      provenance: Option<nat>, why: Reason)
  {
    var recorded := operation in s.layerAttempts;
    match why
    case InvalidHead => !Known(s, expected)
    case LayerPublished => Known(s, expected) && !recorded && IsPublished(s, expected.layer)
    case InvalidInput =>
      && Known(s, expected) && (recorded || !IsPublished(s, expected.layer))
      && expected.checkpoint.base < |s.versions| && !Takes(s, expected.checkpoint.base, change)
    case OperationIdReused =>
      && Known(s, expected) && recorded
      && expected.checkpoint.base < |s.versions| && Takes(s, expected.checkpoint.base, change)
      && !Repeats(s, s.layerAttempts[operation], expected, change, provenance)
    case _ => false
  }

  /** The reply to a recorded update: its own event, or the one that was latest when it came too late. */
  ghost predicate Answers(t: Tables, operation: OperationId, update: LayerUpdate)
    requires operation in t.layerAttempts
  {
    var attempt := t.layerAttempts[operation];
    && attempt.layer in t.events && attempt.expected < attempt.result < |t.events[attempt.layer]|
    && var event := t.events[attempt.layer][attempt.result];
    && update.state == Leaves(attempt.layer, attempt.result, event)
    && (update.Applied? <==> attempt.accepted)
    && (attempt.accepted ==> attempt.result == attempt.expected + 1)
    && (attempt.accepted ==> event == Event(attempt.checkpoint, attempt.discard, Some(operation)))
  }

  /** The rows of one Layer after an update: none once discarded, and otherwise those its history gives. */
  ghost predicate UpdatedRows(s: Tables, t: Tables, layer: LayerId, discarded: bool) {
    && (forall row: (Path, LayerId) :: row.1 != layer ==> (row in t.index <==> row in s.index))
    && (forall row: (Path, LayerId) :: row.1 != layer && row in t.index ==> t.index[row] == s.index[row])
    && layer in t.events
    && if discarded then forall row :: row in t.index ==> row.1 != layer
       else RowsTrace(t.events[layer], LayerRows(t.index, layer))
  }

  /** What a new update writes: its attempt and, if it expected the latest event, an event and the index rows. */
  ghost predicate UpdateWrites(s: Tables, operation: OperationId, expected: Head, change: Change, t: Tables)
    requires Known(s, expected) && operation in t.layerAttempts
  {
    var attempt, events := t.layerAttempts[operation], s.events[expected.layer];
    && !IsPublished(s, expected.layer)
    && t == s.(layerAttempts := s.layerAttempts[operation := attempt], events := t.events, index := t.index)
    && (attempt.accepted <==> expected.revision == |events| - 1)
    && if attempt.accepted then
         var event := Event(attempt.checkpoint, change.Discard?, Some(operation));
         && t.events == s.events[expected.layer := events + [event]]
         && attempt.result == |events|
         && UpdatedRows(s, t, expected.layer, change.Discard?)
       else t.events == s.events && t.index == s.index && attempt.result == |events| - 1
  }

  /**
   A Layer update. It is refused, with nothing changed, exactly for the stated reasons. Otherwise
   its attempt is recorded with the checkpoint it makes, and answered; a retry changes nothing.
   */
  ghost predicate UpdateLaw(s: Tables, operation: OperationId, expected: Head, change: Change, provenance: Option<nat>,
      t: Tables, reply: Reply<LayerUpdate>)
  {
    && (Known(s, expected) ==> expected.checkpoint.base < |s.versions|)
    && (forall why :: reply == Refuse(why) <==> UpdateRefused(s, operation, expected, change, provenance, why))
    && (reply.Refuse? ==> t == s)
    && (reply.Done? ==>
          && Known(s, expected) && operation in t.layerAttempts
          && Repeats(s, t.layerAttempts[operation], expected, change, provenance)
          && Answers(t, operation, reply.value)
          && if operation in s.layerAttempts then t == s else UpdateWrites(s, operation, expected, change, t))
  }

  /** The checkpoint an update proposes is the one it makes, whenever it is taken. */
  lemma {:induction false} ProposedMade(s: Tables, expected: Head, change: Change, provenance: Option<nat>)
    requires LayersChecked(s) && Known(s, expected)
    ensures CheckpointValid(s, expected.checkpoint)
    ensures Proposed(s, expected, change, provenance).Some? <==> Takes(s, expected.checkpoint.base, change)
    ensures Proposed(s, expected, change, provenance).Some? ==> forall made ::
      Makes(s, expected, change, provenance, made) <==> made == Proposed(s, expected, change, provenance).value
  {
    hide LayersChecked, Known, DeletesFiles, DeletesDirectory, PrefixFree, Changed, Differences;
    KnownVerified(s, expected);
    HeadChecked(s, expected);
    if !change.Discard? {
      DeletesFilesIs(s.versions[expected.checkpoint.base].tree, change.changes);
    }
    if !change.Discard? && Takes(s, expected.checkpoint.base, change) {
      var files := s.versions[expected.checkpoint.base].tree;
      var proposed := Proposed(s, expected, change, provenance).value;
      DifferenceArrives(files, Changed(files, change.changes));
      DifferenceNormalized(files, change.changes);
      forall made
        ensures Makes(s, expected, change, provenance, made) <==> made == proposed
      {
        if Makes(s, expected, change, provenance, made) {
          NormalizedStays(files, made.changes);
        }
      }
    }
  }

  lemma {:induction false} OutcomeAnswers(t: Tables, operation: OperationId)
    requires operation in t.layerAttempts && OutcomeOf(t, operation).Some?
    ensures Answers(t, operation, OutcomeOf(t, operation).value)
  {
    hide CheckpointValid;
  }

  lemma {:induction false} OtherRows(index: Index, layer: LayerId, rows: map<Path, Tracked>)
    ensures forall row: (Path, LayerId) :: row.1 != layer ==> (row in Replaced(index, layer, rows) <==> row in index)
    ensures forall row: (Path, LayerId) :: row.1 != layer && row in Replaced(index, layer, rows) ==>
      Replaced(index, layer, rows)[row] == index[row]
    ensures rows == map[] ==> forall row :: row in Replaced(index, layer, rows) ==> row.1 != layer
  {
    forall row: (Path, LayerId)
      ensures row in Replaced(index, layer, rows) <==> if row.1 == layer then row.0 in rows else row in index
      ensures row in Replaced(index, layer, rows) && row.1 != layer ==> Replaced(index, layer, rows)[row] == index[row]
    {
      ReplacedRow(index, layer, rows, row);
    }
  }

  /** A Layer that a head was recorded for is active, so its rows are the ones its history gives. */
  lemma {:induction false} ActiveTraces(s: Tables, layer: LayerId)
    requires IndexChecked(s) && !HasSucceeded(s, layer) && layer in s.events && s.events[layer] != []
    requires !s.events[layer][|s.events[layer]| - 1].discarded
    ensures RowsTrace(s.events[layer], LayerRows(s.index, layer))
  {
    hide HasSucceeded, LayerRows, Attributed, RowsTrace;
    assert LayerRows(s.index, layer) == Derived(s, layer);
    AttributedTraces(s.events[layer]);
  }

  lemma {:induction false} RecordedRows(s: Tables, operation: OperationId, expected: Head, checkpoint: Checkpoint,
      change: Change)
    requires IndexChecked(s) && Writes(s, operation, expected, checkpoint, change)
    requires expected.layer in s.events && expected.revision == |s.events[expected.layer]| - 1
    ensures UpdatedRows(s, Recorded(s, operation, expected, checkpoint, change), expected.layer, change.Discard?)
  {
    hide HasSucceeded, LayerRows, Attributed, RowsTrace, Replaced, Refreshed, IndexChecked, CheckpointValid;
    var layer := expected.layer;
    var t := Recorded(s, operation, expected, checkpoint, change);
    OtherRows(s.index, layer, if change.Discard? then map[] else Refreshed(LayerRows(s.index, layer), checkpoint));
    if !change.Discard? {
      RecordedIndexed(s, operation, expected, checkpoint, change);
      SamePublications(s, t, layer);
      ActiveTraces(t, layer);
    }
  }

  lemma {:induction false} RecordedWrites(s: Tables, operation: OperationId, expected: Head, checkpoint: Checkpoint,
      change: Change)
    requires LayersChecked(s) && IndexChecked(s) && Writes(s, operation, expected, checkpoint, change)
    ensures Known(s, expected)
    ensures var t := Recorded(s, operation, expected, checkpoint, change);
      && operation in t.layerAttempts
      && UpdateWrites(s, operation, expected, change, t)
      && OutcomeOf(t, operation).Some? && Answers(t, operation, OutcomeOf(t, operation).value)
  {
    hide LayersChecked, IndexChecked, HasSucceeded, IsPublished, UpdatedRows, Replaced, Refreshed, LayerRows, Answers,
      OutcomeOf, CheckpointValid;
    var t := Recorded(s, operation, expected, checkpoint, change);
    KnownVerified(s, expected);
    PublishedSucceeded(s, expected.layer);
    RecordedOutcome(s, operation, expected, checkpoint, change);
    OutcomeAnswers(t, operation);
    if expected.revision == |s.events[expected.layer]| - 1 {
      RecordedRows(s, operation, expected, checkpoint, change);
    }
  }

  /** Updating a Layer does what the tables before it say, whatever the input. */
  lemma {:induction false} UpdateDoes(s: Tables, operation: OperationId, expected: Head, change: Change,
      provenance: Option<nat>)
    requires Checked(s)
    ensures var (t, reply) := Update(s, operation, expected, change, provenance);
      UpdateLaw(s, operation, expected, change, provenance, t, reply)
  {
    hide LayersChecked, IndexChecked, WorldChecked, PublicationsChecked, Proposed, Takes, Makes, Known, HeadVerified,
      HasSucceeded, IsPublished, Recorded, OutcomeOf, Answers, UpdateWrites, CheckpointValid;
    KnownVerified(s, expected);
    PublishedSucceeded(s, expected.layer);
    if Known(s, expected) {
      ProposedMade(s, expected, change, provenance);
      BaseInWorld(s, expected.checkpoint);
      var proposed := Proposed(s, expected, change, provenance);
      if operation in s.layerAttempts {
        RecordedAnswer(s, operation);
      } else if proposed.Some? && !HasSucceeded(s, expected.layer) {
        ProposedWrites(s, operation, expected, change, provenance);
        RecordedWrites(s, operation, expected, proposed.value, change);
        RecordedAttempt(s, operation, expected, proposed.value, change);
      }
    }
  }

  lemma {:induction false} BaseInWorld(s: Tables, checkpoint: Checkpoint)
    requires CheckpointValid(s, checkpoint)
    ensures checkpoint.base < |s.versions|
  {
  }

  lemma {:induction false} RecordedAnswer(s: Tables, operation: OperationId)
    requires LayersChecked(s) && operation in s.layerAttempts
    ensures OutcomeOf(s, operation).Some? && Answers(s, operation, OutcomeOf(s, operation).value)
  {
    hide OutcomeOf, Answers, EventChecked;
    OutcomeAnswers(s, operation);
  }

  lemma {:induction false} RecordedAttempt(s: Tables, operation: OperationId, expected: Head, checkpoint: Checkpoint,
      change: Change)
    requires expected.layer in s.events && s.events[expected.layer] != []
    ensures var t := Recorded(s, operation, expected, checkpoint, change);
      && operation in t.layerAttempts
      && var a := t.layerAttempts[operation];
      && a.layer == expected.layer && a.expected == expected.revision && a.checkpoint == checkpoint
      && a.discard == change.Discard? && a.source == change.Source() && a.resolution == change.Resolution()
  {
    hide Replaced, Refreshed;
  }

  // ------------------------------------------------------------------------- creating a Layer

  /** A Layer's first event, or the head of the one it has when that is over the same checkpoint. */
  ghost predicate CreateLaw(s: Tables, layer: LayerId, checkpoint: Checkpoint, t: Tables, reply: Reply<Head>) {
    if layer in s.events && s.events[layer] != [] then
      && t == s
      && reply == if s.events[layer][0].checkpoint == checkpoint then Done(Head(layer, 0, checkpoint))
        else Refuse(InvalidInput)
    else
      && reply == Done(Head(layer, 0, checkpoint))
      && t == s.(events := s.events[layer := [Event(checkpoint, false, None)]], index := t.index)
      && UpdatedRows(s, t, layer, false)
  }

  lemma {:induction false} CreateDoes(s: Tables, layer: LayerId, checkpoint: Checkpoint)
    requires Checked(s)
    ensures var (t, reply) := CreateIn(s, layer, checkpoint); CreateLaw(s, layer, checkpoint, t, reply)
  {
    hide LayersChecked, WorldChecked, PublicationsChecked, HasSucceeded, LayerRows, RowsTrace, Replaced, Refreshed,
      Attributed;
    if layer !in s.events || s.events[layer] == [] {
      var event := Event(checkpoint, false, None);
      OtherRows(s.index, layer, Refreshed(LayerRows(s.index, layer), checkpoint));
      assert LayerRows(s.index, layer) == Derived(s, layer) == map[];
      ReplacedReads(s.index, layer, Refreshed(map[], checkpoint), layer);
      NoRows();
      RefreshedTraces([], event, map[]);
      assert [] + [event] == [event];
    }
  }

  // ----------------------------------------------------------------------- advancing the World

  /** Why a World advance is refused. */
  ghost predicate AdvanceRefused(s: Tables, operation: OperationId, expected: nat, tree: Snapshot, why: Reason) {
    var recorded := operation in s.publications || operation in s.attempts;
    match why
    case OperationIdReused =>
      || operation in s.publications
      || (operation in s.attempts
          && (s.attempts[operation].expected != expected || s.attempts[operation].tree != Some(tree)))
    case MissingVersion => !recorded && expected >= |s.versions|
    case InvalidInput => !recorded && expected < |s.versions| && !PrefixFree(tree)
    case _ => false
  }

  /** What a new World attempt writes: itself and, if it expected the head, the version that follows. */
  ghost predicate AdvanceLeaves(s: Tables, operation: OperationId, expected: nat, tree: Snapshot, t: Tables)
    requires s.versions != []
  {
    var head := s.versions[|s.versions| - 1];
    && operation in t.attempts
    && t.attempts == s.attempts[operation := t.attempts[operation]]
    && t == s.(attempts := t.attempts, versions := t.versions, changes := t.changes)
    && if expected == |s.versions| - 1 then
         && t.attempts[operation] == Attempt(expected, Some(tree), true, |s.versions|)
         && |t.versions| == |t.changes| == |s.versions| + 1
         && s.versions <= t.versions && s.changes <= t.changes
         && var version, changes := t.versions[|s.versions|], t.changes[|s.versions|];
            && version == Version(|s.versions|, Identity(Some(head.id), tree, changes), tree, Some(operation))
            && Changed(head.tree, changes) == tree && Normalized(head.tree, changes)
       else
         && t.attempts[operation] == Attempt(expected, Some(tree), false, |s.versions| - 1)
         && t.versions == s.versions && t.changes == s.changes
  }

  /**
   A World advance. It is refused, with nothing changed, exactly for the stated reasons. Otherwise
   it is recorded, and the reply is the version it made or the head it was behind; a retry changes
   nothing.
   */
  ghost predicate AdvanceLaw(s: Tables, operation: OperationId, expected: nat, tree: Snapshot, t: Tables,
      reply: Reply<AdvanceOutcome>)
  {
    && s.versions != []
    && (forall why :: reply == Refuse(why) <==> AdvanceRefused(s, operation, expected, tree, why))
    && (reply.Refuse? ==> t == s)
    && (reply.Done? ==>
          && operation in t.attempts && t.attempts[operation].result < |t.versions|
          && (if operation in s.attempts then t == s else AdvanceLeaves(s, operation, expected, tree, t))
          && var attempt := t.attempts[operation];
             && attempt.expected == expected && attempt.tree == Some(tree)
             && reply.value == if attempt.accepted then Accepted(t.versions[attempt.result])
               else Behind(attempt.result))
  }

  lemma {:induction false} AdvanceDoes(s: Tables, operation: OperationId, expected: nat, tree: Snapshot)
    requires Checked(s)
    ensures s.versions != []
    ensures var (t, reply) := AdvanceIn(s, operation, expected, tree);
      AdvanceLaw(s, operation, expected, tree, t, reply)
  {
    hide LayersChecked, IndexChecked, PublicationsChecked, PrefixFree, Differences, Changed, Normalized, Follows,
      AttemptChecked, AdvanceLeaves, AttemptOutcome;
    TreesPrefixFree(s, |s.versions| - 1);
    if operation in s.attempts {
      AttemptAnswers(s, operation);
    } else if operation !in s.publications && PrefixFree(tree) && expected < |s.versions| {
      NewAttempt(s, operation, expected, tree);
      hide AdvanceIn;
    }
  }

  lemma {:induction false} AttemptAnswers(s: Tables, operation: OperationId)
    requires WorldChecked(s) && operation in s.attempts
    ensures s.attempts[operation].result < |s.versions|
    ensures var attempt := s.attempts[operation];
      AttemptOutcome(s, operation) ==
        Done(if attempt.accepted then Accepted(s.versions[attempt.result]) else Behind(attempt.result))
  {
    hide Follows;
    assert AttemptChecked(s, operation);
  }

  /** What a new attempt at or behind the head gives. */
  lemma {:induction false} AdvanceSplits(s: Tables, operation: OperationId, expected: nat, tree: Snapshot)
    requires s.versions != [] && WorldHead(s).number == |s.versions| - 1
    requires operation !in s.publications && operation !in s.attempts && PrefixFree(tree) && expected < |s.versions|
    ensures var head, behind := WorldHead(s), Attempt(expected, Some(tree), false, |s.versions| - 1);
      var changes := Differences(head.tree, tree);
      AdvanceIn(s, operation, expected, tree) ==
        if expected == |s.versions| - 1 then
          (Appended(s, operation, Attempt(expected, Some(tree), true, expected + 1), changes, tree),
           Done(Accepted(NextVersion(head, operation, changes, tree))))
        else (s.(attempts := s.attempts[operation := behind]), Done(Behind(|s.versions| - 1)))
  {
    hide PrefixFree, Differences, Appended, NextVersion, AttemptOutcome;
  }

  lemma {:induction false} AppendedLeaves(s: Tables, operation: OperationId, tree: Snapshot, changes: Changeset)
    requires s.versions != [] && |s.changes| == |s.versions| && WorldHead(s).number == |s.versions| - 1
    requires Changed(WorldHead(s).tree, changes) == tree && Normalized(WorldHead(s).tree, changes)
    ensures var attempt := Attempt(|s.versions| - 1, Some(tree), true, |s.versions|);
      var t := Appended(s, operation, attempt, changes, tree);
      && AdvanceLeaves(s, operation, |s.versions| - 1, tree, t)
      && t.attempts[operation] == attempt && |t.versions| == |s.versions| + 1
      && t.versions[|s.versions|] == NextVersion(WorldHead(s), operation, changes, tree)
  {
    hide Changed, Normalized;
  }

  lemma {:induction false} NewAttempt(s: Tables, operation: OperationId, expected: nat, tree: Snapshot)
    requires s.versions != [] && |s.changes| == |s.versions| && WorldHead(s).number == |s.versions| - 1
    requires operation !in s.publications && operation !in s.attempts && PrefixFree(tree) && expected < |s.versions|
    ensures var t := AdvanceIn(s, operation, expected, tree).0;
      && AdvanceLeaves(s, operation, expected, tree, t)
      && operation in t.attempts && t.attempts[operation].result < |t.versions|
      && var a := t.attempts[operation];
         && a.expected == expected && a.tree == Some(tree)
         && AdvanceIn(s, operation, expected, tree).1 ==
           Done(if a.accepted then Accepted(t.versions[a.result]) else Behind(a.result))
  {
    hide PrefixFree, Differences, Changed, Normalized, AdvanceIn, Appended, NextVersion;
    AdvanceSplits(s, operation, expected, tree);
    if expected == |s.versions| - 1 {
      DifferenceArrives(WorldHead(s).tree, tree);
      ArrivalNormalized(WorldHead(s).tree, tree);
      AppendedLeaves(s, operation, tree, Differences(WorldHead(s).tree, tree));
    }
  }
}
