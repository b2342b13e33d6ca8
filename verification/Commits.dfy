/**
 What every committed transaction keeps: Worlds stay contiguous and derivable, recorded attempts
 and receipts read back, Layers and the path index stay checked (src/publish.rs, src/repository.rs,
 src/layer.rs, src/radar.rs).
 */
module Commits {
  import opened Names
  import opened Chunks
  import opened Directories
  import opened Apply
  import opened Domain
  import opened Records
  import opened Layers
  import opened Publishing

  // ------------------------------------------------------------------------------ the World

  /**
   One World version follows from its parent: its tree, its normalized changeset, its identity and its accepted
   attempt.
   */
  ghost predicate Follows(s: Tables, n: nat)
    requires 0 < n < |s.versions| && |s.changes| == |s.versions|
  {
    var parent, version, changes := s.versions[n - 1], s.versions[n], s.changes[n];
    && version.number == n
    && version.tree == Changed(parent.tree, changes) && Normalized(parent.tree, changes)
    && version.id == Identity(Some(parent.id), version.tree, changes)
    && version.operation.Some? && version.operation.value in s.attempts
    && var attempt := s.attempts[version.operation.value];
       attempt.accepted && attempt.result == n && attempt.expected == n - 1
         && (attempt.tree.Some? ==> attempt.tree.value == version.tree)
  }

  /** An attempt reads back: accepted with its own version, or stale behind an existing one. */
  ghost predicate AttemptChecked(s: Tables, operation: OperationId)
    requires operation in s.attempts
  {
    var a := s.attempts[operation];
    && a.expected < a.result < |s.versions|
    && (a.accepted ==> a.result == a.expected + 1 && s.versions[a.result].operation == Some(operation))
    && (a.tree.None? ==> operation in s.publications)
  }

  /** What checking the World's history demands. */
  ghost predicate WorldChecked(s: Tables) {
    && s.versions != [] && |s.changes| == |s.versions| && s.versions[0] == GENESIS && s.changes[0] == map[]
    && (forall n :: 0 < n < |s.versions| ==> Follows(s, n))
    && (forall op :: op in s.attempts ==> AttemptChecked(s, op))
  }

  ghost predicate Checked(s: Tables) {
    WorldChecked(s) && LayersChecked(s) && IndexChecked(s) && PublicationsChecked(s)
  }

  /** No version holds a file above another. */
  lemma {:induction false} TreesPrefixFree(s: Tables, n: nat)
    requires WorldChecked(s) && n < |s.versions|
    ensures PrefixFree(s.versions[n].tree) && s.versions[n].number == n
  {
    if n > 0 {
      assert Follows(s, n);
    }
  }

  lemma {:induction false} FollowsStays(s: Tables, t: Tables, n: nat)
    requires Grows(s, t) && |s.changes| == |s.versions| && |t.changes| == |t.versions| && 0 < n < |s.versions|
      && Follows(s, n)
    ensures 0 < n < |t.versions| && Follows(t, n)
  {
    hide Normalized, Changed, HasSucceeded;
    VersionStays(s, t, n);
    VersionStays(s, t, n - 1);
    assert s.changes <= t.changes;
  }

  lemma {:induction false} AttemptStays(s: Tables, t: Tables, operation: OperationId)
    requires Grows(s, t) && operation in s.attempts && AttemptChecked(s, operation)
    ensures operation in t.attempts && AttemptChecked(t, operation)
  {
    hide HasSucceeded;
    VersionStays(s, t, s.attempts[operation].result);
  }

  /** Steps that leave the World alone keep it checked. */
  lemma {:induction false} WorldStays(s: Tables, t: Tables)
    requires WorldChecked(s) && Grows(s, t) && t.versions == s.versions && t.changes == s.changes
      && t.attempts == s.attempts
    ensures WorldChecked(t)
  {
    hide Follows, AttemptChecked, HasSucceeded;
    forall n | 0 < n < |t.versions| ensures Follows(t, n)
    {
      FollowsStays(s, t, n);
    }
    forall op | op in t.attempts ensures AttemptChecked(t, op)
    {
      AttemptStays(s, t, op);
    }
  }

  /** Steps that add no publication keep every receipt. */
  lemma {:induction false} PublicationsStay(s: Tables, t: Tables)
    requires PublicationsChecked(s) && Grows(s, t) && t.publications == s.publications
    ensures PublicationsChecked(t)
  {
    hide ReceiptIn, HasSucceeded;
    forall op | op in t.publications ensures ReceiptIn(t, op).Some?
    {
      ReceiptStays(s, t, op);
    }
    forall layer, op ensures Succeeded(t, layer, op) <==> Succeeded(s, layer, op)
    {
    }
  }

  // --------------------------------------------------------------------------- advancing

  datatype AdvanceOutcome = Accepted(version: Version) | Behind(actual: nat)

  /** A version appended to the World with its attempt. */
  function Appended(s: Tables, operation: OperationId, attempt: Attempt, changes: Changeset, tree: Snapshot): Tables
    requires s.versions != []
  {
    s.(attempts := s.attempts[operation := attempt],
       versions := s.versions + [NextVersion(WorldHead(s), operation, changes, tree)],
       changes := s.changes + [changes])
  }

  function AttemptOutcome(s: Tables, operation: OperationId): Reply<AdvanceOutcome>
    requires operation in s.attempts
  {
    var a := s.attempts[operation];
    if a.result >= |s.versions| then Refuse(Corrupt)
    else if a.accepted then
      if a.result != a.expected + 1 || s.versions[a.result].operation != Some(operation) then Refuse(Corrupt)
        else Done(Accepted(s.versions[a.result]))
    else if a.result <= a.expected then Refuse(Corrupt)
    else Done(Behind(a.result))
  }

  /** Records a World attempt for a candidate snapshot. */
  function AdvanceIn(s: Tables, operation: OperationId, expected: nat, tree: Snapshot): (Tables, Reply<AdvanceOutcome>)
    requires s.versions != []
  {
    var head := WorldHead(s);
    if operation in s.publications then (s, Refuse(OperationIdReused))
    else if operation in s.attempts then
      (s, if s.attempts[operation].expected != expected
        || s.attempts[operation].tree != Some(tree) then Refuse(OperationIdReused)
          else AttemptOutcome(s, operation))
    else if expected > head.number then (s, Refuse(Reason.MissingVersion))
    else if !PrefixFree(tree) then (s, Refuse(InvalidInput))
    else if expected == head.number then
      (Appended(s, operation, Attempt(expected, Some(tree), true, expected + 1), Differences(head.tree, tree), tree),
       Done(Accepted(NextVersion(head, operation, Differences(head.tree, tree), tree))))
    else (s.(attempts := s.attempts[operation := Attempt(expected, Some(tree), false, head.number)]),
      Done(Behind(head.number)))
  }

  /** Appending a version that follows from the head keeps the World checked. */
  lemma {:induction false} AppendedChecked(s: Tables, t: Tables, operation: OperationId, attempt: Attempt,
      changes: Changeset, tree: Snapshot)
    requires WorldChecked(s) && Grows(s, t)
    requires t.versions == s.versions + [NextVersion(WorldHead(s), operation, changes, tree)]
      && t.changes == s.changes + [changes]
    requires t.attempts == s.attempts[operation := attempt] && operation !in s.attempts
    requires attempt == Attempt(WorldHead(s).number, attempt.tree, true, WorldHead(s).number + 1)
    requires attempt.tree == Some(tree) || (attempt.tree == None && operation in t.publications)
    requires tree == Changed(WorldHead(s).tree, changes) && Normalized(WorldHead(s).tree, changes)
    ensures WorldChecked(t)
  {
    hide HasSucceeded, Changed, Normalized;
    var last := |s.versions| - 1;
    TreesPrefixFree(s, last);
    forall n | 0 < n < |t.versions| ensures Follows(t, n)
    {
      if n <= last {
        FollowsStays(s, t, n);
      }
    }
    forall op | op in t.attempts ensures AttemptChecked(t, op)
    {
      if op != operation {
        AttemptStays(s, t, op);
      }
    }
  }

  /** A step that writes to the World's tables alone. */
  ghost predicate WorldOnly(s: Tables, t: Tables, operation: OperationId) {
    && t.publications == s.publications && t.events == s.events && t.layerAttempts == s.layerAttempts
    && t.index == s.index && t.contexts == s.contexts
    && s.versions <= t.versions && s.changes <= t.changes
    && operation !in s.publications
    && (t.attempts == s.attempts
      || (operation !in s.attempts && operation in t.attempts
      && t.attempts == s.attempts[operation := t.attempts[operation]]))
  }

  lemma {:induction false} WorldOnlyGrows(s: Tables, t: Tables, operation: OperationId)
    requires WorldOnly(s, t, operation)
    ensures Grows(s, t)
  {
    hide HasSucceeded;
  }

  lemma {:induction false} AdvanceWrites(s: Tables, operation: OperationId, expected: nat, tree: Snapshot)
    requires s.versions != []
    ensures var t := AdvanceIn(s, operation, expected, tree).0; t == s || WorldOnly(s, t, operation)
  {
    hide Differences, PrefixFree, AttemptOutcome, NextVersion, Appended, WorldOnly;
    if operation !in s.publications && operation !in s.attempts {
      var head := WorldHead(s);
      var changes := Differences(head.tree, tree);
      AppendedWrites(s, operation, Attempt(expected, Some(tree), true, expected + 1), changes, tree);
      AttemptedWrites(s, operation, Attempt(expected, Some(tree), false, head.number));
    }
  }

  lemma {:induction false} AppendedWrites(s: Tables, operation: OperationId, attempt: Attempt, changes: Changeset,
      tree: Snapshot)
    requires s.versions != [] && operation !in s.publications && operation !in s.attempts
    ensures WorldOnly(s, Appended(s, operation, attempt, changes, tree), operation)
  {
    hide NextVersion;
  }

  lemma {:induction false} AttemptedWrites(s: Tables, operation: OperationId, attempt: Attempt)
    requires operation !in s.publications && operation !in s.attempts
    ensures WorldOnly(s, s.(attempts := s.attempts[operation := attempt]), operation)
  {
  }

  lemma {:induction false} AdvanceGrows(s: Tables, operation: OperationId, expected: nat, tree: Snapshot)
    requires s.versions != []
    ensures Grows(s, AdvanceIn(s, operation, expected, tree).0)
  {
    hide AdvanceIn, HasSucceeded;
    AdvanceWrites(s, operation, expected, tree);
    var t := AdvanceIn(s, operation, expected, tree).0;
    if t == s {
      GrowsSame(s);
    } else {
      WorldOnlyGrows(s, t, operation);
    }
  }

  lemma {:induction false} AdvanceWorldChecked(s: Tables, operation: OperationId, expected: nat, tree: Snapshot)
    requires WorldChecked(s)
    ensures WorldChecked(AdvanceIn(s, operation, expected, tree).0)
  {
    hide HasSucceeded, Differences, PrefixFree, Changed, Normalized, WorldChecked, AttemptOutcome, Grows;
    WorldFilled(s);
    var t := AdvanceIn(s, operation, expected, tree).0;
    AdvanceGrows(s, operation, expected, tree);
    var head := WorldHead(s);
    TreesPrefixFree(s, |s.versions| - 1);
    if t.versions != s.versions {
      DifferenceArrives(head.tree, tree);
      ArrivalNormalized(head.tree, tree);
      AppendedChecked(s, t, operation, Attempt(expected, Some(tree), true, expected + 1),
        Differences(head.tree, tree), tree);
    } else if t.attempts != s.attempts {
      StaleChecked(s, t, operation, Attempt(expected, Some(tree), false, head.number));
    }
  }

  lemma {:induction false} ArrivalNormalized(before: Snapshot, after: Snapshot)
    requires PrefixFree(after)
    ensures Normalized(before, Differences(before, after))
  {
    DifferenceArrives(before, after);
  }

  lemma {:induction false} StaleChecked(s: Tables, t: Tables, operation: OperationId, attempt: Attempt)
    requires WorldChecked(s) && Grows(s, t) && t.versions == s.versions && t.changes == s.changes
    requires t.attempts == s.attempts[operation := attempt] && operation !in s.attempts
    requires !attempt.accepted && attempt.expected < attempt.result < |s.versions| && attempt.tree.Some?
    ensures WorldChecked(t)
  {
    hide HasSucceeded, Changed, Normalized, Follows;
    forall n | 0 < n < |t.versions| ensures Follows(t, n)
    {
      FollowsStays(s, t, n);
    }
    forall op | op in t.attempts ensures AttemptChecked(t, op)
    {
      if op != operation {
        AttemptStays(s, t, op);
      }
    }
  }

  lemma {:induction false} DerivedSame(s: Tables, t: Tables, layer: LayerId)
    requires t.events == s.events && HasSucceeded(t, layer) == HasSucceeded(s, layer)
    ensures Derived(t, layer) == Derived(s, layer)
  {
    hide HasSucceeded, Attributed;
  }

  /** Advancing the World keeps everything checked. */
  lemma {:induction false} AdvanceKeeps(s: Tables, operation: OperationId, expected: nat, tree: Snapshot)
    requires s.versions != [] && Checked(s)
    ensures Grows(s, AdvanceIn(s, operation, expected, tree).0) && Checked(AdvanceIn(s, operation, expected, tree).0)
  {
    hide HasSucceeded, LayersChecked, WorldChecked, PublicationsChecked, IndexChecked, AdvanceIn, Grows;
    assert s.versions != [] by { VersionsFilled(s); }
    var t := AdvanceIn(s, operation, expected, tree).0;
    AdvanceGrows(s, operation, expected, tree);
    AdvanceWorldChecked(s, operation, expected, tree);
    AdvanceWrites(s, operation, expected, tree);
    if t != s {
      WorldOnlyKeeps(s, t, operation);
    }
  }

  lemma {:induction false} WorldOnlyKeeps(s: Tables, t: Tables, operation: OperationId)
    requires LayersChecked(s) && IndexChecked(s) && PublicationsChecked(s) && WorldOnly(s, t, operation)
    ensures LayersChecked(t) && IndexChecked(t) && PublicationsChecked(t)
  {
    hide HasSucceeded, LayersChecked, PublicationsChecked, Derived, LayerRows, Grows;
    WorldOnlyGrows(s, t, operation);
    LayersStay(s, t);
    PublicationsStay(s, t);
    forall layer ensures LayerRows(t.index, layer) == Derived(t, layer)
    {
      SamePublications(s, t, layer);
      DerivedSame(s, t, layer);
    }
  }

  lemma {:induction false} WorldFilled(s: Tables)
    requires WorldChecked(s)
    ensures s.versions != [] && |s.changes| == |s.versions|
  {
  }

  lemma {:induction false} VersionsFilled(s: Tables)
    requires WorldChecked(s)
    ensures s.versions != []
  {
  }

  // ------------------------------------------------------------------------------ Layer steps

  lemma {:induction false} SucceededKnown(s: Tables, layer: LayerId)
    requires PublicationsChecked(s) && HasSucceeded(s, layer)
    ensures layer in s.events
  {
    var op :| op in s.publications && Succeeded(s, layer, op);
    assert ReceiptIn(s, op).Some?;
  }

  /** Creating or cloning a Layer keeps everything checked. */
  lemma {:induction false} CreateKeeps(s: Tables, layer: LayerId, checkpoint: Checkpoint)
    requires Checked(s) && CheckpointValid(s, checkpoint)
    ensures Grows(s, CreateIn(s, layer, checkpoint).0) && Checked(CreateIn(s, layer, checkpoint).0)
  {
    hide HasSucceeded, LayersChecked, WorldChecked, PublicationsChecked, IndexChecked, Replaced, Refreshed, LayerRows;
    var t := CreateIn(s, layer, checkpoint).0;
    CreatedGrows(s, layer, checkpoint);
    CreatedChecked(s, layer, checkpoint);
    if HasSucceeded(s, layer) {
      SucceededKnown(s, layer);
    }
    CreatedIndexed(s, layer, checkpoint);
    WorldStays(s, t);
    PublicationsStay(s, t);
  }

  /** Every update keeps everything checked. */
  lemma {:induction false} UpdateKeeps(s: Tables, operation: OperationId, expected: Head, change: Change,
      provenance: Option<nat>)
    requires Checked(s)
    ensures Grows(s, Update(s, operation, expected, change, provenance).0)
      && Checked(Update(s, operation, expected, change, provenance).0)
  {
    hide HasSucceeded, LayersChecked, WorldChecked, PublicationsChecked, IndexChecked, Proposed, OutcomeOf,
      HeadVerified, Recorded, SameInput, Writes;
    var t := Update(s, operation, expected, change, provenance).0;
    GrowsSame(s);
    if HeadVerified(s, expected) && operation !in s.layerAttempts && !HasSucceeded(s, expected.layer)
      && Proposed(s, expected, change, provenance).Some? {
      var checkpoint := Proposed(s, expected, change, provenance).value;
      ProposedWrites(s, operation, expected, change, provenance);
      RecordedKeeps(s, operation, expected, checkpoint, change);
    }
  }

  lemma {:induction false} RecordedKeeps(s: Tables, operation: OperationId, expected: Head, checkpoint: Checkpoint,
      change: Change)
    requires Checked(s) && Writes(s, operation, expected, checkpoint, change)
    ensures HeadVerified(s, expected) && expected.layer in s.events && s.events[expected.layer] != []
    ensures Grows(s, Recorded(s, operation, expected, checkpoint, change))
      && Checked(Recorded(s, operation, expected, checkpoint, change))
  {
    hide HasSucceeded, LayersChecked, WorldChecked, PublicationsChecked, IndexChecked, Replaced, Refreshed,
      CheckpointValid;
    var t := Recorded(s, operation, expected, checkpoint, change);
    RecordedGrows(s, operation, expected, checkpoint, change);
    RecordedChecked(s, operation, expected, checkpoint, change);
    RecordedIndexed(s, operation, expected, checkpoint, change);
    WorldStays(s, t);
    PublicationsStay(s, t);
  }

  // -------------------------------------------------------------------------------- publishing

  /** A plan made in a checked state, when it is committed there. */
  ghost predicate Planned(s: Tables, operation: OperationId, expected: Head, attribution: Attribution, plan: Plan) {
    Prepare(s, operation, expected, attribution) == Ready(plan)
  }

  /** What a plan says of the state it was made in. */
  ghost predicate PlanFacts(s: Tables, operation: OperationId, expected: Head, attribution: Attribution, plan: Plan) {
    && operation !in s.publications && operation !in s.attempts && HeadVerified(s, expected)
    && WarningsFor(s, attribution) == Done(plan.missingTrace)
    && s.versions != [] && plan.against == WorldHead(s)
    && LayerStateIn(s, expected.layer) == Some(plan.actual)
    && plan.composed ==
      (if plan.actual == Active(expected) then ComposeOnto(s, expected.checkpoint, plan.against) else None)
    && (plan.actual == Active(expected) ==> plan.composed.Some?)
  }

  lemma {:induction false} PlannedFacts(s: Tables, operation: OperationId, expected: Head, attribution: Attribution,
      plan: Plan)
    requires Planned(s, operation, expected, attribution, plan)
    ensures PlanFacts(s, operation, expected, attribution, plan)
  {
    hide ReceiptIn, HeadVerified, WarningsFor, LayerStateIn, ComposeOnto;
  }

  /** Without a success a Layer's state is its latest event; with one it is that success, which saw its last event. */
  lemma {:induction false} StateFacts(s: Tables, layer: LayerId)
    requires PublicationsChecked(s) && LayerStateIn(s, layer).Some?
    ensures !HasSucceeded(s, layer) ==> LayerStateIn(s, layer) == LatestState(s, layer)
    ensures HasSucceeded(s, layer) ==>
      && var op := SuccessOf(s, layer);
      && var row := s.publications[op];
      && LayerStateIn(s, layer) == SuccessState(s, op) && LayerStateIn(s, layer).value.Published?
      && LatestState(s, layer) == Some(Active(LayerStateIn(s, layer).value.head))
      && LayerStateIn(s, layer).value.head.revision == row.expected && LayerStateIn(s, layer).value.operation == op
      && row.result.Some? && row.result.value == row.against + 1 < |s.versions|
  {
    hide HasSucceeded, ComposeOnto, WarningsFor;
    if HasSucceeded(s, layer) {
      var op := SuccessOf(s, layer);
      assert ReceiptIn(s, op).Some?;
      SuccessReceipt(s, op);
    }
  }

  lemma {:induction false} SuccessReceipt(s: Tables, op: OperationId)
    requires op in s.publications && s.publications[op].tag == SUCCESS && ReceiptIn(s, op).Some?
    ensures var row := s.publications[op];
      && HeadAt(s, row.layer, row.expected).Some?
        && LatestState(s, row.layer) == Some(Active(HeadAt(s, row.layer, row.expected).value))
      && row.result.Some? && row.result.value == row.against + 1 < |s.versions|
      && s.versions[row.result.value].operation == Some(op)
      && row.receipt.outcome == Landed(s.versions[row.result.value])
  {
    hide ComposeOnto, WarningsFor, TerminalSeen, ObservedIn;
  }

  /** A candidate follows from the World head: rebasing was safe. */
  lemma {:induction false} CandidateFollows(s: Tables, operation: OperationId, expected: Head,
      attribution: Attribution, plan: Plan)
    requires WorldChecked(s) && LayersChecked(s) && PlanFacts(s, operation, expected, attribution, plan)
    requires plan.composed.Some? && plan.composed.value.Candidate?
    ensures plan.composed.value.changes == expected.checkpoint.changes
    ensures plan.composed.value.tree == Changed(WorldHead(s).tree, plan.composed.value.changes)
    ensures Normalized(WorldHead(s).tree, plan.composed.value.changes)
  {
    hide LayerStateIn, WarningsFor, Normalized, Changed, Touched;
    HeadChecked(s, expected);
    TreesPrefixFree(s, |s.versions| - 1);
    RebaseSafe(s.versions[expected.checkpoint.base].tree, WorldHead(s).tree, expected.checkpoint.changes);
  }

  lemma {:induction false} CommittedGrows(s: Tables, operation: OperationId, expected: Head, attribution: Attribution,
      plan: Plan)
    requires WorldChecked(s) && PlanFacts(s, operation, expected, attribution, plan)
    ensures Grows(s, Committed(s, operation, expected, attribution, plan))
  {
    hide HasSucceeded, LayerStateIn, WarningsFor, ComposeOnto, HeadVerified, Follows, AttemptChecked, Replaced;
    TreesPrefixFree(s, |s.versions| - 1);
  }

  lemma {:induction false} CommittedWorld(s: Tables, operation: OperationId, expected: Head, attribution: Attribution,
      plan: Plan)
    requires WorldChecked(s) && LayersChecked(s) && PlanFacts(s, operation, expected, attribution, plan)
    ensures WorldChecked(Committed(s, operation, expected, attribution, plan))
  {
    hide HasSucceeded, LayerStateIn, WarningsFor, ComposeOnto, HeadVerified, Follows, AttemptChecked, Replaced,
      LayersChecked, Normalized, Changed, WorldChecked;
    var t := Committed(s, operation, expected, attribution, plan);
    CommittedGrows(s, operation, expected, attribution, plan);
    if plan.composed.Some? && plan.composed.value.Candidate? {
      CandidateFollows(s, operation, expected, attribution, plan);
      AppendedChecked(s, t, operation, Attempt(plan.against.number, None, true, plan.against.number + 1),
        plan.composed.value.changes, plan.composed.value.tree);
    } else {
      WorldStays(s, t);
    }
  }

  /** The index after a commit: a published Layer has no rows, every other Layer its own. */
  lemma {:induction false} CommittedIndexed(s: Tables, operation: OperationId, expected: Head,
      attribution: Attribution, plan: Plan)
    requires IndexChecked(s) && PublicationsChecked(s) && PlanFacts(s, operation, expected, attribution, plan)
    ensures IndexChecked(Committed(s, operation, expected, attribution, plan))
  {
    hide HasSucceeded, LayerStateIn, WarningsFor, ComposeOnto, HeadVerified, Replaced, LayerRows, Attributed;
    var t := Committed(s, operation, expected, attribution, plan);
    forall layer ensures LayerRows(t.index, layer) == Derived(t, layer)
    {
      assert LayerRows(s.index, layer) == Derived(s, layer);
      CommittedSuccess(s, operation, expected, attribution, plan, layer);
      ReplacedReads(s.index, expected.layer, map[], layer);
    }
  }

  lemma {:induction false} CommittedSuccess(s: Tables, operation: OperationId, expected: Head,
      attribution: Attribution, plan: Plan, layer: LayerId)
    requires PlanFacts(s, operation, expected, attribution, plan)
    ensures HasSucceeded(Committed(s, operation, expected, attribution, plan), layer) <==>
      HasSucceeded(s, layer) || (layer == expected.layer && plan.composed.Some? && plan.composed.value.Candidate?)
  {
    hide LayerStateIn, WarningsFor, ComposeOnto, HeadVerified, Replaced;
    var t := Committed(s, operation, expected, attribution, plan);
    assert forall op :: op in s.publications ==> Succeeded(t, layer, op) == Succeeded(s, layer, op);
    assert Succeeded(t, layer, operation) <==>
      layer == expected.layer && plan.composed.Some? && plan.composed.value.Candidate?;
  }

  /** What the new row says of the state it was committed in. */
  lemma {:induction false} RowFacts(s: Tables, operation: OperationId, expected: Head, attribution: Attribution,
      plan: Plan)
    requires WorldChecked(s) && PlanFacts(s, operation, expected, attribution, plan)
    ensures var t := Committed(s, operation, expected, attribution, plan);
      && operation in t.publications && t.publications[operation] == RowFor(operation, expected, attribution, plan)
      && HeadAt(t, expected.layer, expected.revision) == Some(expected)
      && plan.against.number < |t.versions| && t.versions[plan.against.number] == plan.against
      && WarningsFor(t, attribution) == Done(plan.missingTrace)
  {
    hide LayerStateIn, ComposeOnto, Follows, AttemptChecked, Replaced;
    TreesPrefixFree(s, |s.versions| - 1);
  }

  /** What a commit changes of what an observation reads: the one row. */
  lemma {:induction false} CommittedReads(s: Tables, operation: OperationId, expected: Head, attribution: Attribution,
      plan: Plan)
    ensures var t := Committed(s, operation, expected, attribution, plan);
      && t.events == s.events
      && t.publications == s.publications[operation := RowFor(operation, expected, attribution, plan)]
    ensures var row := RowFor(operation, expected, attribution, plan);
      && row.layer == expected.layer && row.against == plan.against.number
      && row.observed == RevisionOf(plan.actual)
      && row.observedPublication == (if plan.actual.Published? then Some(plan.actual.operation) else None)
      && (row.result.Some? ==> row.result.value == plan.against.number + 1)
  {
    hide Replaced;
  }

  /** Before a Layer succeeds, no success is left out. */
  lemma {:induction false} NothingLeftOut(s: Tables, t: Tables, operation: OperationId, row: Row)
    requires t.publications == s.publications[operation := row] && !HasSucceeded(s, row.layer)
    requires row.result.Some? ==> row.result.value > row.against
    ensures TerminalSeen(t, operation)
  {
    hide HasSucceeded;
    forall other | other in t.publications && LandedBy(t.publications[other], row.layer, row.against)
      ensures false
    {
      if other != operation {
        NotSucceeded(s, row.layer, other);
      }
    }
  }

  lemma {:induction false} ActiveObserved(s: Tables, operation: OperationId, expected: Head, attribution: Attribution,
      plan: Plan)
    requires WorldChecked(s) && PublicationsChecked(s) && PlanFacts(s, operation, expected, attribution, plan)
      && plan.actual == Active(expected)
    ensures !HasSucceeded(s, expected.layer) && LatestState(s, expected.layer) == Some(Active(expected))
    ensures var t := Committed(s, operation, expected, attribution, plan);
      && operation in t.publications
      && ObservedIn(t, operation) == Some(Active(expected)) && TerminalSeen(t, operation)
        && LatestState(t, expected.layer) == Some(Active(expected))
  {
    hide WorldChecked, PublicationsChecked, HasSucceeded, LayerStateIn, ComposeOnto, WarningsFor, TerminalSeen,
      Committed, RowFor;
    var t := Committed(s, operation, expected, attribution, plan);
    StateFacts(s, expected.layer);
    CommittedReads(s, operation, expected, attribution, plan);
    NothingLeftOut(s, t, operation, RowFor(operation, expected, attribution, plan));
  }

  lemma {:induction false} NotSucceeded(s: Tables, layer: LayerId, op: OperationId)
    requires !HasSucceeded(s, layer) && op in s.publications
    ensures !(s.publications[op].layer == layer && s.publications[op].tag == SUCCESS)
  {
    assert !Succeeded(s, layer, op);
  }

  /** A committed success derives its receipt. */
  lemma {:induction false} LandedOutcome(s: Tables, operation: OperationId, expected: Head, attribution: Attribution,
      plan: Plan)
    requires Checked(s) && PlanFacts(s, operation, expected, attribution, plan)
    requires plan.composed.Some? && plan.composed.value.Candidate?
    ensures var t := Committed(s, operation, expected, attribution, plan);
      operation in t.publications
        && OutcomeIn(t, operation, expected, plan.against, Active(expected)) == Some(OutcomeFor(operation, plan))
  {
    hide HasSucceeded, LayerStateIn, WarningsFor, Replaced, LayersChecked, IndexChecked, ComposeOnto, Follows,
      AttemptChecked, TerminalSeen, ObservedIn, PublicationsChecked;
    var t := Committed(s, operation, expected, attribution, plan);
    ActiveObserved(s, operation, expected, attribution, plan);
    CommittedGrows(s, operation, expected, attribution, plan);
    CandidateFollows(s, operation, expected, attribution, plan);
    ComposeStays(s, t, expected.checkpoint, plan.against);
    TreesPrefixFree(s, |s.versions| - 1);
  }

  /** A committed conflict derives its receipt. */
  lemma {:induction false} ConflictOutcome(s: Tables, operation: OperationId, expected: Head,
      attribution: Attribution, plan: Plan)
    requires Checked(s) && PlanFacts(s, operation, expected, attribution, plan)
    requires plan.composed.Some? && plan.composed.value.Intersecting?
    ensures var t := Committed(s, operation, expected, attribution, plan);
      operation in t.publications
        && OutcomeIn(t, operation, expected, plan.against, Active(expected)) == Some(OutcomeFor(operation, plan))
  {
    hide HasSucceeded, LayerStateIn, WarningsFor, LayersChecked, IndexChecked, ComposeOnto, Follows, AttemptChecked,
      TerminalSeen, ObservedIn, PublicationsChecked;
    var t := Committed(s, operation, expected, attribution, plan);
    CommittedGrows(s, operation, expected, attribution, plan);
    ComposeStays(s, t, expected.checkpoint, plan.against);
  }

  lemma {:induction false} LatestBeyond(s: Tables, head: Head)
    requires HeadVerified(s, head)
    ensures LatestState(s, head.layer).Some? && RevisionOf(LatestState(s, head.layer).value) >= head.revision
    ensures StateAt(s, head.layer, RevisionOf(LatestState(s, head.layer).value)) == LatestState(s, head.layer)
    ensures !LatestState(s, head.layer).value.Published?
  {
  }

  /** A stale observation of a Layer that is still unpublished: it is the latest event. */
  lemma {:induction false} EventObserved(s: Tables, operation: OperationId, expected: Head, attribution: Attribution,
      plan: Plan)
    requires WorldChecked(s) && PublicationsChecked(s) && PlanFacts(s, operation, expected, attribution, plan)
    requires plan.actual != Active(expected) && !HasSucceeded(s, expected.layer)
    ensures var t := Committed(s, operation, expected, attribution, plan);
      ObservedIn(t, operation) == Some(plan.actual) && TerminalSeen(t, operation)
        && expected.revision <= RevisionOf(plan.actual)
  {
    hide HasSucceeded, LayerStateIn, ComposeOnto, WarningsFor, Replaced, Follows, AttemptChecked, LatestState,
      StateAt, HeadAt;
    var t := Committed(s, operation, expected, attribution, plan);
    StateFacts(s, expected.layer);
    RowFacts(s, operation, expected, attribution, plan);
    LatestBeyond(s, expected);
    StateSame(s, t, expected.layer, RevisionOf(plan.actual));
    forall other | other in t.publications && LandedBy(t.publications[other], expected.layer, plan.against.number)
      ensures false
    {
      if other != operation {
        NotSucceeded(s, expected.layer, other);
      }
    }
  }

  lemma {:induction false} StateSame(s: Tables, t: Tables, layer: LayerId, revision: nat)
    requires t.events == s.events
    ensures StateAt(t, layer, revision) == StateAt(s, layer, revision)
      && HeadAt(t, layer, revision) == HeadAt(s, layer, revision)
  {
  }

  /** A stale observation of a published Layer: it is that one success. */
  lemma {:induction false} SuccessObserved(s: Tables, operation: OperationId, expected: Head,
      attribution: Attribution, plan: Plan)
    requires WorldChecked(s) && PublicationsChecked(s) && PlanFacts(s, operation, expected, attribution, plan)
    requires plan.actual != Active(expected) && HasSucceeded(s, expected.layer)
    ensures var t := Committed(s, operation, expected, attribution, plan);
      ObservedIn(t, operation) == Some(plan.actual) && TerminalSeen(t, operation)
        && expected.revision <= RevisionOf(plan.actual)
  {
    hide HasSucceeded, LayerStateIn, ComposeOnto, WarningsFor, Replaced, Follows, AttemptChecked, LatestState,
      StateAt, HeadAt, ReceiptIn, SuccessState;
    var t := Committed(s, operation, expected, attribution, plan);
    var prior := SuccessOf(s, expected.layer);
    StateFacts(s, expected.layer);
    RowFacts(s, operation, expected, attribution, plan);
    LatestBeyond(s, expected);
    StateSame(s, t, expected.layer, RevisionOf(plan.actual));
    CommittedGrows(s, operation, expected, attribution, plan);
    SuccessStateStays(s, t, prior);
    TreesPrefixFree(s, |s.versions| - 1);
    assert plan.actual.operation == prior;
    forall other | other in t.publications && LandedBy(t.publications[other], expected.layer, plan.against.number)
      ensures other == prior
    {
      if other != operation {
        assert Succeeded(s, expected.layer, other) && Succeeded(s, expected.layer, prior);
      }
    }
  }

  lemma {:induction false} StaleOutcome(s: Tables, operation: OperationId, expected: Head, attribution: Attribution,
      plan: Plan)
    requires PlanFacts(s, operation, expected, attribution, plan) && plan.actual != Active(expected)
    ensures var t := Committed(s, operation, expected, attribution, plan);
      operation in t.publications
        && OutcomeIn(t, operation, expected, plan.against, plan.actual) == Some(OutcomeFor(operation, plan))
  {
    hide HasSucceeded, LayerStateIn, ComposeOnto, WarningsFor, TerminalSeen, ObservedIn;
  }

  /** Every committed row derives its receipt. */
  lemma {:induction false} CommittedReceipt(s: Tables, operation: OperationId, expected: Head,
      attribution: Attribution, plan: Plan)
    requires Checked(s) && PlanFacts(s, operation, expected, attribution, plan)
    ensures var t := Committed(s, operation, expected, attribution, plan);
      operation in t.publications && ReceiptIn(t, operation) == Some(t.publications[operation].receipt)
  {
    hide HasSucceeded, LayerStateIn, ComposeOnto, WarningsFor, LayersChecked, IndexChecked, WorldChecked,
      PublicationsChecked, OutcomeIn, ObservedIn, TerminalSeen, HeadAt, StateAt, LatestState, Committed;
    var t := Committed(s, operation, expected, attribution, plan);
    RowFacts(s, operation, expected, attribution, plan);
    BaseKnown(s, operation, expected, attribution, plan);
    if plan.actual == Active(expected) {
      ActiveObserved(s, operation, expected, attribution, plan);
      if plan.composed.value.Candidate? {
        LandedOutcome(s, operation, expected, attribution, plan);
      } else {
        ConflictOutcome(s, operation, expected, attribution, plan);
      }
    } else {
      if HasSucceeded(s, expected.layer) {
        SuccessObserved(s, operation, expected, attribution, plan);
      } else {
        EventObserved(s, operation, expected, attribution, plan);
      }
      StaleOutcome(s, operation, expected, attribution, plan);
    }
  }

  /** The World never precedes a Layer's base. */
  lemma {:induction false} BaseKnown(s: Tables, operation: OperationId, expected: Head, attribution: Attribution,
      plan: Plan)
    requires Checked(s) && PlanFacts(s, operation, expected, attribution, plan)
    ensures expected.checkpoint.base <= plan.against.number
  {
    hide LayerStateIn, ComposeOnto, WarningsFor, LayersChecked, IndexChecked, PublicationsChecked, Normalized,
      Follows, AttemptChecked;
    HeadChecked(s, expected);
    TreesPrefixFree(s, |s.versions| - 1);
  }

  lemma {:induction false} CommittedPublications(s: Tables, operation: OperationId, expected: Head,
      attribution: Attribution, plan: Plan)
    requires Checked(s) && PlanFacts(s, operation, expected, attribution, plan)
    ensures PublicationsChecked(Committed(s, operation, expected, attribution, plan))
  {
    hide HasSucceeded, LayerStateIn, ComposeOnto, WarningsFor, LayersChecked, IndexChecked, WorldChecked, ReceiptIn,
      PlanFacts, Replaced;
    var t := Committed(s, operation, expected, attribution, plan);
    CommittedGrows(s, operation, expected, attribution, plan);
    CommittedReceipt(s, operation, expected, attribution, plan);
    forall op | op in t.publications ensures ReceiptIn(t, op).Some?
    {
      if op != operation {
        ReceiptStays(s, t, op);
      }
    }
    forall layer, one, two | Succeeded(t, layer, one) && Succeeded(t, layer, two) ensures one == two
    {
      OneSuccess(s, operation, expected, attribution, plan, layer, one, two);
    }
  }

  /** A second success of one Layer is never committed. */
  lemma {:induction false} OneSuccess(s: Tables, operation: OperationId, expected: Head, attribution: Attribution,
      plan: Plan, layer: LayerId, one: OperationId, two: OperationId)
    requires WorldChecked(s) && PublicationsChecked(s) && PlanFacts(s, operation, expected, attribution, plan)
    requires var t := Committed(s, operation, expected, attribution, plan);
      Succeeded(t, layer, one) && Succeeded(t, layer, two)
    ensures one == two
  {
    hide LayerStateIn, ComposeOnto, WarningsFor, ReceiptIn, Replaced, Follows, AttemptChecked, HeadVerified;
    if one != operation && two != operation {
      assert Succeeded(s, layer, one) && Succeeded(s, layer, two);
    } else if one != two {
      var op := if one == operation then two else one;
      assert Succeeded(s, layer, op);
      StateFacts(s, layer);
    }
  }

  /** Committing a plan made in the state it is committed in keeps everything checked. */
  lemma {:induction false} CommitKeeps(s: Tables, operation: OperationId, expected: Head, attribution: Attribution,
      plan: Plan)
    requires Checked(s) && Planned(s, operation, expected, attribution, plan)
    ensures Grows(s, Committed(s, operation, expected, attribution, plan))
      && Checked(Committed(s, operation, expected, attribution, plan))
  {
    hide LayersChecked, IndexChecked, WorldChecked, PublicationsChecked, PlanFacts, Grows;
    var t := Committed(s, operation, expected, attribution, plan);
    PlannedFacts(s, operation, expected, attribution, plan);
    CommittedGrows(s, operation, expected, attribution, plan);
    CommittedWorld(s, operation, expected, attribution, plan);
    CommittedIndexed(s, operation, expected, attribution, plan);
    CommittedPublications(s, operation, expected, attribution, plan);
    CommittedLayers(s, operation, expected, attribution, plan);
  }

  lemma {:induction false} CommittedLayers(s: Tables, operation: OperationId, expected: Head,
      attribution: Attribution, plan: Plan)
    requires LayersChecked(s) && Grows(s, Committed(s, operation, expected, attribution, plan))
    ensures LayersChecked(Committed(s, operation, expected, attribution, plan))
  {
    hide LayersChecked, Grows, Replaced;
    LayersStay(s, Committed(s, operation, expected, attribution, plan));
  }

  // ---------------------------------------------------------------------- optimistic concurrency

  /**
   A plan whose recheck passes is the plan the locked state would make itself: everything else the
   plan read is never changed once recorded. So the two-part publish behaves as one atomic step.
   */
  lemma {:induction false} PlanHolds(s: Tables, t: Tables, operation: OperationId, expected: Head,
      attribution: Attribution, plan: Plan)
    requires Grows(s, t) && Checked(t)
    requires Planned(s, operation, expected, attribution, plan) && Rechecked(t, operation, expected, plan)
    ensures Planned(t, operation, expected, attribution, plan)
  {
    hide HasSucceeded, LayersChecked, IndexChecked, ReceiptIn, LayerStateIn, ComposeOnto, WarningsFor, HeadAt,
      Follows, AttemptChecked, Grounded;
    PlannedFacts(s, operation, expected, attribution, plan);
    WarningsStay(s, t, attribution);
    HeadKnown(s, expected.layer, expected.revision);
    StateStays(s, t, expected.layer, expected.revision);
    assert Grounded(t, expected.layer) by { GroundedChecked(t, expected.layer); }
    if plan.actual == Active(expected) {
      ComposeStays(s, t, expected.checkpoint, plan.against);
    }
  }

  lemma {:induction false} GroundedChecked(s: Tables, layer: LayerId)
    requires s.versions != [] && PublicationsChecked(s)
    ensures Grounded(s, layer)
  {
    hide ReceiptIn;
  }
}
