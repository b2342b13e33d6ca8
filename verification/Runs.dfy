/**
 Runs of a repository: any interleaving of Layer, World and publish transactions, with each publish
 planned at one state of the run and committed at a later one.
 */
module Runs {
  import opened Names
  import opened Chunks
  import opened Directories
  import opened Apply
  import opened Domain
  import opened Records
  import opened Layers
  import opened Publishing
  import opened Commits

  datatype Transaction =
    | RememberContext(context: nat)
    | CreateLayer(layer: LayerId, version: nat)
    | CloneLayer(layer: LayerId, checkpoint: Checkpoint)
    | UpdateLayer(operation: OperationId, expected: Head, change: Change, provenance: Option<nat>)
    | AdvanceWorld(operation: OperationId, at: nat, tree: Snapshot)
    /** A publish planned at the `planned`-th state of the run; the guard may refuse its candidate. */
    | PublishLayer(operation: OperationId, expected: Head, attribution: Attribution, planned: nat, allowed: bool)

  ghost function Commit(last: Tables, prepared: Prepared, t: Transaction): Tables
    requires t.PublishLayer?
  {
    if prepared.Ready? && Rechecked(last, t.operation, t.expected, prepared.plan)
       && (prepared.plan.composed.Some? && prepared.plan.composed.value.Candidate? ==> t.allowed)
    then Committed(last, t.operation, t.expected, t.attribution, prepared.plan)
    else last
  }

  /** The state after one more transaction of a run. */
  ghost function Next(run: seq<Tables>, t: Transaction): Tables
    requires run != []
  {
    var last := run[|run| - 1];
    match t
    case RememberContext(context) => last.(contexts := last.contexts + {context})
    case CreateLayer(layer, version) => Create(last, layer, version).0
    case CloneLayer(layer, checkpoint) => Clone(last, layer, checkpoint).0
    case UpdateLayer(operation, expected, change, provenance) => Update(last, operation, expected, change, provenance).0
    case AdvanceWorld(operation, expected, tree) => if last.versions == [] then last
      else AdvanceIn(last, operation, expected, tree).0
    case PublishLayer(operation, expected, attribution, planned, _) =>
      if planned < |run| then Commit(last, Prepare(run[planned], operation, expected, attribution), t) else last
  }

  ghost predicate IsRun(run: seq<Tables>) {
    && run != [] && run[0] == INITIAL
    && forall i :: 0 < i < |run| ==> exists t :: run[i] == Next(run[..i], t)
  }

  // --------------------------------------------------------------------------- every state

  lemma {:induction false} InitialChecked()
    ensures Checked(INITIAL)
  {
    forall layer ensures LayerRows(INITIAL.index, layer) == Derived(INITIAL, layer)
    {
    }
  }

  lemma {:induction false} ContextKeeps(s: Tables, context: nat)
    requires Checked(s)
    ensures var t := s.(contexts := s.contexts + {context}); Grows(s, t) && Checked(t)
  {
    hide LayersChecked, WorldChecked, PublicationsChecked, HasSucceeded, LayerRows, Derived;
    var t := s.(contexts := s.contexts + {context});
    LayersStay(s, t);
    WorldStays(s, t);
    PublicationsStay(s, t);
    forall layer ensures LayerRows(t.index, layer) == Derived(t, layer)
    {
      SamePublications(s, t, layer);
      DerivedSame(s, t, layer);
    }
  }

  lemma {:induction false} EmptyValid(s: Tables, version: nat)
    requires WorldChecked(s) && version < |s.versions|
    ensures CheckpointValid(s, Checkpoint(version, map[], {}, None))
  {
    TreesPrefixFree(s, version);
    SameFiles(Changed(s.versions[version].tree, map[]), s.versions[version].tree);
  }

  /**
   A plan from an earlier state that passes its recheck is the last state's own, and committing it keeps
   everything.
   */
  lemma {:induction false} CommitLands(s: Tables, last: Tables, operation: OperationId, expected: Head,
      attribution: Attribution, plan: Plan)
    requires Grows(s, last) && Checked(last)
    requires Prepare(s, operation, expected, attribution) == Ready(plan) && Rechecked(last, operation, expected, plan)
    ensures Prepare(last, operation, expected, attribution) == Ready(plan)
    ensures Grows(last, Committed(last, operation, expected, attribution, plan))
      && Checked(Committed(last, operation, expected, attribution, plan))
  {
    hide Grows, Checked, Committed, Rechecked, Prepare;
    PlanHolds(s, last, operation, expected, attribution, plan);
    CommitKeeps(last, operation, expected, attribution, plan);
  }

  /** Committing at the end of a run what was planned earlier in it. */
  lemma {:induction false} CommitChecked(s: Tables, last: Tables, t: Transaction)
    requires Grows(s, last) && Checked(last) && t.PublishLayer?
    ensures var next := Commit(last, Prepare(s, t.operation, t.expected, t.attribution), t);
      && Grows(last, next) && Checked(next)
      && (next == last || (Prepare(last, t.operation, t.expected, t.attribution).Ready?
                           && next == Committed(last, t.operation, t.expected, t.attribution,
                             Prepare(last, t.operation, t.expected, t.attribution).plan)))
  {
    hide Grows, Checked, Committed, Rechecked, Prepare;
    GrowsSame(last);
    var prepared := Prepare(s, t.operation, t.expected, t.attribution);
    if prepared.Ready? && Rechecked(last, t.operation, t.expected, prepared.plan) {
      CommitLands(s, last, t.operation, t.expected, t.attribution, prepared.plan);
    }
  }

  /** One more transaction grows the last state and keeps it checked. */
  lemma {:induction false} NextKeeps(run: seq<Tables>, t: Transaction)
    requires run != [] && Checked(run[|run| - 1]) && forall i :: 0 <= i < |run| ==> Grows(run[i], run[|run| - 1])
    ensures Grows(run[|run| - 1], Next(run, t)) && Checked(Next(run, t))
  {
    hide Grows, LayersChecked, IndexChecked, WorldChecked, PublicationsChecked, CreateIn, Update, AdvanceIn, Commit,
      Prepare;
    var last := run[|run| - 1];
    GrowsSame(last);
    match t
    case RememberContext(context) =>
      ContextKeeps(last, context);
    case CreateLayer(layer, version) =>
      if version < |last.versions| {
        EmptyValid(last, version);
        CreateKeeps(last, layer, Checkpoint(version, map[], {}, None));
      }
    case CloneLayer(layer, checkpoint) =>
      if CheckpointValid(last, checkpoint) {
        CreateKeeps(last, layer, checkpoint);
      }
    case UpdateLayer(operation, expected, change, provenance) =>
      UpdateKeeps(last, operation, expected, change, provenance);
    case AdvanceWorld(operation, expected, tree) =>
      if last.versions != [] {
        AdvanceKeeps(last, operation, expected, tree);
      }
    case PublishLayer(_, _, _, planned, _) =>
      if planned < |run| {
        CommitChecked(run[planned], last, t);
      }
  }

  lemma {:induction false} StepAt(run: seq<Tables>, j: nat) returns (t: Transaction)
    requires IsRun(run) && 0 < j < |run|
    ensures run[j] == Next(run[..j], t)
  {
    hide Next;
    var next := run[j];
    t :| next == Next(run[..j], t);
  }

  /** Every state of every run is checked, and nothing recorded in it is ever changed later. */
  lemma {:induction false} RunChecked(run: seq<Tables>, i: nat, j: nat)
    requires IsRun(run) && i <= j < |run|
    ensures Checked(run[i]) && Checked(run[j]) && Grows(run[i], run[j])
    decreases j
  {
    hide Grows, Checked, Next;
    if j == 0 {
      InitialChecked();
      GrowsSame(run[0]);
    } else {
      var t := StepAt(run, j);
      forall k | 0 <= k < j ensures Grows(run[..j][k], run[j - 1])
      {
        RunChecked(run, k, j - 1);
      }
      RunChecked(run, j - 1, j - 1);
      NextKeeps(run[..j], t);
      GrowsSame(run[j]);
      if i < j {
        RunChecked(run, i, j - 1);
        GrowsOn(run[i], run[j - 1], run[j]);
      }
    }
  }

  // ------------------------------------------------------------------------------- safety

  /**
   Worlds stay contiguous: each version is its parent plus its recorded, normalized changeset, and is chained to
   it.
   */
  lemma {:induction false} WorldsContiguous(run: seq<Tables>, i: nat, n: nat)
    requires IsRun(run) && i < |run| && 0 < n < |run[i].versions|
    ensures var s := run[i];
      && |s.changes| == |s.versions| && s.versions[n].number == n
      && s.versions[n].tree == Changed(s.versions[n - 1].tree, s.changes[n])
      && Differences(s.versions[n - 1].tree, s.versions[n].tree) == s.changes[n]
      && PrefixFree(s.versions[n].tree)
      && s.versions[n].id == Identity(Some(s.versions[n - 1].id), s.versions[n].tree, s.changes[n])
  {
    hide LayersChecked, IndexChecked, PublicationsChecked, Next;
    RunChecked(run, i, i);
    assert Follows(run[i], n);
    TreesPrefixFree(run[i], n);
    NormalizedStays(run[i].versions[n - 1].tree, run[i].changes[n]);
  }

  /** Equal version identities mean equal histories: one comparison verifies a version's whole content. */
  lemma {:induction false} SameIdentitySameHistory(s: Tables, t: Tables, n: nat, m: nat)
    requires WorldChecked(s) && WorldChecked(t) && n < |s.versions| && m < |t.versions|
    requires s.versions[n].id == t.versions[m].id
    ensures n == m
    ensures forall k :: 0 <= k <= n ==>
      s.versions[k].id == t.versions[k].id && s.versions[k].tree == t.versions[k].tree && s.changes[k] == t.changes[k]
    decreases n
  {
    hide AttemptChecked, Normalized, Changed;
    IdentityRoot(s, n);
    IdentityRoot(t, m);
    if n > 0 {
      SameIdentitySameHistory(s, t, n - 1, m - 1);
    }
  }

  lemma {:induction false} IdentityRoot(s: Tables, n: nat)
    requires WorldChecked(s) && n < |s.versions|
    ensures s.versions[n].id ==
      Identity(if n == 0 then None else Some(s.versions[n - 1].id), s.versions[n].tree, s.changes[n])
  {
    hide AttemptChecked, Normalized, Changed;
    if n > 0 {
      assert Follows(s, n);
    }
  }

  /** A published Layer stays published by the same operation, and gains no event. */
  lemma {:induction false} PublishedOnce(run: seq<Tables>, i: nat, j: nat, layer: LayerId, operation: OperationId)
    requires IsRun(run) && i <= j < |run| && Succeeded(run[i], layer, operation)
    ensures Succeeded(run[j], layer, operation) && forall other :: Succeeded(run[j], layer, other) ==>
      other == operation
    ensures layer in run[i].events && layer in run[j].events && run[j].events[layer] == run[i].events[layer]
    ensures LayerStateIn(run[j], layer).Some? && LayerStateIn(run[j], layer).value.Published?
      && LayerStateIn(run[j], layer) == LayerStateIn(run[i], layer)
  {
    hide LayersChecked, IndexChecked, WorldChecked, Next, ReceiptIn, SuccessState;
    RunChecked(run, i, j);
    assert HasSucceeded(run[i], layer) && HasSucceeded(run[j], layer);
    SucceededKnown(run[i], layer);
    assert Succeeded(run[j], layer, operation);
    assert SuccessOf(run[i], layer) == operation && SuccessOf(run[j], layer) == operation;
    PublishedState(run[i], layer);
    PublishedState(run[j], layer);
    SuccessStateStays(run[i], run[j], operation);
  }

  lemma {:induction false} PublishedState(s: Tables, layer: LayerId)
    requires PublicationsChecked(s) && HasSucceeded(s, layer)
    ensures LayerStateIn(s, layer) == SuccessState(s, SuccessOf(s, layer)) && LayerStateIn(s, layer).Some?
      && LayerStateIn(s, layer).value.Published?
  {
    hide HasSucceeded;
    var op := SuccessOf(s, layer);
    assert ReceiptIn(s, op).Some?;
    SuccessReceipt(s, op);
  }

  /**
   From its publication on, no update of a Layer is accepted: whenever one is tried later in the run,
   nothing changes, and only an update recorded before the publication is answered, as it was then.
   */
  lemma {:induction false} PublishedRefusesUpdates(run: seq<Tables>, i: nat, j: nat, operation: OperationId,
      expected: Head, change: Change, provenance: Option<nat>)
    requires IsRun(run) && i <= j < |run| && HasSucceeded(run[i], expected.layer)
    ensures var (t, reply) := Update(run[j], operation, expected, change, provenance);
      && t == run[j]
      && (reply.Done? ==> operation in run[i].layerAttempts && OutcomeOf(run[i], operation) == Some(reply.value))
  {
    hide HasSucceeded, HeadVerified, Proposed, OutcomeOf, Next, IsRun;
    StaysPublished(run, i, j, expected.layer);
    AttemptsFrozen(run, i, j, expected.layer, operation);
    if operation in run[i].layerAttempts {
      UpdateForever(run, i, j, operation);
    }
  }

  lemma {:induction false} StaysPublished(run: seq<Tables>, i: nat, j: nat, layer: LayerId)
    requires IsRun(run) && i <= j < |run| && HasSucceeded(run[i], layer)
    ensures HasSucceeded(run[j], layer)
  {
    hide Next, LayersChecked, IndexChecked, WorldChecked, PublicationsChecked;
    var operation :| Succeeded(run[i], layer, operation);
    PublishedOnce(run, i, j, layer, operation);
  }

  /** A published Layer gains no update attempt. */
  lemma {:induction false} AttemptsFrozen(run: seq<Tables>, i: nat, j: nat, layer: LayerId, operation: OperationId)
    requires IsRun(run) && i <= j < |run| && HasSucceeded(run[i], layer)
    ensures AttemptOn(run[j], layer, operation) ==> operation in run[i].layerAttempts
    decreases j
  {
    hide HasSucceeded, Next;
    if i < j {
      StaysPublished(run, i, j - 1, layer);
      AttemptsFrozen(run, i, j - 1, layer, operation);
      var t := StepAt(run, j);
      NextAttempts(run[..j], t, layer, operation);
    }
  }

  predicate AttemptOn(s: Tables, layer: LayerId, operation: OperationId) {
    operation in s.layerAttempts && s.layerAttempts[operation].layer == layer
  }

  lemma {:induction false} NextAttempts(run: seq<Tables>, t: Transaction, layer: LayerId, operation: OperationId)
    requires run != [] && HasSucceeded(run[|run| - 1], layer)
    ensures AttemptOn(Next(run, t), layer, operation) ==> AttemptOn(run[|run| - 1], layer, operation)
  {
    hide HasSucceeded, HeadVerified, Proposed, OutcomeOf, CheckpointValid, Replaced, Prepare, Rechecked;
  }

  /** A receipt, once recorded, is what every retry gets, forever; another input under its operation is refused. */
  lemma {:induction false} ReceiptForever(run: seq<Tables>, i: nat, j: nat, operation: OperationId, expected: Head,
      attribution: Attribution)
    requires IsRun(run) && i <= j < |run| && operation in run[i].publications
    ensures operation in run[j].publications
      && ReceiptIn(run[j], operation) == Some(run[i].publications[operation].receipt)
    ensures var receipt := run[i].publications[operation].receipt;
      Prepare(run[j], operation, expected, attribution) ==
        if receipt.expected == expected && receipt.attribution == attribution then Replay(receipt)
          else NotReady(OperationIdReused)
  {
    hide LayersChecked, IndexChecked, WorldChecked, Next, Grows, HasSucceeded;
    RunChecked(run, i, j);
    assert ReceiptIn(run[i], operation).Some?;
    ReceiptStays(run[i], run[j], operation);
    ReceiptNamed(run[i], operation);
  }

  lemma {:induction false} ReceiptNamed(s: Tables, operation: OperationId)
    requires operation in s.publications && ReceiptIn(s, operation).Some?
    ensures ReceiptIn(s, operation) == Some(s.publications[operation].receipt)
  {
    hide HeadAt, WarningsFor, ObservedIn, TerminalSeen, OutcomeIn;
  }

  /** A recorded Layer update is answered the same forever. */
  lemma {:induction false} UpdateForever(run: seq<Tables>, i: nat, j: nat, operation: OperationId)
    requires IsRun(run) && i <= j < |run| && operation in run[i].layerAttempts
    ensures OutcomeOf(run[i], operation).Some? && operation in run[j].layerAttempts
      && OutcomeOf(run[j], operation) == OutcomeOf(run[i], operation)
  {
    hide IndexChecked, WorldChecked, PublicationsChecked, Next, Grows, OutcomeOf;
    RunChecked(run, i, j);
    OutcomeStays(run[i], run[j], operation);
  }

  /** A recorded World advance is answered the same forever. */
  lemma {:induction false} AdvanceForever(run: seq<Tables>, i: nat, j: nat, operation: OperationId)
    requires IsRun(run) && i <= j < |run| && operation in run[i].attempts
    ensures AttemptOutcome(run[i], operation).Done? && operation in run[j].attempts
      && AttemptOutcome(run[j], operation) == AttemptOutcome(run[i], operation)
  {
    hide IndexChecked, LayersChecked, PublicationsChecked, Next, HasSucceeded;
    RunChecked(run, i, j);
    assert AttemptChecked(run[i], operation);
    VersionStays(run[i], run[j], run[i].attempts[operation].result);
  }

  /** A publish split into plan and commit does exactly what one atomic publish would, or nothing. */
  lemma {:induction false} PublishAtomic(run: seq<Tables>, t: Transaction)
    requires IsRun(run) && t.PublishLayer?
    ensures var last := run[|run| - 1];
      Next(run, t) == last || Next(run, t) == Commit(last, Prepare(last, t.operation, t.expected, t.attribution), t)
  {
    hide Grows, Checked, Committed, Prepare, Rechecked;
    var last := run[|run| - 1];
    if t.planned < |run| {
      RunChecked(run, t.planned, |run| - 1);
      var prepared := Prepare(run[t.planned], t.operation, t.expected, t.attribution);
      if prepared.Ready? && Rechecked(last, t.operation, t.expected, prepared.plan) {
        PlanHolds(run[t.planned], last, t.operation, t.expected, t.attribution, prepared.plan);
      }
    }
  }

  /** A successful publication appended exactly the Layer's whole changeset, on the World its receipt names. */
  lemma {:induction false} PublishedWhole(run: seq<Tables>, i: nat, operation: OperationId)
    requires IsRun(run) && i < |run| && operation in run[i].publications
      && run[i].publications[operation].tag == SUCCESS
    ensures var s, row := run[i], run[i].publications[operation];
      && row.result == Some(row.against + 1) && 0 < row.against + 1 < |s.versions| && |s.changes| == |s.versions|
      && s.changes[row.against + 1] == row.checkpoint.changes
      && s.versions[row.against + 1].tree == Changed(s.versions[row.against].tree, row.checkpoint.changes)
      && s.versions[row.against + 1].operation == Some(operation)
      && row.checkpoint.base <= row.against
      && Touched(s.versions[row.checkpoint.base].tree, s.versions[row.against].tree, row.checkpoint.changes.Keys) == {}
  {
    hide LayersChecked, IndexChecked, Next, Grows, Touched, Changed, Follows, AttemptChecked, WarningsFor,
      TerminalSeen, ObservedIn;
    RunChecked(run, i, i);
    assert ReceiptIn(run[i], operation).Some?;
    TreesPrefixFree(run[i], run[i].publications[operation].against);
  }

  // ---------------------------------------------------------------------------------- radar

  /** The attributed entries of a Layer are its head's changes. */
  lemma {:induction false} AttributedHead(events: seq<Event>)
    requires events != []
    ensures var head := events[|events| - 1].checkpoint;
      && Attributed(events).Keys == head.changes.Keys
      && forall p :: p in head.changes ==> Attributed(events)[p].entry == head.changes[p]
  {
  }

  function LiveRowsOf(index: Index): LiveRows {
    map row | row in index :: index[row].entry
  }

  /**
   In every state the index rows of an active Layer are exactly its head's changes, each with the
   checkpoint and provenance of the event since which its path has been so set.
   */
  lemma {:induction false} ActiveRows(run: seq<Tables>, i: nat, head: Head)
    requires IsRun(run) && i < |run| && LayerStateIn(run[i], head.layer) == Some(Active(head))
    ensures RowsOf(LiveRowsOf(run[i].index), head.layer, head.checkpoint.changes)
    ensures head.layer in run[i].events && RowsTrace(run[i].events[head.layer], LayerRows(run[i].index, head.layer))
  {
    hide LayersChecked, WorldChecked, Next, Grows, HasSucceeded, LayerRows, Attributed, ReceiptIn, RowsTrace;
    RunChecked(run, i, i);
    var s := run[i];
    StateFacts(s, head.layer);
    assert LayerRows(s.index, head.layer) == Derived(s, head.layer) == Attributed(s.events[head.layer]);
    AttributedHead(s.events[head.layer]);
    AttributedTraces(s.events[head.layer]);
    forall p ensures (p, head.layer) in s.index <==> p in head.checkpoint.changes
      ensures p in head.checkpoint.changes ==> s.index[(p, head.layer)].entry == head.checkpoint.changes[p]
    {
      LayerRow(s.index, head.layer, p);
    }
  }

  /** A published or discarded Layer has no rows left. */
  lemma {:induction false} TerminalRows(run: seq<Tables>, i: nat, layer: LayerId, p: Path)
    requires IsRun(run) && i < |run| && LayerStateIn(run[i], layer).Some? && !LayerStateIn(run[i], layer).value.Active?
    ensures (p, layer) !in run[i].index
  {
    hide LayersChecked, WorldChecked, Next, Grows, HasSucceeded, LayerRows, Attributed, ReceiptIn;
    RunChecked(run, i, i);
    var s := run[i];
    StateFacts(s, layer);
    assert LayerRows(s.index, layer) == Derived(s, layer) == map[];
    LayerRow(s.index, layer, p);
  }

  /**
   The radar foretells the next conflict. While a Layer is active and clear of the World, let another
   active Layer publish: planning the first again conflicts on exactly the ends of the pairs that
   were reported for the other, and succeeds when there were none.
   */
  lemma {:induction false} RadarForetells(run: seq<Tables>, ours: Head, theirs: Head, t: Transaction)
    requires IsRun(run) && ours.layer != theirs.layer
    requires var s := run[|run| - 1];
      && LayerStateIn(s, ours.layer) == Some(Active(ours)) && LayerStateIn(s, theirs.layer) == Some(Active(theirs))
      && s.versions != [] && ours.checkpoint.base < |s.versions|
      && Touched(s.versions[ours.checkpoint.base].tree, WorldHead(s).tree, ours.checkpoint.changes.Keys) == {}
    requires t.PublishLayer? && t.expected == theirs
    requires Succeeded(Next(run, t), theirs.layer, t.operation)
    ensures var s, next := run[|run| - 1], Next(run, t);
      && LayerStateIn(next, ours.layer) == Some(Active(ours))
      && next.versions != []
      && ComposeOnto(next, ours.checkpoint, WorldHead(next)).Some?
      && forall x :: x in ConflictsOf(ComposeOnto(next, ours.checkpoint, WorldHead(next)).value) <==>
           exists our, their ::
             Collides(s.versions[ours.checkpoint.base].tree, LiveRowsOf(s.index), ours.checkpoint.changes.Keys,
             theirs.layer, our, their) && (x == our || x == their)
  {
    hide Grows, LayersChecked, IndexChecked, HasSucceeded, LayerStateIn, Prepare, Touched, WorldChecked, Collides,
      Succeeded, Changed, Next, RowsOf, LiveRowsOf, PublicationsChecked, ConflictsOf, ComposeOnto;
    var s := run[|run| - 1];
    RunChecked(run, |run| - 1, |run| - 1);
    ActiveRows(run, |run| - 1, theirs);
    StateFacts(s, theirs.layer);
    LandedNext(run, t, ours);
    RadarNext(s, Next(run, t), ours, theirs);
  }

  /** The next composition conflicts on the ends of the reported pairs. */
  lemma {:induction false} RadarNext(s: Tables, next: Tables, ours: Head, theirs: Head)
    requires WorldChecked(s) && Grows(s, next) && s.versions != [] && next.versions != []
      && ours.checkpoint.base < |s.versions|
    requires Touched(s.versions[ours.checkpoint.base].tree, WorldHead(s).tree, ours.checkpoint.changes.Keys) == {}
    requires RowsOf(LiveRowsOf(s.index), theirs.layer, theirs.checkpoint.changes)
    requires WorldHead(next).tree == Changed(WorldHead(s).tree, theirs.checkpoint.changes)
      && WorldHead(next).number == WorldHead(s).number + 1
    ensures ComposeOnto(next, ours.checkpoint, WorldHead(next)).Some?
    ensures forall x :: x in ConflictsOf(ComposeOnto(next, ours.checkpoint, WorldHead(next)).value) <==>
      exists our, their ::
        Collides(s.versions[ours.checkpoint.base].tree, LiveRowsOf(s.index), ours.checkpoint.changes.Keys,
        theirs.layer, our, their) && (x == our || x == their)
  {
    hide Grows, Touched, Follows, AttemptChecked, Collides, Changed, RowsOf, LiveRowsOf;
    TreesPrefixFree(s, |s.versions| - 1);
    VersionStays(s, next, ours.checkpoint.base);
    var base := s.versions[ours.checkpoint.base].tree;
    forall x ensures x in Touched(base, WorldHead(next).tree, ours.checkpoint.changes.Keys) <==>
      exists our, their :: Collides(base, LiveRowsOf(s.index), ours.checkpoint.changes.Keys, theirs.layer, our, their)
        && (x == our || x == their)
    {
      RadarExact(base, WorldHead(s).tree, LiveRowsOf(s.index), theirs.layer, theirs.checkpoint.changes,
        ours.checkpoint.changes.Keys, x);
    }
  }

  function ConflictsOf(composed: Composition): set<Path> {
    if composed.Intersecting? then composed.paths else {}
  }

  /** What a publish that just succeeded did. */
  lemma {:induction false} LandedNext(run: seq<Tables>, t: Transaction, other: Head)
    requires IsRun(run) && t.PublishLayer? && other.layer != t.expected.layer
    requires !HasSucceeded(run[|run| - 1], t.expected.layer) && Succeeded(Next(run, t), t.expected.layer, t.operation)
    requires LayerStateIn(run[|run| - 1], other.layer) == Some(Active(other))
    ensures var s, next := run[|run| - 1], Next(run, t);
      && Grows(s, next) && s.versions != [] && next.versions != []
      && WorldHead(next).tree == Changed(WorldHead(s).tree, t.expected.checkpoint.changes)
      && WorldHead(next).number == WorldHead(s).number + 1
      && LayerStateIn(next, other.layer) == Some(Active(other))
  {
    hide Grows, Checked, HasSucceeded, LayerStateIn, Prepare, Committed, Rechecked, Commit, Succeeded;
    var s := run[|run| - 1];
    RunChecked(run, |run| - 1, |run| - 1);
    NotYet(s, t.expected.layer, t.operation);
    RunChecked(run, t.planned, |run| - 1);
    CommitChecked(run[t.planned], s, t);
    var plan := Prepare(s, t.operation, t.expected, t.attribution).plan;
    CommittedHead(s, t.operation, t.expected, t.attribution, plan, other);
  }

  lemma {:induction false} NotYet(s: Tables, layer: LayerId, operation: OperationId)
    requires !HasSucceeded(s, layer)
    ensures !Succeeded(s, layer, operation)
  {
  }

  lemma {:induction false} CommittedHead(s: Tables, operation: OperationId, expected: Head, attribution: Attribution,
      plan: Plan, other: Head)
    requires Checked(s) && Commits.Planned(s, operation, expected, attribution, plan) && other.layer != expected.layer
    requires LayerStateIn(s, other.layer) == Some(Active(other))
    requires Succeeded(Committed(s, operation, expected, attribution, plan), expected.layer, operation)
    ensures var next := Committed(s, operation, expected, attribution, plan);
      && s.versions != [] && next.versions != []
      && WorldHead(next).tree == Changed(WorldHead(s).tree, expected.checkpoint.changes)
      && WorldHead(next).number == WorldHead(s).number + 1
      && LayerStateIn(next, other.layer) == Some(Active(other))
  {
    hide LayersChecked, IndexChecked, PublicationsChecked, WorldChecked, HasSucceeded, Prepare, ComposeOnto,
      WarningsFor, ReceiptIn, Replaced, HeadVerified, Changed, SuccessState;
    PlannedFacts(s, operation, expected, attribution, plan);
    StateFacts(s, other.layer);
    CandidateFollows(s, operation, expected, attribution, plan);
    CommittedSuccess(s, operation, expected, attribution, plan, other.layer);
  }
}
