/**
 Publishing a Layer (src/publish.rs) and advancing the World (src/repository.rs): a plan is prepared
 from one snapshot, rechecked against the locked state, and committed with a receipt that can be
 derived again forever.
 */
module Publishing {
  import opened Names
  import opened Chunks
  import opened Directories
  import opened Apply
  import opened Domain
  import opened Records
  import opened Layers

  // -------------------------------------------------------------------------------- planning

  /** The composed candidate of a publish, or the paths it conflicts on. */
  datatype Composition = Candidate(changes: Changeset, tree: Snapshot) | Intersecting(paths: set<Path>)

  datatype Plan = Plan(against: Version, actual: LayerState, missingTrace: bool, composed: Option<Composition>)

  datatype Prepared = Replay(receipt: Receipt) | Ready(plan: Plan) | NotReady(why: Reason)

  /** The Layer's changes over its base, composed onto a World version. */
  function ComposeOnto(s: Tables, checkpoint: Checkpoint, against: Version): Option<Composition> {
    if checkpoint.base >= |s.versions| || checkpoint.base > against.number then None
    else
      var found := Touched(s.versions[checkpoint.base].tree, against.tree, checkpoint.changes.Keys);
      Some(if found != {} then Intersecting(found)
        else Candidate(checkpoint.changes, Changed(against.tree, checkpoint.changes)))
  }

  /** Whether the missing-trace warning applies; an agent without a known trace is refused. */
  function WarningsFor(s: Tables, attribution: Attribution): Reply<bool> {
    match attribution
    case Human => Done(false)
    case Agent(Some(context), _) => if context in s.contexts then Done(false) else Refuse(Corrupt)
    case Agent(None, allowed) => if allowed then Done(true) else Refuse(MissingAgentTrace)
  }

  lemma {:induction false} Least(ops: set<OperationId>) returns (least: OperationId)
    requires ops != {}
    ensures least in ops && forall op :: op in ops ==> least <= op
  {
    least :| least in ops;
    var rest := ops - {least};
    if rest != {} {
      var other := Least(rest);
      least := if least < other then least else other;
    }
    forall op | op in ops ensures least <= op
    {
      assert op in rest || rest == {} || op <= op;
    }
  }

  lemma {:induction false} LeastExists(ops: set<OperationId>)
    requires ops != {}
    ensures exists least :: least in ops && forall op :: op in ops ==> least <= op
  {
    var least := Least(ops);
  }

  /** The successful publication of a Layer: the first row found, in order of operation. */
  function SuccessOf(s: Tables, layer: LayerId): OperationId
    requires HasSucceeded(s, layer)
    ensures SuccessOf(s, layer) in s.publications && Succeeded(s, layer, SuccessOf(s, layer))
  {
    var ops := set operation | operation in s.publications && Succeeded(s, layer, operation);
    assert ops != {} by {
      var operation :| operation in s.publications && Succeeded(s, layer, operation);
      assert operation in ops;
    }
    LeastExists(ops);
    var least :| least in ops && forall op :: op in ops ==> least <= op;
    least
  }

  /** A Layer's state: published forever once it succeeded, and otherwise its latest event. */
  function LayerStateIn(s: Tables, layer: LayerId): Option<LayerState> {
    if HasSucceeded(s, layer) then
      if ReceiptIn(s, SuccessOf(s, layer)).None? then None else SuccessState(s, SuccessOf(s, layer))
    else LatestState(s, layer)
  }

  /** Every earlier receipt that a new outcome builds on reads back. */
  predicate Grounded(s: Tables, layer: LayerId) {
    && s.versions != []
    && (WorldHead(s).operation.Some? && WorldHead(s).operation.value in s.publications ==>
      ReceiptIn(s, WorldHead(s).operation.value).Some?)
    && forall op :: op in s.publications && s.publications[op].layer == layer ==> ReceiptIn(s, op).Some?
  }

  /** Decides a publish from one snapshot. */
  function Prepare(s: Tables, operation: OperationId, expected: Head, attribution: Attribution): Prepared {
    if operation in s.publications then
      var receipt := ReceiptIn(s, operation);
      if receipt.None? then NotReady(Corrupt)
      else if receipt.value.expected != expected
        || receipt.value.attribution != attribution then NotReady(OperationIdReused)
      else Replay(receipt.value)
    else if operation in s.attempts then NotReady(OperationIdReused)
    else if !HeadVerified(s, expected) then NotReady(InvalidHead)
    else if WarningsFor(s, attribution).Refuse? then NotReady(WarningsFor(s, attribution).why)
    else if attribution.Agent? && attribution.context.Some? && attribution.allowMissingTrace then NotReady(InvalidInput)
    else if !Grounded(s, expected.layer) then NotReady(Corrupt)
    else PlanIn(s, expected, WarningsFor(s, attribution).value)
  }

  function PlanIn(s: Tables, expected: Head, missingTrace: bool): Prepared
    requires s.versions != []
  {
    var against, actual := WorldHead(s), LayerStateIn(s, expected.layer);
    if actual.None? then NotReady(Corrupt)
    else if actual.value != Active(expected) then Ready(Plan(against, actual.value, missingTrace, None))
    else
      var composed := ComposeOnto(s, expected.checkpoint, against);
      if composed.None? then NotReady(Corrupt) else Ready(Plan(against, actual.value, missingTrace, composed))
  }

  // ------------------------------------------------------------------------------- committing

  /** The locked recheck: nothing the plan depends on has moved. */
  predicate Rechecked(s: Tables, operation: OperationId, expected: Head, plan: Plan) {
    && operation !in s.publications && operation !in s.attempts
    && s.versions != [] && WorldHead(s) == plan.against
    && LayerStateIn(s, expected.layer) == Some(plan.actual)
  }

  function NextVersion(head: Version, operation: OperationId, changes: Changeset, tree: Snapshot): Version {
    Version(head.number + 1, Identity(Some(head.id), tree, changes), tree, Some(operation))
  }

  function OutcomeFor(operation: OperationId, plan: Plan): Outcome {
    match plan.composed
    case None => LayerStale(plan.actual)
    case Some(Intersecting(paths)) => Conflicted(paths)
    case Some(Candidate(changes, tree)) => Landed(NextVersion(plan.against, operation, changes, tree))
  }

  function RevisionOf(state: LayerState): nat {
    match state
    case Active(head) => head.revision
    case Published(head, _, _) => head.revision
    case Discarded(_, revision, _) => revision
  }

  function RowFor(operation: OperationId, expected: Head, attribution: Attribution, plan: Plan): Row {
    var outcome := OutcomeFor(operation, plan);
    var receipt := Receipt(operation, expected, attribution, plan.against, plan.missingTrace, outcome);
    Row(expected.layer, expected.revision, expected.checkpoint, plan.against.number, RevisionOf(plan.actual),
        if plan.actual.Published? then Some(plan.actual.operation) else None, attribution,
        if outcome.Landed? then SUCCESS else if outcome.Conflicted? then CONFLICT else STALE,
        if outcome.Landed? then Some(outcome.version.number) else None, if outcome.Landed? then Some(operation)
          else None, receipt)
  }

  /** What a successful publish writes before its row: the attempt and the version; the Layer leaves the path index. */
  function Landing(s: Tables, operation: OperationId, layer: LayerId, against: Version, changes: Changeset,
      tree: Snapshot): Tables
  {
    s.(attempts := s.attempts[operation := Attempt(against.number, None, true, against.number + 1)],
       versions := s.versions + [NextVersion(against, operation, changes, tree)],
       changes := s.changes + [changes],
       index := Replaced(s.index, layer, map[]))
  }

  /** The committed transaction, once rechecked. */
  function Committed(s: Tables, operation: OperationId, expected: Head, attribution: Attribution, plan: Plan): Tables {
    var t := if plan.composed.Some? && plan.composed.value.Candidate?
      then Landing(s, operation, expected.layer, plan.against, plan.composed.value.changes, plan.composed.value.tree)
        else s;
    t.(publications := s.publications[operation := RowFor(operation, expected, attribution, plan)])
  }

  /** A publish that plans and commits in one state. */
  function AtomicPublish(s: Tables, operation: OperationId, expected: Head, attribution: Attribution,
      allowed: bool): (Tables, Reply<Receipt>)
  {
    match Prepare(s, operation, expected, attribution)
    case NotReady(why) => (s, Refuse(why))
    case Replay(receipt) => (s, Done(receipt))
    case Ready(plan) =>
      if plan.composed.Some? && plan.composed.value.Candidate? && !allowed then (s, Refuse(GuardRefused))
      else (Committed(s, operation, expected, attribution, plan),
        Done(RowFor(operation, expected, attribution, plan).receipt))
  }

  // --------------------------------------------------------------------------------- receipts

  /** The state a row observed: its Layer event, or an earlier success of the same Layer. */
  function ObservedIn(s: Tables, operation: OperationId): Option<LayerState>
    requires operation in s.publications
  {
    var row := s.publications[operation];
    match row.observedPublication
    case None => StateAt(s, row.layer, row.observed)
    case Some(prior) =>
      if prior == operation || prior !in s.publications || s.publications[prior].layer != row.layer
         || s.publications[prior].expected != row.observed || s.publications[prior].result.None?
           || s.publications[prior].result.value > row.against
         || StateAt(s, row.layer, row.observed).None?
      then None else SuccessState(s, prior)
  }

  predicate LandedBy(row: Row, layer: LayerId, against: nat) {
    row.layer == layer && row.tag == SUCCESS && row.result.Some? && row.result.value <= against
  }

  /** A success already in the World a row saw cannot be left out of it. */
  predicate TerminalSeen(s: Tables, operation: OperationId)
    requires operation in s.publications
  {
    var row := s.publications[operation];
    forall other :: other in s.publications && LandedBy(s.publications[other], row.layer, row.against) ==>
      row.observedPublication == Some(other)
  }

  /** The outcome a row's bindings derive. */
  function OutcomeIn(s: Tables, operation: OperationId, expected: Head, against: Version,
      observed: LayerState): Option<Outcome>
    requires operation in s.publications
  {
    var row := s.publications[operation];
    var exact := observed == Active(expected);
    if row.tag == SUCCESS then
      if row.result.None? || !exact || row.worldOperation != Some(operation) || operation !in s.attempts
         || row.result.value != row.against + 1 || LatestState(s, row.layer) != Some(observed) then None
      else
        var composed := ComposeOnto(s, expected.checkpoint, against);
        if composed.None? || composed.value.Intersecting? || row.result.value >= |s.versions|
          || row.result.value >= |s.changes| then None
        else
          var version := s.versions[row.result.value];
          if version.operation != Some(operation) || version.tree != composed.value.tree
             || version.id != Identity(Some(against.id), composed.value.tree, composed.value.changes)
             || s.changes[row.result.value] != composed.value.changes then None
          else Some(Landed(version))
    else if operation in s.attempts || row.result.Some? || row.worldOperation.Some? then None
    else if row.tag == CONFLICT then
      var composed := ComposeOnto(s, expected.checkpoint, against);
      if !exact || composed.None? || composed.value.Candidate? then None else Some(Conflicted(composed.value.paths))
    else if exact then None
    else Some(LayerStale(observed))
  }

  /** A stored row validated against its bindings: the receipt it derives must be the receipt it names. */
  function ReceiptIn(s: Tables, operation: OperationId): Option<Receipt>
    requires operation in s.publications
  {
    var row := s.publications[operation];
    var expected := HeadAt(s, row.layer, row.expected);
    if expected.None? || expected.value.checkpoint != row.checkpoint || row.observed < row.expected
      || row.against >= |s.versions| then None
    else
      var against := s.versions[row.against];
      var warnings := WarningsFor(s, row.attribution);
      var observed := ObservedIn(s, operation);
      if expected.value.checkpoint.base > against.number || warnings.Refuse? || observed.None?
        || !TerminalSeen(s, operation) then None
      else
        var outcome := OutcomeIn(s, operation, expected.value, against, observed.value);
        if outcome.None? then None
        else
          var receipt := Receipt(operation, expected.value, row.attribution, against, warnings.value, outcome.value);
          if receipt != row.receipt then None else Some(receipt)
  }

  /** What checking every publication demands. */
  ghost predicate PublicationsChecked(s: Tables) {
    && (forall op :: op in s.publications ==> ReceiptIn(s, op).Some?)
    && (forall layer, one, two :: Succeeded(s, layer, one) && Succeeded(s, layer, two) ==> one == two)
  }

  // ----------------------------------------------------------------------------------- stability

  lemma {:induction false} ComposeStays(s: Tables, t: Tables, checkpoint: Checkpoint, against: Version)
    requires Grows(s, t) && ComposeOnto(s, checkpoint, against).Some?
    ensures ComposeOnto(t, checkpoint, against) == ComposeOnto(s, checkpoint, against)
  {
    hide Touched, Changed, HasSucceeded;
    VersionStays(s, t, checkpoint.base);
  }

  lemma {:induction false} SuccessStateStays(s: Tables, t: Tables, operation: OperationId)
    requires Grows(s, t) && operation in s.publications && SuccessState(s, operation).Some?
    ensures SuccessState(t, operation) == SuccessState(s, operation)
  {
    hide HasSucceeded;
    var row := s.publications[operation];
    StateStays(s, t, row.layer, row.expected);
    VersionStays(s, t, row.result.value);
  }

  lemma {:induction false} ObservedStays(s: Tables, t: Tables, operation: OperationId)
    requires Grows(s, t) && operation in s.publications && ObservedIn(s, operation).Some?
    ensures ObservedIn(t, operation) == ObservedIn(s, operation)
  {
    hide HasSucceeded, StateAt, SuccessState;
    var row := s.publications[operation];
    StateStays(s, t, row.layer, row.observed);
    if row.observedPublication.Some? {
      SuccessStateStays(s, t, row.observedPublication.value);
    }
  }

  lemma {:induction false} TerminalStays(s: Tables, t: Tables, operation: OperationId)
    requires Grows(s, t) && operation in s.publications && TerminalSeen(s, operation)
      && s.publications[operation].against < |s.versions|
    ensures TerminalSeen(t, operation)
  {
    hide HasSucceeded;
  }

  lemma {:induction false} LatestStays(s: Tables, t: Tables, layer: LayerId)
    requires Grows(s, t) && HasSucceeded(s, layer) && layer in s.events
    ensures LatestState(t, layer) == LatestState(s, layer)
  {
    hide HasSucceeded;
  }

  lemma {:induction false} OutcomeInStays(s: Tables, t: Tables, operation: OperationId, expected: Head,
      against: Version, observed: LayerState)
    requires Grows(s, t) && operation in s.publications && OutcomeIn(s, operation, expected, against, observed).Some?
    ensures OutcomeIn(t, operation, expected, against, observed) == OutcomeIn(s, operation, expected, against, observed)
  {
    hide ComposeOnto, LatestState;
    var row := s.publications[operation];
    if row.tag == SUCCESS {
      assert Succeeded(s, row.layer, operation);
      assert row.layer in s.events by { LatestKnown(s, row.layer); }
      LatestStays(s, t, row.layer);
      ComposeStays(s, t, expected.checkpoint, against);
      VersionStays(s, t, row.result.value);
      assert s.changes <= t.changes;
    } else if row.tag == CONFLICT {
      ComposeStays(s, t, expected.checkpoint, against);
    }
  }

  lemma {:induction false} LatestKnown(s: Tables, layer: LayerId)
    ensures LatestState(s, layer).Some? ==> layer in s.events
  {
  }

  lemma {:induction false} WarningsStay(s: Tables, t: Tables, attribution: Attribution)
    requires Grows(s, t) && WarningsFor(s, attribution).Done?
    ensures WarningsFor(t, attribution) == WarningsFor(s, attribution)
  {
    hide HasSucceeded;
  }

  /** A receipt that derives once derives forever, unchanged. */
  lemma {:induction false} ReceiptStays(s: Tables, t: Tables, operation: OperationId)
    requires Grows(s, t) && operation in s.publications && ReceiptIn(s, operation).Some?
    ensures operation in t.publications && ReceiptIn(t, operation) == ReceiptIn(s, operation)
  {
    hide HasSucceeded, StateAt, HeadAt, WarningsFor, ObservedIn, TerminalSeen, OutcomeIn;
    var row := s.publications[operation];
    assert t.publications[operation] == row;
    HeadKnown(s, row.layer, row.expected);
    StateStays(s, t, row.layer, row.expected);
    VersionStays(s, t, row.against);
    WarningsStay(s, t, row.attribution);
    ObservedStays(s, t, operation);
    TerminalStays(s, t, operation);
    OutcomeInStays(s, t, operation, HeadAt(s, row.layer, row.expected).value, s.versions[row.against],
      ObservedIn(s, operation).value);
  }

  lemma {:induction false} HeadKnown(s: Tables, layer: LayerId, revision: nat)
    ensures HeadAt(s, layer, revision).Some? ==> StateAt(s, layer, revision).Some?
  {
  }
}
