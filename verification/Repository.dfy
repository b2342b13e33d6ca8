/**
 The repository's transactions as they write its tables (src/layer.rs, src/repository.rs,
 src/publish.rs), each against its specification, and the publish loop under interference.
 */
module Repositories {
  import opened Names
  import opened Chunks
  import opened Directories
  import opened Apply
  import opened Paths
  import opened Domain
  import opened Records
  import L = Layers
  import opened Publishing
  import C = Commits
  import T = Transactions
  import opened Runs

  type Reply<T> = L.Reply<T>

  /** One whole transaction of another client. */
  ghost function AfterOther(s: Tables, t: Transaction): Tables {
    if t.PublishLayer? then AtomicPublish(s, t.operation, t.expected, t.attribution, t.allowed).0 else Next([s], t)
  }

  ghost function AfterOthers(s: Tables, ts: seq<Transaction>): Tables {
    if ts == [] then s else AfterOther(AfterOthers(s, ts[..|ts| - 1]), ts[|ts| - 1])
  }

  /** Paths in a transaction are repository paths. */
  ghost predicate WellFormed(t: Transaction) {
    t.UpdateLayer? && !t.change.Discard? ==> AllValid(t.change.changes.Keys)
  }

  lemma {:induction false} AfterOtherKeeps(s: Tables, t: Transaction)
    requires C.Checked(s)
    ensures C.Checked(AfterOther(s, t)) && Grows(s, AfterOther(s, t))
  {
    hide C.Checked, Grows, Committed, Prepare, Next;
    GrowsSame(s);
    if t.PublishLayer? {
      AtomicKeeps(s, t.operation, t.expected, t.attribution, t.allowed);
    } else {
      NextKeeps([s], t);
    }
  }

  lemma {:induction false} AtomicKeeps(s: Tables, operation: OperationId, expected: Head, attribution: Attribution,
      allowed: bool)
    requires C.Checked(s)
    ensures var t := AtomicPublish(s, operation, expected, attribution, allowed).0; C.Checked(t) && Grows(s, t)
  {
    hide C.Checked, Grows, Committed, Prepare;
    GrowsSame(s);
    var prepared := Prepare(s, operation, expected, attribution);
    if prepared.Ready? {
      C.CommitKeeps(s, operation, expected, attribution, prepared.plan);
    }
  }

  /** A recheck right after planning, with nothing in between, always passes. */
  lemma {:induction false} FreshPlanPasses(s: Tables, operation: OperationId, expected: Head, attribution: Attribution)
    requires Prepare(s, operation, expected, attribution).Ready?
    ensures Rechecked(s, operation, expected, Prepare(s, operation, expected, attribution).plan)
  {
    hide ReceiptIn, HeadVerified, WarningsFor, LayerStateIn, ComposeOnto;
    C.PlannedFacts(s, operation, expected, attribution, Prepare(s, operation, expected, attribution).plan);
  }

  class Repository {
    var versions: seq<Version>
    var changes: seq<Changeset>
    var attempts: map<OperationId, Attempt>
    var events: map<LayerId, seq<Event>>
    var layerAttempts: map<OperationId, LayerAttempt>
    var publications: map<OperationId, Row>
    var index: Index
    var contexts: set<nat>

    function State(): Tables
      reads this
    {
      Tables(versions, changes, attempts, events, layerAttempts, publications, index, contexts)
    }

    constructor ()
      ensures State() == INITIAL && C.Checked(State())
    {
      versions, changes, attempts, events := [GENESIS], [map[]], map[], map[];
      layerAttempts, publications, index, contexts := map[], map[], map[], {};
      new;
      InitialChecked();
    }

    method RememberContext(context: nat)
      modifies this
      ensures State() == old(State()).(contexts := old(contexts) + {context})
    {
      contexts := contexts + {context};
    }

    /** Inserts a Layer's first event, or answers a retry with its frozen head. */
    method CreateIn(layer: LayerId, checkpoint: Checkpoint) returns (reply: Reply<Head>)
      modifies this
      ensures (State(), reply) == L.CreateIn(old(State()), layer, checkpoint)
    {
      if layer in events && events[layer] != [] {
        if events[layer][0].checkpoint != checkpoint {
          return L.Refuse(L.InvalidInput);
        }
      } else {
        events := events[layer := [Event(checkpoint, false, None)]];
        index := L.TrackIn(index, layer, checkpoint);
      }
      return L.Done(Head(layer, 0, checkpoint));
    }

    method CreateLayer(layer: LayerId, version: nat) returns (reply: Reply<Head>)
      modifies this
      ensures (State(), reply) == L.Create(old(State()), layer, version)
      ensures var s := old(State());
        C.Checked(s) ==>
          if version >= |s.versions| then State() == s && reply == L.Refuse(L.MissingVersion)
          else T.CreateLaw(s, layer, Checkpoint(version, map[], {}, None), State(), reply)
    {
      hide C.Checked, L.CreateIn, T.CreateLaw;
      if version >= |versions| {
        return L.Refuse(L.MissingVersion);
      }
      reply := CreateIn(layer, Checkpoint(version, map[], {}, None));
      if C.Checked(old(State())) {
        T.CreateDoes(old(State()), layer, Checkpoint(version, map[], {}, None));
      }
    }

    method CloneLayer(layer: LayerId, checkpoint: Checkpoint) returns (reply: Reply<Head>)
      modifies this
      ensures (State(), reply) == L.Clone(old(State()), layer, checkpoint)
      ensures var s := old(State());
        C.Checked(s) ==>
          if checkpoint.base >= |s.versions| || !Normalized(s.versions[checkpoint.base].tree, checkpoint.changes)
          then State() == s && reply == L.Refuse(L.InvalidInput)
          else T.CreateLaw(s, layer, checkpoint, State(), reply)
    {
      hide C.Checked, L.CreateIn, T.CreateLaw, Normalized;
      if !CheckpointValid(State(), checkpoint) {
        return L.Refuse(L.InvalidInput);
      }
      reply := CreateIn(layer, checkpoint);
      if C.Checked(old(State())) {
        T.CreateDoes(old(State()), layer, checkpoint);
      }
    }

    /** The checkpoint an update proposes: its changes normalized against the Layer's base. */
    method Propose(expected: Head, change: L.Change, provenance: Option<nat>) returns (checkpoint: Option<Checkpoint>)
      requires C.Checked(State())
      requires !change.Discard? ==> AllValid(change.changes.Keys)
      ensures checkpoint == L.Proposed(State(), expected, change, provenance)
    {
      hide C.Checked, Normalized, Differences, Changed, ValidPath, PrefixFree;
      if change.Discard? {
        return Some(expected.checkpoint);
      }
      if !CheckpointValid(State(), expected.checkpoint) || (change.Stack? && !CheckpointValid(State(), change.source)) {
        return None;
      }
      var base := expected.checkpoint.base;
      TreeKnown(State(), base);
      var normal := Normalize(e => true, versions[base].tree, change.changes);
      if normal.Refused? {
        return None;
      }
      var sources := expected.checkpoint.sources;
      if change.Stack? {
        sources := sources + {change.source};
      }
      assert sources == expected.checkpoint.sources + (if change.Stack? then {change.source} else {});
      return Some(Checkpoint(base, normal.changes, sources, provenance));
    }

    /** Records one update of a Layer: its attempt, and its event and index rows when it is accepted. */
    method UpdateIn(operation: OperationId, expected: Head, checkpoint: Checkpoint, change: L.Change)
      requires expected.layer in events && events[expected.layer] != []
      modifies this
      ensures State() == L.Recorded(old(State()), operation, expected, checkpoint, change)
    {
      hide L.Replaced, L.Refreshed, L.LayerRows;
      var layer := expected.layer;
      var latest := |events[layer]| - 1;
      var accepted := latest == expected.revision;
      layerAttempts :=
        layerAttempts[operation := LayerAttempt(layer, expected.revision, checkpoint, change.Discard?, accepted,
                                                               if accepted then latest + 1
                                                                 else latest, change.Source(), change.Resolution())];
      if accepted {
        events := events[layer := events[layer] + [Event(checkpoint, change.Discard?, Some(operation))]];
        if change.Discard? {
          index := Untrack(index, layer);
        } else {
          index := L.TrackIn(index, layer, checkpoint);
        }
      }
    }

    /** Captures, Stacks onto or discards a Layer; a recorded operation is answered as before. */
    method UpdateLayer(operation: OperationId, expected: Head, change: L.Change, provenance: Option<nat>)
      returns (reply: Reply<L.LayerUpdate>)
      requires C.Checked(State())
      requires !change.Discard? ==> AllValid(change.changes.Keys)
      modifies this
      ensures (State(), reply) == L.Update(old(State()), operation, expected, change, provenance)
      ensures T.UpdateLaw(old(State()), operation, expected, change, provenance, State(), reply)
    {
      T.UpdateDoes(State(), operation, expected, change, provenance);
      hide HasSucceeded, T.UpdateLaw, C.Checked, L.Proposed, L.OutcomeOf, L.Recorded, L.SameInput,
        ValidPath;
      if !HeadVerified(State(), expected) {
        return L.Refuse(L.InvalidHead);
      }
      if operation !in layerAttempts && HasSucceeded(State(), expected.layer) {
        return L.Refuse(L.LayerPublished);
      }
      var checkpoint := Propose(expected, change, provenance);
      if checkpoint.None? {
        return L.Refuse(L.InvalidInput);
      }
      if operation in layerAttempts {
        if !L.SameInput(layerAttempts[operation], expected, checkpoint.value, change) {
          return L.Refuse(L.OperationIdReused);
        }
      } else {
        UpdateIn(operation, expected, checkpoint.value, change);
        RecordedHas(old(State()), operation, expected, checkpoint.value, change);
      }
      reply := L.OutcomeReply(State(), operation);
    }

    /** Records a World attempt for a candidate snapshot, and its version when it is accepted. */
    method AdvanceWorld(operation: OperationId, expected: nat, tree: Snapshot) returns (reply: Reply<C.AdvanceOutcome>)
      requires versions != []
      modifies this
      ensures (State(), reply) == C.AdvanceIn(old(State()), operation, expected, tree)
      ensures C.Checked(old(State())) ==> T.AdvanceLaw(old(State()), operation, expected, tree, State(), reply)
    {
      hide C.Checked, T.AdvanceLaw, Differences, PrefixFree;
      if C.Checked(State()) {
        T.AdvanceDoes(State(), operation, expected, tree);
      }
      var head := versions[|versions| - 1];
      if operation in publications {
        return L.Refuse(L.OperationIdReused);
      }
      if operation in attempts {
        if attempts[operation].expected != expected || attempts[operation].tree != Some(tree) {
          return L.Refuse(L.OperationIdReused);
        }
        return C.AttemptOutcome(State(), operation);
      }
      if expected > head.number {
        return L.Refuse(L.MissingVersion);
      }
      if !PrefixFree(tree) {
        return L.Refuse(L.InvalidInput);
      }
      var accepted := expected == head.number;
      attempts := attempts[operation :=
        Attempt(expected, Some(tree), accepted, if accepted then expected + 1 else head.number)];
      if !accepted {
        return L.Done(C.Behind(head.number));
      }
      var difference := Differences(head.tree, tree);
      var version := AppendVersion(head, operation, difference, tree);
      return L.Done(C.Accepted(version));
    }

    method AppendVersion(head: Version, operation: OperationId, difference: Changeset, tree: Snapshot)
      returns (version: Version)
      modifies this`versions, this`changes
      ensures version == NextVersion(head, operation, difference, tree)
      ensures versions == old(versions) + [version] && changes == old(changes) + [difference]
    {
      version := NextVersion(head, operation, difference, tree);
      versions := versions + [version];
      changes := changes + [difference];
    }

    /** Writes a rechecked plan: the version and the emptied index rows when it lands, and always its row. */
    method CommitPlan(operation: OperationId, expected: Head, attribution: Attribution, plan: Plan)
      returns (receipt: Receipt)
      modifies this
      ensures State() == Committed(old(State()), operation, expected, attribution, plan)
      ensures receipt == RowFor(operation, expected, attribution, plan).receipt
    {
      hide RowFor, NextVersion, L.Replaced, L.LayerRows;
      var row := RowFor(operation, expected, attribution, plan);
      if plan.composed.Some? && plan.composed.value.Candidate? {
        attempts := attempts[operation := Attempt(plan.against.number, None, true, plan.against.number + 1)];
        var version := AppendVersion(plan.against, operation, plan.composed.value.changes, plan.composed.value.tree);
        index := Untrack(index, expected.layer);
      }
      publications := publications[operation := row];
      receipt := row.receipt;
    }

    /** Another client's whole transaction. */
    method Other(t: Transaction)
      requires C.Checked(State()) && WellFormed(t)
      modifies this
      ensures State() == AfterOther(old(State()), t) && C.Checked(State()) && Grows(old(State()), State())
    {
      hide C.Checked, Grows, Committed, Prepare, C.AdvanceIn, L.Update, L.CreateIn, AllValid;
      AfterOtherKeeps(State(), t);
      assert versions != [] by { CheckedFilled(State()); }
      match t
      case RememberContext(context) =>
        RememberContext(context);
      case CreateLayer(layer, version) =>
        var _ := CreateLayer(layer, version);
      case CloneLayer(layer, checkpoint) =>
        var _ := CloneLayer(layer, checkpoint);
      case UpdateLayer(operation, expected, change, provenance) =>
        var _ := UpdateLayer(operation, expected, change, provenance);
      case AdvanceWorld(operation, at, tree) =>
        var _ := AdvanceWorld(operation, at, tree);
      case PublishLayer(operation, expected, attribution, _, allowed) =>
        match Prepare(State(), operation, expected, attribution)
        case Ready(plan) =>
          if !(plan.composed.Some? && plan.composed.value.Candidate? && !allowed) {
            var _ := CommitPlan(operation, expected, attribution, plan);
          }
        case _ =>
    }

    method Others(ts: seq<Transaction>)
      requires C.Checked(State()) && forall t :: t in ts ==> WellFormed(t)
      modifies this
      ensures State() == AfterOthers(old(State()), ts) && C.Checked(State()) && Grows(old(State()), State())
    {
      hide C.Checked, Grows, AfterOther, WellFormed;
      GrowsSame(State());
      for i := 0 to |ts|
        invariant State() == AfterOthers(old(State()), ts[..i]) && C.Checked(State()) && Grows(old(State()), State())
      {
        ghost var before := State();
        assert ts[i] in ts;
        Other(ts[i]);
        GrowsOn(old(State()), before, State());
        assert ts[..i + 1][..i] == ts[..i];
      }
      assert ts[..|ts|] == ts;
    }

    /**
     Publishes a Layer while others write between each plan and its recheck: `others[n]` runs during
     the n-th attempt. Whatever runs, it takes effect as one atomic publish in the state the others'
     rounds so far lead to, after exactly the attempts whose recheck those rounds made fail.
     */
    method PublishLayer(operation: OperationId, expected: Head, attribution: Attribution, allowed: bool,
        others: seq<seq<Transaction>>)
      returns (reply: Reply<Receipt>, ghost at: Tables, ghost failed: nat)
      requires C.Checked(State()) && forall ts :: ts in others ==> forall t :: t in ts ==> WellFormed(t)
      modifies this
      ensures Grows(old(State()), at) && C.Checked(at) && C.Checked(State())
      ensures (State(), reply) == AtomicPublish(at, operation, expected, attribution, allowed)
      ensures T.PublishLaw(at, operation, expected, attribution, allowed, State(), reply)
      ensures others == [] ==> at == old(State())
      ensures failed <= |others| && TakesEffect(old(State()), others, operation, expected, attribution, failed, at)
      ensures forall n :: 0 <= n < failed ==> Disturbed(old(State()), others, operation, expected, attribution, n)
    {
      hide C.Checked, Grows, Committed, Prepare, Rechecked, WellFormed, AfterOthers, Disturbed, AtomicPublish,
        T.PublishLaw;
      GrowsSame(State());
      ghost var first := State();
      var round := 0;
      while true
        invariant 0 <= round <= |others| && Grows(first, State()) && C.Checked(State())
        invariant State() == Rounds(first, others, round)
        invariant forall n :: 0 <= n < round ==> Disturbed(first, others, operation, expected, attribution, n)
        decreases |others| - round
      {
        failed := round;
        var prepared := Prepare(State(), operation, expected, attribution);
        if prepared.NotReady? {
          at := State();
          ReplyAtomic(at, operation, expected, attribution, allowed);
          T.AtomicLaw(at, operation, expected, attribution, allowed);
          return L.Refuse(prepared.why), at, failed;
        }
        if prepared.Replay? {
          at := State();
          ReplyAtomic(at, operation, expected, attribution, allowed);
          T.AtomicLaw(at, operation, expected, attribution, allowed);
          return L.Done(prepared.receipt), at, failed;
        }
        ghost var planned := State();
        FreshPlanPasses(planned, operation, expected, attribution);
        if round < |others| {
          assert others[round] in others;
          Others(others[round]);
          GrowsOn(first, planned, State());
        } else {
          GrowsSame(planned);
        }
        var plan := prepared.plan;
        if Rechecked(State(), operation, expected, plan) {
          at := State();
          CommitLands(planned, at, operation, expected, attribution, plan);
          ReadyAtomic(at, operation, expected, attribution, allowed, plan);
          T.AtomicLaw(at, operation, expected, attribution, allowed);
          if plan.composed.Some? && plan.composed.value.Candidate? && !allowed {
            return L.Refuse(L.GuardRefused), at, failed;
          }
          var receipt := CommitPlan(operation, expected, attribution, plan);
          return L.Done(receipt), at, failed;
        }
        assert Disturbed(first, others, operation, expected, attribution, round) by {
          RoundDisturbed(first, others, operation, expected, attribution, round, plan);
        }
        round := round + 1;
      }
    }
  }

  /** The state after the first rounds of the others' transactions. */
  ghost function Rounds(s: Tables, others: seq<seq<Transaction>>, n: nat): Tables
    requires n <= |others|
  {
    if n == 0 then s else AfterOthers(Rounds(s, others, n - 1), others[n - 1])
  }

  /** The n-th attempt planned something that its recheck, after the others' round, refused. */
  ghost predicate Disturbed(s: Tables, others: seq<seq<Transaction>>, operation: OperationId, expected: Head,
      attribution: Attribution, n: nat)
    requires n < |others|
  {
    var prepared := Prepare(Rounds(s, others, n), operation, expected, attribution);
    prepared.Ready? && !Rechecked(Rounds(s, others, n + 1), operation, expected, prepared.plan)
  }

  /**
   Where a publish takes effect after its failed attempts: at once where it prepares a reply, and
   otherwise after the others' next round, if any, when its plan passes the recheck.
   */
  ghost predicate TakesEffect(s: Tables, others: seq<seq<Transaction>>, operation: OperationId, expected: Head,
      attribution: Attribution, failed: nat, at: Tables)
    requires failed <= |others|
  {
    var prepared := Prepare(Rounds(s, others, failed), operation, expected, attribution);
    if prepared.Ready? then
      && at == Rounds(s, others, if failed < |others| then failed + 1 else failed)
      && Rechecked(at, operation, expected, prepared.plan)
    else at == Rounds(s, others, failed)
  }

  lemma {:induction false} RoundDisturbed(s: Tables, others: seq<seq<Transaction>>, operation: OperationId,
      expected: Head, attribution: Attribution, n: nat, plan: Plan)
    requires n < |others| && Prepare(Rounds(s, others, n), operation, expected, attribution) == Ready(plan)
    requires !Rechecked(Rounds(s, others, n + 1), operation, expected, plan)
    ensures Disturbed(s, others, operation, expected, attribution, n)
  {
    hide Prepare, Rechecked, Rounds;
  }

  lemma {:induction false} ReplyAtomic(s: Tables, operation: OperationId, expected: Head, attribution: Attribution,
      allowed: bool)
    ensures var prepared := Prepare(s, operation, expected, attribution);
      && (prepared.NotReady? ==>
        AtomicPublish(s, operation, expected, attribution, allowed) == (s, L.Refuse(prepared.why)))
      && (prepared.Replay? ==>
        AtomicPublish(s, operation, expected, attribution, allowed) == (s, L.Done(prepared.receipt)))
  {
    hide Prepare, Committed;
  }

  lemma {:induction false} ReadyAtomic(s: Tables, operation: OperationId, expected: Head, attribution: Attribution,
      allowed: bool, plan: Plan)
    requires Prepare(s, operation, expected, attribution) == Ready(plan)
    ensures AtomicPublish(s, operation, expected, attribution, allowed) ==
      if plan.composed.Some? && plan.composed.value.Candidate? && !allowed then (s, L.Refuse(L.GuardRefused))
      else (Committed(s, operation, expected, attribution, plan),
        L.Done(RowFor(operation, expected, attribution, plan).receipt))
  {
    hide Prepare, Committed;
  }

  method Untrack(index: Index, layer: LayerId) returns (out: Index)
    ensures out == L.Replaced(index, layer, map[])
  {
    hide L.Replaced, L.LayerRows;
    var paths := L.LayerRows(index, layer).Keys;
    out := L.DeleteRows(index, layer, paths);
    forall row
      ensures row in out <==> row in L.Replaced(index, layer, map[])
      ensures row in out ==> out[row] == L.Replaced(index, layer, map[])[row]
    {
      L.ReplacedRow(index, layer, map[], row);
      L.LayerRow(index, layer, row.0);
    }
  }

  lemma {:induction false} TreeKnown(s: Tables, n: nat)
    requires C.Checked(s) && n < |s.versions|
    ensures PrefixFree(s.versions[n].tree)
  {
    hide L.LayersChecked, L.IndexChecked, PublicationsChecked, PrefixFree;
    C.TreesPrefixFree(s, n);
  }

  lemma {:induction false} CheckedFilled(s: Tables)
    requires C.Checked(s)
    ensures s.versions != []
  {
    C.VersionsFilled(s);
  }

  lemma {:induction false} RecordedHas(s: Tables, operation: OperationId, expected: Head, checkpoint: Checkpoint,
      change: L.Change)
    requires expected.layer in s.events && s.events[expected.layer] != []
    ensures operation in L.Recorded(s, operation, expected, checkpoint, change).layerAttempts
  {
  }
}
