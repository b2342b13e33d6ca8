/**
 Layers: creating, cloning and updating them (src/layer.rs, src/stack.rs), and the index of their
 changed paths that every update maintains (src/radar.rs).
 */
module Layers {
  import opened Names
  import opened Chunks
  import opened Directories
  import opened Apply
  import opened Domain
  import opened Records

  datatype Reason = InvalidHead | LayerPublished | InvalidInput | OperationIdReused | MissingVersion
    | MissingAgentTrace | Corrupt | GuardRefused
  datatype Reply<+T> = Done(value: T) | Refuse(why: Reason)
  datatype LayerUpdate = Applied(state: LayerState) | Stale(state: LayerState)

  // -------------------------------------------------------------------------- the path index

  /** One Layer's indexed changes. */
  function LayerRows(index: Index, layer: LayerId): map<Path, Tracked> {
    map row | row in index && row.1 == layer :: row.0 := index[row]
  }

  /** A head's changes: an entry that is unchanged keeps the checkpoint that set it. */
  function Refreshed(before: map<Path, Tracked>, head: Checkpoint): map<Path, Tracked> {
    map p | p in head.changes ::
      if p in before && before[p].entry == head.changes[p] then before[p]
        else Tracked(head.changes[p], head, head.provenance)
  }

  /** The rebuild: each path's attribution folded over a Layer's whole history. */
  function Attributed(events: seq<Event>): map<Path, Tracked> {
    if events == [] then map[] else Refreshed(Attributed(events[..|events| - 1]), events[|events| - 1].checkpoint)
  }

  /** An event whose changes set `p` to `entry`. */
  predicate Sets(event: Event, p: Path, entry: Option<FileEntry>) {
    p in event.checkpoint.changes && event.checkpoint.changes[p] == entry
  }

  /** Event `r` starts the unbroken run of events, up to the last, that set `p` to `entry`. */
  predicate StartsRun(events: seq<Event>, r: nat, p: Path, entry: Option<FileEntry>)
    requires r < |events|
  {
    (forall k :: r <= k < |events| ==> Sets(events[k], p, entry)) && (r > 0 ==> !Sets(events[r - 1], p, entry))
  }

  /** A row names the event since which its path has been set to its entry. */
  ghost predicate Traces(events: seq<Event>, p: Path, tracked: Tracked) {
    exists r: nat :: r < |events| && StartsRun(events, r, p, tracked.entry)
      && tracked.checkpoint == events[r].checkpoint && tracked.provenance == events[r].checkpoint.provenance
  }

  /** A row for each path the last event's checkpoint changes, naming the event since which it has been so set. */
  ghost predicate RowsTrace(events: seq<Event>, rows: map<Path, Tracked>) {
    && rows.Keys == (if events == [] then {} else events[|events| - 1].checkpoint.changes.Keys)
    && forall p :: p in rows ==> Traces(events, p, rows[p])
  }

  lemma {:induction false} TracesMore(events: seq<Event>, event: Event, p: Path, tracked: Tracked)
    requires Traces(events, p, tracked) && Sets(event, p, tracked.entry)
    ensures Traces(events + [event], p, tracked)
  {
    hide Sets;
    var r: nat :| r < |events| && StartsRun(events, r, p, tracked.entry)
      && tracked.checkpoint == events[r].checkpoint && tracked.provenance == events[r].checkpoint.provenance;
    assert StartsRun(events + [event], r, p, tracked.entry);
  }

  lemma {:induction false} TracesNew(events: seq<Event>, event: Event, p: Path, entry: Option<FileEntry>)
    requires Sets(event, p, entry) && (events != [] ==> !Sets(events[|events| - 1], p, entry))
    ensures Traces(events + [event], p, Tracked(entry, event.checkpoint, event.checkpoint.provenance))
  {
    hide Sets;
    assert StartsRun(events + [event], |events|, p, entry);
  }

  /** A row read from the history sets its path to the entry of the last event. */
  lemma {:induction false} TracesLast(events: seq<Event>, p: Path, tracked: Tracked)
    requires Traces(events, p, tracked)
    ensures events != [] && Sets(events[|events| - 1], p, tracked.entry)
  {
    hide Sets;
  }

  /** One more head: the rows still name the events since which their paths have been so set. */
  lemma {:induction false} RefreshedTraces(events: seq<Event>, event: Event, before: map<Path, Tracked>)
    requires RowsTrace(events, before)
    ensures RowsTrace(events + [event], Refreshed(before, event.checkpoint))
  {
    hide Traces;
    var head := event.checkpoint;
    var after := Refreshed(before, head);
    forall p | p in after ensures Traces(events + [event], p, after[p])
    {
      if p in before {
        TracesLast(events, p, before[p]);
      }
      if p in before && before[p].entry == head.changes[p] {
        TracesMore(events, event, p, before[p]);
      } else {
        TracesNew(events, event, p, head.changes[p]);
      }
    }
  }

  lemma {:induction false} AttributedTraces(events: seq<Event>)
    ensures RowsTrace(events, Attributed(events))
  {
    hide RowsTrace, Refreshed;
    if events == [] {
      assert RowsTrace([], map[]) by { NoRows(); }
    } else {
      var front := events[..|events| - 1];
      AttributedTraces(front);
      RefreshedTraces(front, events[|events| - 1], Attributed(front));
      assert front + [events[|events| - 1]] == events;
    }
  }

  lemma {:induction false} NoRows()
    ensures RowsTrace([], map[])
  {
  }

  /** A path's row is determined by the history. */
  lemma {:induction false} TracesOnce(events: seq<Event>, p: Path, one: Tracked, two: Tracked)
    requires Traces(events, p, one) && Traces(events, p, two)
    ensures one == two
  {
    TracesLast(events, p, one);
    TracesLast(events, p, two);
    hide Sets;
  }

  /** The rebuild gives the one attribution that names, for each path, the event since which it has been so set. */
  lemma {:induction false} AttributedExactly(events: seq<Event>, rows: map<Path, Tracked>)
    ensures RowsTrace(events, rows) <==> rows == Attributed(events)
  {
    hide Traces, Attributed;
    AttributedTraces(events);
    if RowsTrace(events, rows) {
      forall p | p in rows ensures rows[p] == Attributed(events)[p]
      {
        TracesOnce(events, p, rows[p], Attributed(events)[p]);
      }
    }
  }

  function Others(index: Index, layer: LayerId): Index {
    map row | row in index && row.1 != layer :: index[row]
  }

  function Mine(layer: LayerId, rows: map<Path, Tracked>): Index {
    map p | p in rows :: (p, layer) := rows[p]
  }

  /** The rows of one Layer replaced. */
  function Replaced(index: Index, layer: LayerId, rows: map<Path, Tracked>): Index {
    Others(index, layer) + Mine(layer, rows)
  }

  lemma {:induction false} ReplacedRow(index: Index, layer: LayerId, rows: map<Path, Tracked>, row: (Path, LayerId))
    ensures row in Replaced(index, layer, rows) <==> if row.1 == layer then row.0 in rows else row in index
    ensures row in Replaced(index, layer, rows) ==>
      Replaced(index, layer, rows)[row] == if row.1 == layer then rows[row.0] else index[row]
  {
    if row.1 == layer && row.0 in rows {
      assert row == (row.0, layer);
    }
  }

  lemma {:induction false} LayerRow(index: Index, layer: LayerId, p: Path)
    ensures p in LayerRows(index, layer) <==> (p, layer) in index
    ensures p in LayerRows(index, layer) ==> LayerRows(index, layer)[p] == index[(p, layer)]
  {
  }

  lemma {:induction false} ReplacedReads(index: Index, layer: LayerId, rows: map<Path, Tracked>, other: LayerId)
    ensures LayerRows(Replaced(index, layer, rows), other) == if other == layer then rows else LayerRows(index, other)
  {
    var out := Replaced(index, layer, rows);
    hide Replaced, LayerRows;
    var wanted := if other == layer then rows else LayerRows(index, other);
    forall p ensures p in LayerRows(out, other) <==> p in wanted
      ensures p in wanted ==> LayerRows(out, other)[p] == wanted[p]
    {
      ReplacedRow(index, layer, rows, (p, other));
      LayerRow(out, other, p);
      LayerRow(index, other, p);
    }
  }

  /** Deletes the rows of a Layer at some paths. */
  method DeleteRows(index: Index, layer: LayerId, paths: set<Path>) returns (out: Index)
    ensures forall row :: row in out <==> row in index && !(row.1 == layer && row.0 in paths)
    ensures forall row :: row in out ==> out[row] == index[row]
  {
    out := index;
    var rest := paths;
    while rest != {}
      invariant rest <= paths
      invariant forall row :: row in out <==> row in index && !(row.1 == layer && row.0 in paths - rest)
      invariant forall row :: row in out ==> out[row] == index[row]
      decreases |rest|
    {
      var p :| p in rest;
      out := out - {(p, layer)};
      rest := rest - {p};
    }
  }

  /** Writes a head's changed rows, and reports the paths it no longer changes. */
  method UpsertRows(index: Index, layer: LayerId, head: Checkpoint) returns (out: Index, gone: set<Path>)
    ensures gone == LayerRows(index, layer).Keys - head.changes.Keys
    ensures forall row :: row in out <==> row in index || (row.1 == layer && row.0 in head.changes)
    ensures forall row :: row in out ==>
      out[row] == if row.1 == layer && row.0 in head.changes then Refreshed(LayerRows(index, layer), head)[row.0]
        else index[row]
  {
    hide LayerRows;
    var before := LayerRows(index, layer);
    var stale := before;
    out := index;
    var rest := head.changes.Keys;
    while rest != {}
      invariant rest <= head.changes.Keys
      invariant stale.Keys == before.Keys - (head.changes.Keys - rest) && forall p :: p in stale ==>
        stale[p] == before[p]
      invariant forall row :: row in out <==> row in index || (row.1 == layer && row.0 in head.changes.Keys - rest)
      invariant forall row :: row in out ==>
        out[row] == if row.1 == layer && row.0 in head.changes.Keys - rest then Refreshed(before, head)[row.0]
          else index[row]
      decreases |rest|
    {
      var p :| p in rest;
      LayerRow(index, layer, p);
      if p !in stale || stale[p].entry != head.changes[p] {
        out := out[(p, layer) := Tracked(head.changes[p], head, head.provenance)];
      }
      stale := stale - {p};
      rest := rest - {p};
    }
    assert head.changes.Keys - rest == head.changes.Keys;
    gone := stale.Keys;
  }

  /** Sets a Layer's indexed changes to its new head's, writing only differences. */
  method TrackIn(index: Index, layer: LayerId, head: Checkpoint) returns (out: Index)
    ensures out == Replaced(index, layer, Refreshed(LayerRows(index, layer), head))
    ensures forall events: seq<Event>, event: Event ::
      RowsTrace(events, LayerRows(index, layer)) && event.checkpoint == head ==>
        RowsTrace(events + [event], LayerRows(out, layer))
  {
    hide Replaced, LayerRows, Refreshed, RowsTrace;
    ghost var rows := Refreshed(LayerRows(index, layer), head);
    assert rows.Keys == head.changes.Keys by { RefreshedPaths(LayerRows(index, layer), head); }
    var upserted, gone := UpsertRows(index, layer, head);
    out := DeleteRows(upserted, layer, gone);
    forall row
      ensures row in out <==> row in Replaced(index, layer, rows)
      ensures row in out ==> out[row] == Replaced(index, layer, rows)[row]
    {
      ReplacedRow(index, layer, rows, row);
      LayerRow(index, layer, row.0);
    }
    assert out == Replaced(index, layer, rows);
    ReplacedReads(index, layer, rows, layer);
    forall events: seq<Event>, event: Event | RowsTrace(events, LayerRows(index, layer)) && event.checkpoint == head
      ensures RowsTrace(events + [event], LayerRows(out, layer))
    {
      RefreshedTraces(events, event, LayerRows(index, layer));
    }
  }

  lemma {:induction false} RefreshedAt(before: map<Path, Tracked>, head: Checkpoint, p: Path)
    requires p in head.changes
    ensures p in Refreshed(before, head)
    ensures Refreshed(before, head)[p] ==
      if p in before && before[p].entry == head.changes[p] then before[p]
      else Tracked(head.changes[p], head, head.provenance)
  {
  }

  lemma {:induction false} AttributedNone()
    ensures Attributed([]) == map[]
  {
  }

  lemma {:induction false} RefreshedPaths(before: map<Path, Tracked>, head: Checkpoint)
    ensures Refreshed(before, head).Keys == head.changes.Keys
  {
  }

  /** The attribution after one more head. */
  method Attribute(before: map<Path, Tracked>, head: Checkpoint) returns (after: map<Path, Tracked>)
    ensures after == Refreshed(before, head)
  {
    after := map[];
    var rest := head.changes.Keys;
    RefreshedPaths(before, head);
    while rest != {}
      invariant rest <= head.changes.Keys
      invariant after.Keys == head.changes.Keys - rest
      invariant forall p :: p in after ==> after[p] == Refreshed(before, head)[p]
      decreases |rest|
    {
      hide Refreshed;
      var p :| p in rest;
      var tracked := Tracked(head.changes[p], head, head.provenance);
      if p in before && before[p].entry == head.changes[p] {
        tracked := before[p];
      }
      RefreshedAt(before, head, p);
      after := after[p := tracked];
      rest := rest - {p};
    }
  }

  /** Rebuilds one Layer's attribution from its events. */
  method AttributionIn(events: seq<Event>) returns (attribution: map<Path, Tracked>)
    ensures attribution == Attributed(events)
    ensures RowsTrace(events, attribution)
  {
    hide RowsTrace, Refreshed, Attributed;
    AttributedTraces(events);
    AttributedNone();
    attribution := map[];
    for revision := 0 to |events|
      invariant attribution == Attributed(events[..revision])
    {
      AttributedMore(events[..revision], events[revision]);
      assert events[..revision] + [events[revision]] == events[..revision + 1];
      attribution := Attribute(attribution, events[revision].checkpoint);
    }
    assert events[..|events|] == events;
  }

  // ------------------------------------------------------------------------------- creating

  function CreateIn(s: Tables, layer: LayerId, checkpoint: Checkpoint): (Tables, Reply<Head>) {
    if layer in s.events && s.events[layer] != [] then
      (s, if s.events[layer][0].checkpoint != checkpoint then Refuse(InvalidInput)
        else Done(Head(layer, 0, checkpoint)))
    else
      (s.(events := s.events[layer := [Event(checkpoint, false, None)]],
          index := Replaced(s.index, layer, Refreshed(LayerRows(s.index, layer), checkpoint))),
       Done(Head(layer, 0, checkpoint)))
  }

  /** An empty Layer on a version. */
  function Create(s: Tables, layer: LayerId, version: nat): (Tables, Reply<Head>) {
    if version >= |s.versions| then (s, Refuse(MissingVersion))
      else CreateIn(s, layer, Checkpoint(version, map[], {}, None))
  }

  /** A Layer that starts at another Layer's immutable checkpoint. */
  function Clone(s: Tables, layer: LayerId, checkpoint: Checkpoint): (Tables, Reply<Head>) {
    if !CheckpointValid(s, checkpoint) then (s, Refuse(InvalidInput)) else CreateIn(s, layer, checkpoint)
  }

  // ------------------------------------------------------------------------------- updating

  /** What an update does: a capture, a Stack of a source checkpoint, or the terminal discard. */
  datatype Change =
    | Capture(changes: Changeset)
    | Stack(changes: Changeset, source: Checkpoint, resolution: Option<nat>)
    | Discard
  {
    function Source(): Option<Checkpoint> { if Stack? then Some(source) else None }
    function Resolution(): Option<nat> { if Stack? then resolution else None }
  }

  ghost predicate Normalizable(files: Snapshot, changes: Changeset) {
    (forall p :: !DeletesDirectory(files, changes, p)) && PrefixFree(Changed(files, changes))
  }

  /** The checkpoint an update proposes, over the Layer's frozen base. */
  ghost function Proposed(s: Tables, expected: Head, change: Change, provenance: Option<nat>): Option<Checkpoint> {
    var before := expected.checkpoint;
    if change.Discard? then Some(before)
    else if !CheckpointValid(s, before) || (change.Stack? && !CheckpointValid(s, change.source)) then None
    else
      var files := s.versions[before.base].tree;
      if !Normalizable(files, change.changes) then None
      else Some(Checkpoint(before.base, Differences(files, Changed(files, change.changes)),
                           before.sources + (if change.Stack? then {change.source} else {}), provenance))
  }

  /** The recorded attempt of an update: accepted exactly when it expects the latest event. */
  function AttemptOf(expected: Head, checkpoint: Checkpoint, change: Change, latest: nat): LayerAttempt {
    LayerAttempt(expected.layer, expected.revision, checkpoint, change.Discard?, latest == expected.revision,
                 if latest == expected.revision then latest + 1 else latest, change.Source(), change.Resolution())
  }

  /** What an update writes. */
  function Recorded(s: Tables, operation: OperationId, expected: Head, checkpoint: Checkpoint, change: Change): Tables
    requires expected.layer in s.events && s.events[expected.layer] != []
  {
    var layer, events := expected.layer, s.events[expected.layer];
    var attempt := AttemptOf(expected, checkpoint, change, |events| - 1);
    var t := s.(layerAttempts := s.layerAttempts[operation := attempt]);
    if !attempt.accepted then t
    else
      t.(events := s.events[layer := events + [Event(checkpoint, change.Discard?, Some(operation))]],
         index := Replaced(s.index, layer, if change.Discard? then map[]
           else Refreshed(LayerRows(s.index, layer), checkpoint)))
  }

  /** Whether a retry repeats the recorded input. */
  predicate SameInput(attempt: LayerAttempt, expected: Head, checkpoint: Checkpoint, change: Change) {
    && attempt.layer == expected.layer && attempt.expected == expected.revision && attempt.checkpoint == checkpoint
    && attempt.discard == change.Discard? && attempt.source == change.Source()
      && attempt.resolution == change.Resolution()
  }

  ghost function Update(s: Tables, operation: OperationId, expected: Head, change: Change,
      provenance: Option<nat>): (Tables, Reply<LayerUpdate>)
  {
    if !HeadVerified(s, expected) then (s, Refuse(InvalidHead))
    else if operation !in s.layerAttempts && HasSucceeded(s, expected.layer) then (s, Refuse(LayerPublished))
    else
      var checkpoint := Proposed(s, expected, change, provenance);
      if checkpoint.None? then (s, Refuse(InvalidInput))
      else if operation in s.layerAttempts then
        (s, if !SameInput(s.layerAttempts[operation], expected, checkpoint.value, change)
          then Refuse(OperationIdReused) else OutcomeReply(s, operation))
      else
        var t := Recorded(s, operation, expected, checkpoint.value, change);
        (t, OutcomeReply(t, operation))
  }

  function OutcomeReply(s: Tables, operation: OperationId): Reply<LayerUpdate>
    requires operation in s.layerAttempts
  {
    var outcome := OutcomeOf(s, operation);
    if outcome.Some? then Done(outcome.value) else Refuse(Corrupt)
  }

  /** A recorded update read back, with every binding verified. */
  function OutcomeOf(s: Tables, operation: OperationId): Option<LayerUpdate>
    requires operation in s.layerAttempts
  {
    var a := s.layerAttempts[operation];
    if a.layer !in s.events || a.expected >= |s.events[a.layer]| || a.result >= |s.events[a.layer]| then None
    else
      var before, after := s.events[a.layer][a.expected], s.events[a.layer][a.result];
      var sources := before.checkpoint.sources + if a.source.Some? then {a.source.value} else {};
      if before.discarded || !CheckpointValid(s, a.checkpoint) || !CheckpointValid(s, before.checkpoint)
         || before.checkpoint.base != a.checkpoint.base || (a.discard && a.checkpoint != before.checkpoint)
         || (a.source.Some? && (a.discard || !CheckpointValid(s, a.source.value)))
         || a.checkpoint.sources != sources then None
      else
        var state := EventState(a.layer, a.result, after);
        if a.accepted then
          if a.result != a.expected + 1 || after.checkpoint != a.checkpoint || after.discarded != a.discard
            || after.operation != Some(operation) then None
          else Some(Applied(state))
        else if a.result <= a.expected then None
        else Some(Stale(state))
  }

  // ------------------------------------------------------------------------------- checking

  /** One Layer's event history as it is checked: contiguous, over one base, with discard last. */
  ghost predicate EventsChecked(s: Tables, layer: LayerId)
    requires layer in s.events
  {
    var events := s.events[layer];
    && events != [] && events[0].operation == None && !events[0].discarded
    && (forall r :: 0 <= r < |events| ==> EventChecked(s, layer, r))
  }

  ghost predicate EventChecked(s: Tables, layer: LayerId, r: nat)
    requires layer in s.events && r < |s.events[layer]|
  {
    var events := s.events[layer];
    && CheckpointValid(s, events[r].checkpoint) && events[r].checkpoint.base == events[0].checkpoint.base
    && (r > 0 ==>
          && !events[r - 1].discarded && (events[r].discarded ==> events[r].checkpoint == events[r - 1].checkpoint)
          && events[r].operation.Some? && events[r].operation.value in s.layerAttempts
          && OutcomeOf(s, events[r].operation.value) == Some(Applied(EventState(layer, r, events[r]))))
  }

  /** What checking every Layer demands. */
  ghost predicate LayersChecked(s: Tables) {
    && (forall layer :: layer in s.events ==> EventsChecked(s, layer))
    && (forall op :: op in s.layerAttempts ==> OutcomeOf(s, op).Some?)
  }

  /** What the path index must hold for a Layer: its attribution while it is live, and nothing otherwise. */
  ghost function Derived(s: Tables, layer: LayerId): map<Path, Tracked> {
    var state := LatestState(s, layer);
    if state.Some? && state.value.Active? && !HasSucceeded(s, layer) then Attributed(s.events[layer]) else map[]
  }

  /** What checking the path index demands. */
  ghost predicate IndexChecked(s: Tables) {
    forall layer :: LayerRows(s.index, layer) == Derived(s, layer)
  }

  // ------------------------------------------------------------------------------- stability

  lemma {:induction false} CheckpointStays(s: Tables, t: Tables, checkpoint: Checkpoint)
    requires Grows(s, t) && CheckpointValid(s, checkpoint)
    ensures CheckpointValid(t, checkpoint)
  {
    hide Normalized;
    VersionStays(s, t, checkpoint.base);
  }

  /** A recorded update keeps its outcome forever. */
  lemma {:induction false} OutcomeStays(s: Tables, t: Tables, operation: OperationId)
    requires Grows(s, t) && operation in s.layerAttempts && OutcomeOf(s, operation).Some?
    ensures operation in t.layerAttempts && OutcomeOf(t, operation) == OutcomeOf(s, operation)
  {
    hide Normalized, HasSucceeded;
    var a := s.layerAttempts[operation];
    var es, et := s.events[a.layer], t.events[a.layer];
    assert es <= et;
    assert et[a.expected] == es[a.expected] && et[a.result] == es[a.result];
    CheckpointStays(s, t, a.checkpoint);
    CheckpointStays(s, t, es[a.expected].checkpoint);
    if a.source.Some? {
      CheckpointStays(s, t, a.source.value);
    }
  }

  lemma {:induction false} EventStays(s: Tables, t: Tables, layer: LayerId, r: nat)
    requires Grows(s, t) && layer in s.events && r < |s.events[layer]| && EventChecked(s, layer, r)
    ensures EventChecked(t, layer, r)
  {
    hide CheckpointValid, HasSucceeded, OutcomeOf;
    var es, et := s.events[layer], t.events[layer];
    assert es <= et;
    assert et[r] == es[r] && et[0] == es[0] && (r > 0 ==> et[r - 1] == es[r - 1]);
    CheckpointStays(s, t, es[r].checkpoint);
    if r > 0 {
      OutcomeStays(s, t, es[r].operation.value);
    }
  }

  /** Steps that add no event or update keep the Layers checked. */
  lemma {:induction false} LayersStay(s: Tables, t: Tables)
    requires Grows(s, t) && LayersChecked(s) && t.events == s.events && t.layerAttempts == s.layerAttempts
    ensures LayersChecked(t)
  {
    hide EventChecked, OutcomeOf, HasSucceeded;
    forall layer, r | layer in t.events && 0 <= r < |t.events[layer]| ensures EventChecked(t, layer, r)
    {
      EventStays(s, t, layer, r);
    }
    forall op | op in t.layerAttempts ensures OutcomeOf(t, op).Some?
    {
      OutcomeStays(s, t, op);
    }
  }

  // -------------------------------------------------------------------------- creating keeps

  lemma {:induction false} CreatedGrows(s: Tables, layer: LayerId, checkpoint: Checkpoint)
    requires LayersChecked(s)
    ensures Grows(s, CreateIn(s, layer, checkpoint).0)
  {
    hide EventChecked, OutcomeOf, HasSucceeded, Replaced, Refreshed, LayerRows;
    if layer in s.events {
      assert EventsChecked(s, layer);
    }
  }

  lemma {:induction false} CreatedChecked(s: Tables, layer: LayerId, checkpoint: Checkpoint)
    requires LayersChecked(s) && CheckpointValid(s, checkpoint)
    ensures LayersChecked(CreateIn(s, layer, checkpoint).0)
  {
    hide EventChecked, OutcomeOf, HasSucceeded, Replaced, Refreshed, LayerRows, CheckpointValid;
    var t := CreateIn(s, layer, checkpoint).0;
    CreatedGrows(s, layer, checkpoint);
    CheckpointStays(s, t, checkpoint);
    forall op | op in t.layerAttempts ensures OutcomeOf(t, op).Some?
    {
      OutcomeStays(s, t, op);
    }
    assert layer in s.events ==> s.events[layer] != [] by {
      assert layer in s.events ==> EventsChecked(s, layer);
    }
    forall l, r | l in t.events && 0 <= r < |t.events[l]| ensures EventChecked(t, l, r)
    {
      if l in s.events {
        assert EventsChecked(s, l);
        EventStays(s, t, l, r);
      } else {
        FirstChecked(t, l, checkpoint);
      }
    }
    forall l | l in t.events ensures EventsChecked(t, l)
    {
      assert l in s.events ==> EventsChecked(s, l);
    }
  }

  lemma {:induction false} FirstChecked(t: Tables, layer: LayerId, checkpoint: Checkpoint)
    requires layer in t.events && t.events[layer] == [Event(checkpoint, false, None)] && CheckpointValid(t, checkpoint)
    ensures EventChecked(t, layer, 0)
  {
  }

  lemma {:induction false} AttributedFirst(checkpoint: Checkpoint, event: Event)
    requires event.checkpoint == checkpoint
    ensures Attributed([event]) == Refreshed(map[], checkpoint)
  {
    assert [event][..0] == [];
  }

  lemma {:induction false} AttributedMore(events: seq<Event>, event: Event)
    ensures Attributed(events + [event]) == Refreshed(Attributed(events), event.checkpoint)
  {
    assert (events + [event])[..|events|] == events;
  }

  lemma {:induction false} SamePublications(s: Tables, t: Tables, layer: LayerId)
    requires t.publications == s.publications
    ensures HasSucceeded(t, layer) == HasSucceeded(s, layer)
  {
    assert forall op :: op in s.publications ==> Succeeded(t, layer, op) == Succeeded(s, layer, op);
  }

  lemma {:induction false} CreatedIndexed(s: Tables, layer: LayerId, checkpoint: Checkpoint)
    requires LayersChecked(s) && IndexChecked(s)
    requires HasSucceeded(s, layer) ==> layer in s.events
    ensures IndexChecked(CreateIn(s, layer, checkpoint).0)
  {
    hide EventChecked, OutcomeOf, HasSucceeded, Replaced, Refreshed, LayerRows, Attributed;
    var t := CreateIn(s, layer, checkpoint).0;
    forall l ensures LayerRows(t.index, l) == Derived(t, l)
    {
      assert LayerRows(s.index, l) == Derived(s, l);
      SamePublications(s, t, l);
      assert layer in s.events ==> EventsChecked(s, layer);
      if layer !in s.events {
        ReplacedReads(s.index, layer, Refreshed(LayerRows(s.index, layer), checkpoint), l);
      }
      if l == layer && layer !in s.events {
        AttributedFirst(checkpoint, Event(checkpoint, false, None));
      }
    }
  }

  // -------------------------------------------------------------------------- updating keeps

  /** What an update that writes relies on. */
  ghost predicate Writes(s: Tables, operation: OperationId, expected: Head, checkpoint: Checkpoint, change: Change) {
    && HeadVerified(s, expected) && operation !in s.layerAttempts && !HasSucceeded(s, expected.layer)
    && CheckpointValid(s, checkpoint) && checkpoint.base == expected.checkpoint.base
    && checkpoint.sources == expected.checkpoint.sources + (if change.Stack? then {change.source} else {})
    && (change.Stack? ==> CheckpointValid(s, change.source))
    && (change.Discard? ==> checkpoint == expected.checkpoint)
  }

  lemma {:induction false} ProposedWrites(s: Tables, operation: OperationId, expected: Head, change: Change,
      provenance: Option<nat>)
    requires LayersChecked(s) && HeadVerified(s, expected) && operation !in s.layerAttempts
      && !HasSucceeded(s, expected.layer)
    requires Proposed(s, expected, change, provenance).Some?
    ensures Writes(s, operation, expected, Proposed(s, expected, change, provenance).value, change)
  {
    hide OutcomeOf, HasSucceeded, Differences, Changed, DeletesDirectory, Normalized;
    assert EventsChecked(s, expected.layer);
    assert EventChecked(s, expected.layer, expected.revision);
    if !change.Discard? {
      var files := s.versions[expected.checkpoint.base].tree;
      DifferenceNormalized(files, change.changes);
      assert expected.checkpoint.sources + {} == expected.checkpoint.sources;
    }
  }

  lemma {:induction false} RecordedGrows(s: Tables, operation: OperationId, expected: Head, checkpoint: Checkpoint,
      change: Change)
    requires Writes(s, operation, expected, checkpoint, change)
    ensures Grows(s, Recorded(s, operation, expected, checkpoint, change))
  {
    hide CheckpointValid, HasSucceeded, Recorded, AttemptOf;
    var events := RecordedReads(s, operation, expected, checkpoint, change);
    assert s.events[expected.layer] <= events;
  }

  /** What an update writes besides the path index. */
  lemma {:induction false} RecordedReads(s: Tables, operation: OperationId, expected: Head, checkpoint: Checkpoint,
      change: Change) returns (events: seq<Event>)
    requires expected.layer in s.events && s.events[expected.layer] != []
    ensures var t, before := Recorded(s, operation, expected, checkpoint, change), s.events[expected.layer];
      var attempt := AttemptOf(expected, checkpoint, change, |before| - 1);
      && events == before + (if attempt.accepted then [Event(checkpoint, change.Discard?, Some(operation))] else [])
      && t == s.(layerAttempts := s.layerAttempts[operation := attempt],
        events := s.events[expected.layer := events], index := t.index)
  {
    hide Replaced, Refreshed;
    var before := s.events[expected.layer];
    events := before + (if |before| - 1 == expected.revision
      then [Event(checkpoint, change.Discard?, Some(operation))] else []);
    assert before + [] == before;
    assert s.events[expected.layer := before] == s.events;
  }

  /** A new attempt reads back. */
  lemma {:induction false} RecordedOutcome(s: Tables, operation: OperationId, expected: Head, checkpoint: Checkpoint,
      change: Change)
    requires Writes(s, operation, expected, checkpoint, change) && LayersChecked(s)
    ensures var t := Recorded(s, operation, expected, checkpoint, change);
      var latest := |s.events[expected.layer]| - 1;
      OutcomeOf(t, operation) == Some(
        if latest == expected.revision
          then Applied(EventState(expected.layer, latest + 1, Event(checkpoint, change.Discard?, Some(operation))))
        else Stale(EventState(expected.layer, latest, s.events[expected.layer][latest])))
  {
    hide HasSucceeded, CheckpointValid, Recorded, Grows, LayersChecked;
    var t := Recorded(s, operation, expected, checkpoint, change);
    RecordedGrows(s, operation, expected, checkpoint, change);
    var events := RecordedReads(s, operation, expected, checkpoint, change);
    HeadChecked(s, expected);
    CheckpointStays(s, t, checkpoint);
    CheckpointStays(s, t, expected.checkpoint);
    if change.Stack? {
      CheckpointStays(s, t, change.source);
    }
    assert t.events[expected.layer] == events;
  }

  lemma {:induction false} HeadChecked(s: Tables, head: Head)
    requires LayersChecked(s) && HeadVerified(s, head)
    ensures CheckpointValid(s, head.checkpoint)
    ensures s.events[head.layer][head.revision].checkpoint == head.checkpoint
      && !s.events[head.layer][head.revision].discarded
  {
    hide OutcomeOf, CheckpointValid;
    assert EventsChecked(s, head.layer);
    assert EventChecked(s, head.layer, head.revision);
  }

  lemma {:induction false} RecordedChecked(s: Tables, operation: OperationId, expected: Head, checkpoint: Checkpoint,
      change: Change)
    requires Writes(s, operation, expected, checkpoint, change) && LayersChecked(s)
    ensures LayersChecked(Recorded(s, operation, expected, checkpoint, change))
  {
    hide EventChecked, OutcomeOf, HasSucceeded, Replaced, Refreshed, CheckpointValid;
    var t := Recorded(s, operation, expected, checkpoint, change);
    RecordedGrows(s, operation, expected, checkpoint, change);
    RecordedOutcome(s, operation, expected, checkpoint, change);
    forall op | op in t.layerAttempts ensures OutcomeOf(t, op).Some?
    {
      if op != operation {
        OutcomeStays(s, t, op);
      }
    }
    forall l | l in t.events ensures l in s.events && EventsChecked(s, l)
    {
    }
    forall l, r | l in t.events && 0 <= r < |t.events[l]| ensures EventChecked(t, l, r)
    {
      if r < |s.events[l]| {
        EventStays(s, t, l, r);
      } else {
        RecordedEvent(s, operation, expected, checkpoint, change);
      }
    }
    forall l | l in t.events ensures EventsChecked(t, l)
    {
      assert EventsChecked(s, l);
    }
  }

  lemma {:induction false} RecordedEvent(s: Tables, operation: OperationId, expected: Head, checkpoint: Checkpoint,
      change: Change)
    requires Writes(s, operation, expected, checkpoint, change) && LayersChecked(s)
    requires |s.events[expected.layer]| - 1 == expected.revision
    ensures EventChecked(Recorded(s, operation, expected, checkpoint, change), expected.layer,
      |s.events[expected.layer]|)
  {
    hide OutcomeOf, HasSucceeded, Replaced, Refreshed, CheckpointValid;
    var t := Recorded(s, operation, expected, checkpoint, change);
    RecordedGrows(s, operation, expected, checkpoint, change);
    RecordedOutcome(s, operation, expected, checkpoint, change);
    CheckpointStays(s, t, checkpoint);
    assert EventsChecked(s, expected.layer);
    assert EventChecked(s, expected.layer, expected.revision);
  }

  /** An update's writes to the path index are the ones a rebuild would make. */
  lemma {:induction false} RecordedIndexed(s: Tables, operation: OperationId, expected: Head, checkpoint: Checkpoint,
      change: Change)
    requires Writes(s, operation, expected, checkpoint, change) && IndexChecked(s)
    ensures IndexChecked(Recorded(s, operation, expected, checkpoint, change))
  {
    hide HasSucceeded, Replaced, Refreshed, CheckpointValid, LayerRows, Attributed;
    var t := Recorded(s, operation, expected, checkpoint, change);
    forall l ensures LayerRows(t.index, l) == Derived(t, l)
    {
      assert LayerRows(s.index, l) == Derived(s, l);
      SamePublications(s, t, l);
      ReplacedReads(s.index, expected.layer, if change.Discard? then map[]
        else Refreshed(LayerRows(s.index, expected.layer), checkpoint), l);
      if l == expected.layer && |s.events[l]| - 1 == expected.revision {
        AttributedMore(s.events[l], Event(checkpoint, change.Discard?, Some(operation)));
      }
    }
  }
}
