/**
 The client outbox (src/outbox.rs): an append-only journal of requests that wait for a node. A torn
 or damaged tail is moved aside before the next record is appended, so the journal reopens with
 exactly the records that were complete.
 */
module Outboxes {
  import opened Names
  import opened Journal

  datatype Damage = Damage(offset: nat, bytes: nat, reason: Reason)

  /** What may be opened: a journal, or the torn beginning of its header. */
  predicate Recognised(bytes: Bytes) {
    if |bytes| < |MAGIC| then bytes <= MAGIC else MAGIC <= bytes
  }

  /** The next sequence number after these entries. */
  ghost predicate IsNext(entries: Entries, n: nat) {
    && n >= 1 && (forall m :: m in entries ==> m < n)
    && (if entries == map[] then n == 1 else n - 1 in entries || n == 1)
  }

  function Pending(entries: Entries): set<nat> {
    set n | n in entries && entries[n].outcome.None?
  }

  function PendingFrom(entries: Entries, first: nat): set<nat> {
    set n | n in Pending(entries) && n >= first
  }

  /** The entries after a record is queued or acknowledged. */
  function WithQueued(entries: Entries, n: nat, kind: Kind, scope: Bytes, operation: Bytes, payload: Bytes): Entries {
    entries[n := Entry(kind, scope, operation, payload, None)]
  }

  /**
   The journal on disk up to `validLen` is the frames of `log`, which amount to `entries`; a tail beyond it is
   damage not yet moved.
   */
  ghost predicate Sound(d: Digest, file: Bytes, validLen: nat, log: Log, entries: Entries, nextSeq: nat,
      damage: Option<Damage>, repaired: bool)
  {
    && |MAGIC| <= validLen <= |file| && file[..validLen] == MAGIC + Frames(d, log)
    && ValidLog(log) && ApplyLog(log, map[]) == Some(entries)
    && nextSeq >= 1 && (forall n :: n in entries ==> n < nextSeq)
    && (if damage.Some? && !repaired then damage.value.offset == validLen && damage.value.bytes == |file| - validLen
      else |file| == validLen)
  }

  lemma {:induction false} SoundMoved(d: Digest, file: Bytes, validLen: nat, log: Log, entries: Entries, nextSeq: nat,
      damage: Option<Damage>)
    requires Sound(d, file, validLen, log, entries, nextSeq, damage, false) && damage.Some?
    ensures damage.value.offset == validLen <= |file| && damage.value.bytes == |file| - validLen
    ensures Sound(d, file[..validLen], validLen, log, entries, nextSeq, damage, true)
  {
    hide Frames, ValidLog, ApplyLog;
    assert file[..validLen][..validLen] == file[..validLen];
  }

  lemma {:induction false} SoundBounds(d: Digest, file: Bytes, validLen: nat, log: Log, entries: Entries,
      nextSeq: nat, damage: Option<Damage>, repaired: bool)
    requires Sound(d, file, validLen, log, entries, nextSeq, damage, repaired)
    ensures |MAGIC| <= validLen <= |file| && nextSeq >= 1 && forall n :: n in entries ==> n < nextSeq
  {
    hide Frames, ValidLog, ApplyLog;
  }

  lemma {:induction false} SoundExtended(d: Digest, file: Bytes, validLen: nat, log: Log, entries: Entries,
      nextSeq: nat, damage: Option<Damage>, repaired: bool, r: Record, next: Entries, later: nat, after: Bytes)
    requires Sound(d, file, validLen, log, entries, nextSeq, damage, repaired)
    requires ValidRecord(r) && ApplyRecord(r, entries) == Some(next) && later >= 1 && forall n :: n in next ==>
      n < later
    requires after == file[..validLen] + Frame(d, Body(r))
    ensures Sound(d, after, |after|, log + [r], next, later, damage, true)
    ensures damage.None? ==> Sound(d, after, |after|, log + [r], next, later, damage, repaired)
  {
    hide Frames, ValidLog, ApplyLog, Frame, Body, ApplyRecord, ValidRecord;
    Extend(d, log, r, entries, file, validLen);
    assert after[..|after|] == after;
  }

  /** What is found before `offset`, and the scan of the rest from there, make the whole scan. */
  ghost predicate ScansTo(d: Digest, whole: Bytes, offset: nat, found: Entries) {
    && |MAGIC| <= offset <= |whole|
    && var s := Scan(d, whole[offset..], found);
       Scan(d, whole[|MAGIC|..], map[]) == Scanned(s.entries, offset - |MAGIC| + s.used, s.reason)
  }

  /** The outcome of scanning a whole journal: its entries, where they end, and the damage there. */
  ghost predicate ScanIs(d: Digest, whole: Bytes, found: Entries, offset: nat, broken: Option<Damage>)
    requires |MAGIC| <= |whole|
  {
    var s := Scan(d, whole[|MAGIC|..], map[]);
    && found == s.entries && offset == |MAGIC| + s.used
    && broken == if s.reason.None? then None else Some(Damage(offset, |whole| - offset, s.reason.value))
  }

  /** Reads a journal's records from the start. */
  method ScanJournal(d: Digest, whole: Bytes) returns (found: Entries, offset: nat, broken: Option<Damage>)
    requires |MAGIC| <= |whole|
    ensures ScanIs(d, whole, found, offset, broken)
  {
    hide Scan, ScansTo, ScanIs;
    found, offset, broken := map[], |MAGIC|, None;
    assert ScansTo(d, whole, offset, found) by { ScanStart(d, whole); }
    while offset < |whole|
      invariant |MAGIC| <= offset <= |whole| && ScansTo(d, whole, offset, found)
    {
      var next, end, reason := ReadNext(d, whole, offset, found);
      if next.None? {
        broken := Some(Damage(offset, |whole| - offset, reason));
        return;
      }
      found, offset := next.value, end;
    }
    ScanDone(d, whole, found);
  }

  /** The record at `offset` and where it ends, unless it does not read or fit. */
  method ReadNext(d: Digest, whole: Bytes, offset: nat, found: Entries)
    returns (next: Option<Entries>, end: nat, reason: Reason)
    requires |MAGIC| <= offset < |whole| && ScansTo(d, whole, offset, found)
    ensures next.Some? ==> offset < end <= |whole| && ScansTo(d, whole, end, next.value)
    ensures next.None? ==> ScanIs(d, whole, found, offset, Some(Damage(offset, |whole| - offset, reason)))
  {
    hide ReadFrame, ApplyBody, Scan, ScansTo, ScanIs;
    var f := ReadFrame(d, whole[offset..]);
    next := if f.Framed? then ApplyBody(f.body, found) else None;
    ScanOn(d, whole, offset, found, f, next);
    end := if f.Framed? then offset + f.used else offset;
    reason := if f.Framed? then Malformed else f.reason;
  }

  lemma {:induction false} ScanStart(d: Digest, whole: Bytes)
    requires |MAGIC| <= |whole|
    ensures ScansTo(d, whole, |MAGIC|, map[])
  {
    hide Scan;
  }

  lemma {:induction false} ScanDone(d: Digest, whole: Bytes, found: Entries)
    requires |MAGIC| <= |whole| && ScansTo(d, whole, |whole|, found)
    ensures ScanIs(d, whole, found, |whole|, None)
  {
    hide Scan;
    assert whole[|whole|..] == [];
    ScanEnd(d, found);
  }

  /** One frame: the scan goes on behind it, or stops before it. */
  lemma {:induction false} ScanOn(d: Digest, whole: Bytes, offset: nat, found: Entries, f: Framed,
      next: Option<Entries>)
    requires |MAGIC| <= offset < |whole| && ScansTo(d, whole, offset, found) && f == ReadFrame(d, whole[offset..])
    requires next == if f.Framed? then ApplyBody(f.body, found) else None
    ensures next.Some? ==> 0 < f.used <= |whole| - offset && ScansTo(d, whole, offset + f.used, next.value)
    ensures next.None? ==>
      ScanIs(d, whole, found, offset, Some(Damage(offset, |whole| - offset, if f.Framed? then Malformed else f.reason)))
  {
    hide ReadFrame, ApplyBody, Scan;
    ScanStep(d, whole[offset..], found);
    if f.Framed? {
      assert whole[offset..][f.used..] == whole[offset + f.used..];
    }
  }

  lemma {:induction false} ScanStep(d: Digest, bytes: Bytes, entries: Entries)
    requires bytes != []
    ensures var f := ReadFrame(d, bytes);
      Scan(d, bytes, entries) ==
        if f.Bad? then Scanned(entries, 0, Some(f.reason))
        else if ApplyBody(f.body, entries).None? then Scanned(entries, 0, Some(Malformed))
        else
          var s := Scan(d, bytes[f.used..], ApplyBody(f.body, entries).value);
          Scanned(s.entries, f.used + s.used, s.reason)
  {
    hide ReadFrame, ApplyBody;
  }

  lemma {:induction false} ScanEnd(d: Digest, entries: Entries)
    ensures Scan(d, [], entries) == Scanned(entries, 0, None)
  {
  }

  /** A scanned journal is sound: what was read is the frames of one log. */
  lemma {:induction false} ScanSound(d: Digest, whole: Bytes, found: Entries, offset: nat, broken: Option<Damage>,
      after: nat)
    returns (log: Log)
    requires MAGIC <= whole && ScanIs(d, whole, found, offset, broken) && after >= 1 && forall n :: n in found ==>
      n < after
    ensures Sound(d, whole, offset, log, found, after, broken, false)
  {
    hide Scan, Frames, ValidLog, ApplyLog;
    log := ScannedLog(d, whole[|MAGIC|..], map[]);
    assert whole[..offset] == whole[..|MAGIC|] + whole[|MAGIC|..][..offset - |MAGIC|];
  }

  class Outbox {
    const digest: Digest
    /** The journal's bytes on disk, and the tails moved aside into sibling files. */
    var file: Bytes
    var saved: seq<Bytes>
    var entries: Entries
    var nextSeq: nat
    /** End of the last valid record; appends start here. */
    var validLen: nat
    var damage: Option<Damage>
    var repaired: bool
    /** The records read from the journal or appended to it. */
    ghost var log: Log

    ghost predicate Valid()
      reads this
    {
      Sound(digest, file, validLen, log, entries, nextSeq, damage, repaired)
    }

    /** Reads a recognised journal. A damaged tail is only reported. */
    constructor (d: Digest, bytes: Bytes)
      requires Recognised(bytes)
      ensures Valid() && digest == d && saved == [] && !repaired
      ensures |file| >= |MAGIC| && file == if |bytes| < |MAGIC| then MAGIC else bytes
      ensures ScanIs(d, file, entries, validLen, damage) && IsNext(entries, nextSeq)
    {
      hide ScanIs, Sound;
      var whole := if |bytes| < |MAGIC| then MAGIC else bytes;
      var found, offset, broken := ScanJournal(d, whole);
      var top := LastKey(found);
      var after := if found == map[] then 1 else top + 1;
      ghost var read := ScanSound(d, whole, found, offset, broken, after);
      digest, file, saved, entries := d, whole, [], found;
      nextSeq, validLen, damage, repaired := after, offset, broken, false;
      log := read;
    }

    /** Keeps the ignored tail in a sibling file, then truncates the journal to its last valid record. */
    method MoveDamageAside()
      requires Valid() && damage.Some? && !repaired
      modifies this`saved, this`file, this`repaired
      ensures Valid() && repaired
      ensures file == old(file)[..validLen] && saved == old(saved) + [old(file)[validLen..]]
    {
      hide Sound;
      SoundMoved(digest, file, validLen, log, entries, nextSeq, damage);
      var tail := file[damage.value.offset..damage.value.offset + damage.value.bytes];
      assert tail == file[validLen..];
      saved := saved + [tail];
      file := file[..validLen];
      repaired := true;
    }

    /** Writes one frame after the last valid record, moving a damaged tail aside first. */
    method Write(body: Bytes)
      requires Valid() && validLen <= |file|
      modifies this`saved, this`file, this`repaired, this`validLen
      ensures file == old(file)[..old(validLen)] + Frame(digest, body) && validLen == |file|
      ensures repaired == (old(repaired) || damage.Some?)
      ensures saved == old(saved) + if old(damage.Some? && !repaired) then [old(file)[old(validLen)..]] else []
    {
      hide Frame;
      if damage.Some? && !repaired {
        MoveDamageAside();
      }
      assert old(file)[..old(validLen)][..validLen] == old(file)[..old(validLen)];
      var frame := Frame(digest, body);
      file := file[..validLen] + frame;
      validLen := validLen + |frame|;
    }

    /** Appends a record that fits, and takes on the entries it leads to. */
    method AppendRecord(r: Record, next: Entries, later: nat)
      requires Valid() && ValidRecord(r) && ApplyRecord(r, entries) == Some(next) && later >= 1
        && forall n :: n in next ==> n < later
      modifies this
      ensures Valid() && |file| == validLen && (damage.Some? ==> repaired)
      ensures log == old(log) + [r] && entries == next && nextSeq == later
      ensures file == old(file)[..old(validLen)] + Frame(digest, Body(r))
    {
      hide Body, Frame, Sound, ApplyRecord, ValidRecord;
      SoundBounds(digest, file, validLen, log, entries, nextSeq, damage, repaired);
      SoundExtended(digest, file, validLen, log, entries, nextSeq, damage, repaired, r, next, later,
        file[..validLen] + Frame(digest, Body(r)));
      Write(Body(r));
      entries, nextSeq := next, later;
      log := log + [r];
    }

    /** Durably queues one record. A record without a scope or over the size limit is refused, and nothing changes. */
    method Enqueue(kind: Kind, scope: Bytes, operation: Bytes, payload: Bytes) returns (r: Option<nat>)
      requires Valid() && nextSeq < Pow256(8) && ValidOperation(operation)
      modifies this
      ensures r.Some? <==> scope != [] && |Body(Queued(old(nextSeq), kind, scope, operation, payload))| <= MAX_BODY
      ensures r.Some? ==>
        && r.value == old(nextSeq) && r.value !in old(entries) && nextSeq == old(nextSeq) + 1
        && Valid() && |file| == validLen && (damage.Some? ==> repaired)
        && log == old(log) + [Queued(r.value, kind, scope, operation, payload)]
        && entries == WithQueued(old(entries), r.value, kind, scope, operation, payload)
        && file == old(file)[..old(validLen)] + Frame(digest, Body(Queued(r.value, kind, scope, operation, payload)))
      ensures r.None? ==> Valid() && unchanged(this)
    {
      hide Body, Frame, ValidOperation, Sound, Pow256, Pending;
      SoundBounds(digest, file, validLen, log, entries, nextSeq, damage, repaired);
      if scope == [] {
        return None;
      }
      var record := Queued(nextSeq, kind, scope, operation, payload);
      if |Body(record)| > MAX_BODY {
        return None;
      }
      AppendRecord(record, entries[nextSeq := Entry(kind, scope, operation, payload, None)], nextSeq + 1);
      return Some(record.seq');
    }

    /** Records the node's reply for a pending record. */
    method Acknowledge(n: nat, outcome: Bytes) returns (ok: bool)
      requires Valid() && n in Pending(entries) && n < Pow256(8)
      modifies this
      ensures ok <==> |Body(Acked(n, outcome))| <= MAX_BODY
      ensures ok ==>
        && Valid() && |file| == validLen && (damage.Some? ==> repaired) && nextSeq == old(nextSeq)
        && log == old(log) + [Acked(n, outcome)]
        && entries == old(entries)[n := old(entries)[n].(outcome := Some(outcome))]
        && file == old(file)[..old(validLen)] + Frame(digest, Body(Acked(n, outcome)))
      ensures !ok ==> Valid() && unchanged(this)
    {
      hide Body, Frame, Sound, Pow256;
      SoundBounds(digest, file, validLen, log, entries, nextSeq, damage, repaired);
      if |Body(Acked(n, outcome))| > MAX_BODY {
        return false;
      }
      AppendRecord(Acked(n, outcome), entries[n := entries[n].(outcome := Some(outcome))], nextSeq);
      return true;
    }

    /**
     Delivers pending records in journal order until one faults, or its reply is over the size limit.
     Each reply is made durable before the next record is sent; every record from the stalled one on
     keeps waiting.
     */
    method Replay(deliver: (nat, Entry) -> Option<Bytes>) returns (delivered: seq<(nat, Bytes)>, stalled: Option<nat>)
      requires Valid() && forall n :: n in entries ==> n < Pow256(8)
      modifies this
      ensures Valid() && nextSeq == old(nextSeq)
      ensures stalled.None? ==> Delivered(deliver, old(entries), entries, {}, delivered)
      ensures stalled.Some? ==>
        && stalled.value in Pending(old(entries)) && stalled.value in entries
        && Delivered(deliver, old(entries), entries, PendingFrom(old(entries), stalled.value), delivered)
        && Stalls(deliver, stalled.value, old(entries)[stalled.value])
    {
      hide Body, Frame, Valid, Pow256, Delivered;
      delivered, stalled := [], None;
      ghost var before := entries;
      var due := Pending(entries);
      NothingDelivered(deliver, entries);
      while due != {}
        invariant Valid() && nextSeq == old(nextSeq)
        invariant Delivered(deliver, before, entries, due, delivered)
        decreases |due|
      {
        ghost var _ := FirstOf(due);
        var n :| n in due && forall m :: m in due ==> n <= m;
        DueFacts(deliver, before, entries, due, delivered, n);
        var outcome := deliver(n, entries[n]);
        if outcome.None? {
          stalled := Some(n);
          return;
        }
        ghost var now := entries;
        var ok := Acknowledge(n, outcome.value);
        if !ok {
          stalled := Some(n);
          return;
        }
        DeliveredMore(deliver, before, now, due, delivered, n, outcome.value);
        delivered := delivered + [(n, outcome.value)];
        due := due - {n};
      }
    }
  }

  /** Why a replay stops at a record: its delivery faults, or the reply is too large to record. */
  predicate Stalls(deliver: (nat, Entry) -> Option<Bytes>, n: nat, entry: Entry) {
    var reply := deliver(n, entry);
    reply.None? || |Body(Acked(n, reply.value))| > MAX_BODY
  }

  /**
   Replay so far: the replies recorded are those of the pending records before the first one still
   due, in ascending order, and every other entry is untouched.
   */
  ghost predicate Delivered(deliver: (nat, Entry) -> Option<Bytes>, before: Entries, now: Entries, due: set<nat>,
      delivered: seq<(nat, Bytes)>)
  {
    && now.Keys == before.Keys && due <= Pending(before)
    && (forall i, j :: 0 <= i < j < |delivered| ==> delivered[i].0 < delivered[j].0)
    && (forall n :: n in Pending(before) && n !in due <==> Sent(delivered, n))
    && (forall i, n :: 0 <= i < |delivered| && n in due ==> delivered[i].0 < n)
    && (forall i :: 0 <= i < |delivered| ==> RepliedTo(deliver, before, now, delivered[i].0, delivered[i].1))
    && (forall n :: n in now && (n in due || n !in Pending(before)) ==> now[n] == before[n])
  }

  predicate Sent(delivered: seq<(nat, Bytes)>, n: nat) {
    exists i :: 0 <= i < |delivered| && delivered[i].0 == n
  }

  predicate RepliedTo(deliver: (nat, Entry) -> Option<Bytes>, before: Entries, now: Entries, n: nat, outcome: Bytes) {
    n in before && n in now && deliver(n, before[n]) == Some(outcome) && now[n] == before[n].(outcome := Some(outcome))
  }

  lemma {:induction false} NothingDelivered(deliver: (nat, Entry) -> Option<Bytes>, entries: Entries)
    ensures Delivered(deliver, entries, entries, Pending(entries), [])
  {
  }

  lemma {:induction false} DueFacts(deliver: (nat, Entry) -> Option<Bytes>, before: Entries, now: Entries,
      due: set<nat>, delivered: seq<(nat, Bytes)>, n: nat)
    requires Delivered(deliver, before, now, due, delivered) && n in due && forall m :: m in due ==> n <= m
    ensures n in Pending(before) && n in Pending(now) && now[n] == before[n] && now.Keys == before.Keys
    ensures due == PendingFrom(before, n)
  {
    forall m | m in Pending(before) ensures m in due || Sent(delivered, m)
    {
    }
  }

  lemma {:induction false} DeliveredMore(deliver: (nat, Entry) -> Option<Bytes>, before: Entries, now: Entries,
      due: set<nat>, delivered: seq<(nat, Bytes)>, n: nat, outcome: Bytes)
    requires Delivered(deliver, before, now, due, delivered) && n in due && n in now && forall m :: m in due ==> n <= m
    requires now[n] == before[n] && deliver(n, before[n]) == Some(outcome)
    ensures Delivered(deliver, before, now[n := now[n].(outcome := Some(outcome))], due - {n},
      delivered + [(n, outcome)])
  {
    var all, next := delivered + [(n, outcome)], now[n := now[n].(outcome := Some(outcome))];
    forall m ensures Sent(all, m) <==> Sent(delivered, m) || m == n
    {
      SentMore(delivered, n, outcome, m);
    }
    hide Sent, RepliedTo;
    forall i | 0 <= i < |all| ensures RepliedTo(deliver, before, next, all[i].0, all[i].1)
    {
      if i < |delivered| {
        assert RepliedTo(deliver, before, now, all[i].0, all[i].1) && all[i].0 != n;
        RepliedStays(deliver, before, now, next, all[i].0, all[i].1);
      } else {
        RepliedNow(deliver, before, next, n, outcome);
      }
    }
  }

  lemma {:induction false} SentMore(delivered: seq<(nat, Bytes)>, n: nat, outcome: Bytes, m: nat)
    ensures Sent(delivered + [(n, outcome)], m) <==> Sent(delivered, m) || m == n
  {
    var all := delivered + [(n, outcome)];
    if i :| 0 <= i < |delivered| && delivered[i].0 == m {
      assert all[i].0 == m;
    }
    assert all[|delivered|].0 == n;
  }

  lemma {:induction false} RepliedStays(deliver: (nat, Entry) -> Option<Bytes>, before: Entries, now: Entries,
      next: Entries, n: nat, outcome: Bytes)
    requires RepliedTo(deliver, before, now, n, outcome) && n in next && next[n] == now[n]
    ensures RepliedTo(deliver, before, next, n, outcome)
  {
  }

  lemma {:induction false} RepliedNow(deliver: (nat, Entry) -> Option<Bytes>, before: Entries, next: Entries, n: nat,
      outcome: Bytes)
    requires n in before && n in next && deliver(n, before[n]) == Some(outcome)
      && next[n] == before[n].(outcome := Some(outcome))
    ensures RepliedTo(deliver, before, next, n, outcome)
  {
  }

  lemma {:induction false} FirstOf(s: set<nat>) returns (first: nat)
    requires s != {}
    ensures first in s && forall n :: n in s ==> first <= n
  {
    first :| first in s;
    var rest := s - {first};
    if rest != {} {
      var other := FirstOf(rest);
      first := if other < first then other else first;
    }
    forall n | n in s ensures first <= n
    {
      assert n in rest || rest == {} || n <= n;
    }
  }

  lemma {:induction false} LastOf(s: set<nat>) returns (last: nat)
    requires s != {}
    ensures last in s && forall n :: n in s ==> n <= last
  {
    last :| last in s;
    var rest := s - {last};
    if rest != {} {
      var other := LastOf(rest);
      last := if other > last then other else last;
    }
    forall n | n in s ensures n <= last
    {
      assert n in rest || rest == {} || n <= n;
    }
  }

  /** The greatest sequence number, or zero. */
  method LastKey(entries: Entries) returns (last: nat)
    ensures entries == map[] ==> last == 0
    ensures entries != map[] ==> last in entries && forall n :: n in entries ==> n <= last
  {
    if entries == map[] {
      return 0;
    }
    ghost var _ := LastOf(entries.Keys);
    last :| last in entries.Keys && forall n :: n in entries.Keys ==> n <= last;
  }

  /** What appending a fitting record to a valid journal makes of its log. */
  lemma {:induction false} Extend(d: Digest, log: Log, r: Record, entries: Entries, file: Bytes, validLen: nat)
    requires validLen <= |file| && file[..validLen] == MAGIC + Frames(d, log) && ValidLog(log)
      && ApplyLog(log, map[]) == Some(entries)
    requires ValidRecord(r) && ApplyRecord(r, entries).Some?
    ensures ValidLog(log + [r]) && ApplyLog(log + [r], map[]) == ApplyRecord(r, entries)
    ensures file[..validLen] + Frame(d, Body(r)) == MAGIC + Frames(d, log + [r])
  {
    hide Body, Frame, ApplyRecord, ApplyLog, Frames, ValidRecord;
    ApplyMore(log, r, map[]);
    FramesMore(d, log, r);
  }

  // --------------------------------------------------------------------------------- runs

  /**
   What may happen to a journal: a record appended and confirmed to its caller, or a crash that
   leaves only the first `kept` bytes of a record's frame on disk. Opening and closing write nothing.
   */
  datatype Happening = Appended(record: Record) | Crashed(record: Record, kept: nat)

  /** The bytes on disk: a crash leaves what was durable, without a moved tail, and part of a frame. */
  function FileAfter(d: Digest, run: seq<Happening>): Bytes {
    if run == [] then MAGIC
    else
      var before, last := FileAfter(d, run[..|run| - 1]), run[|run| - 1];
      if |before| < |MAGIC| then before
      else
        var valid := before[..|MAGIC| + Scan(d, before[|MAGIC|..], map[]).used];
        var frame := Frame(d, Body(last.record));
        match last
        case Appended(_) => valid + frame
        case Crashed(_, kept) => valid + if kept < |frame| then frame[..kept] else frame
  }

  function FrameLength(r: Record): nat {
    HEADER + |Body(r)|
  }

  /** The records whose frames are whole. */
  function LogAfter(run: seq<Happening>): Log {
    if run == [] then []
    else
      var last := run[|run| - 1];
      LogAfter(run[..|run| - 1]) + if last.Crashed? && last.kept < FrameLength(last.record) then [] else [last.record]
  }

  /** What a crash left of the last frame. */
  function TailAfter(d: Digest, run: seq<Happening>): Bytes {
    if run == [] then []
    else
      var last := run[|run| - 1];
      var frame := Frame(d, Body(last.record));
      if last.Crashed? && last.kept < FrameLength(last.record) && last.kept < |frame| then frame[..last.kept] else []
  }

  /** Every record fits the entries before it, and is queued under the next number. */
  ghost predicate Fitting(run: seq<Happening>) {
    forall i :: 0 <= i < |run| ==> FitsAfter(run[i].record, LogAfter(run[..i]))
  }

  ghost predicate FitsAfter(r: Record, log: Log) {
    && ValidRecord(r) && ApplyLog(log, map[]).Some?
    && ApplyRecord(r, ApplyLog(log, map[]).value).Some?
    && (r.Queued? ==> IsNext(ApplyLog(log, map[]).value, r.seq'))
  }

  lemma {:induction false} LogApplies(run: seq<Happening>)
    requires Fitting(run)
    ensures ValidLog(LogAfter(run)) && ApplyLog(LogAfter(run), map[]).Some?
  {
    hide Body, ApplyRecord, ValidRecord, ApplyLog;
    if run == [] {
      assert ApplyLog([], map[]) == Some(map[]) by { NothingApplied(); }
    } else {
      var front, last := run[..|run| - 1], run[|run| - 1];
      FittingFront(run);
      LogApplies(front);
      ApplyMore(LogAfter(front), last.record, map[]);
      assert LogAfter(front) + [] == LogAfter(front);
    }
  }

  lemma {:induction false} FittingFront(run: seq<Happening>)
    requires Fitting(run) && run != []
    ensures Fitting(run[..|run| - 1]) && FitsAfter(run[|run| - 1].record, LogAfter(run[..|run| - 1]))
  {
    hide FitsAfter, LogAfter;
    var front := run[..|run| - 1];
    forall i | 0 <= i < |front| ensures FitsAfter(front[i].record, LogAfter(front[..i]))
    {
      assert front[..i] == run[..i];
    }
  }

  /**
   Recovery: after every run of appends and crashes, the disk holds the whole frames followed by at
   most one torn frame, and opening it reads exactly the whole records.
   */
  lemma {:induction false} RecoversExactly(d: Digest, run: seq<Happening>)
    requires Fitting(run)
    ensures FileAfter(d, run) == MAGIC + Frames(d, LogAfter(run)) + TailAfter(d, run)
    ensures ApplyLog(LogAfter(run), map[]).Some?
    ensures Scan(d, FileAfter(d, run)[|MAGIC|..], map[]) ==
      Scanned(ApplyLog(LogAfter(run), map[]).value, |Frames(d, LogAfter(run))|, if TailAfter(d, run) == [] then None
        else Some(Torn))
  {
    hide Body, Frame, Scan, Frames, ApplyRecord, ApplyLog, ValidRecord, ReadFrame, Fitting, LogAfter, TailAfter,
      FileAfter;
    LogApplies(run);
    if run == [] {
      EmptyRun(d);
    } else {
      var front := run[..|run| - 1];
      FittingFront(run);
      RecoversExactly(d, front);
      BodyFits(run[|run| - 1].record, LogAfter(front));
      FileGrows(d, run);
    }
    AfterMagic(Frames(d, LogAfter(run)), TailAfter(d, run));
    ScanLog(d, LogAfter(run), TailAfter(d, run), map[]);
    TailScanned(d, run, ApplyLog(LogAfter(run), map[]).value);
  }

  lemma {:induction false} AfterMagic(frames: Bytes, tail: Bytes)
    ensures (MAGIC + frames + tail)[|MAGIC|..] == frames + tail
  {
  }

  lemma {:induction false} NothingApplied()
    ensures ApplyLog([], map[]) == Some(map[])
  {
  }

  lemma {:induction false} EmptyRun(d: Digest)
    ensures FileAfter(d, []) == MAGIC + Frames(d, LogAfter([])) + TailAfter(d, [])
  {
  }

  /** One more append or crash after a journal whose whole frames are known. */
  lemma {:induction false} FileGrows(d: Digest, run: seq<Happening>)
    requires run != [] && |Body(run[|run| - 1].record)| <= MAX_BODY
    requires var front := run[..|run| - 1];
      && FileAfter(d, front) == MAGIC + Frames(d, LogAfter(front)) + TailAfter(d, front)
      && Scan(d, FileAfter(d, front)[|MAGIC|..], map[]).used == |Frames(d, LogAfter(front))|
    ensures FileAfter(d, run) == MAGIC + Frames(d, LogAfter(run)) + TailAfter(d, run)
  {
    hide Body, Frame, Scan, Frames, FileAfter, LogAfter, TailAfter;
    var front, last := run[..|run| - 1], run[|run| - 1];
    var log := LogAfter(front);
    FramesMore(d, log, last.record);
    FrameReads(d, Body(last.record), []);
    LastStep(d, run);
    WholeFrames(Frames(d, log), TailAfter(d, front), Frame(d, Body(last.record)));
  }

  lemma {:induction false} WholeFrames(frames: Bytes, tail: Bytes, frame: Bytes)
    ensures (MAGIC + frames + tail)[..|MAGIC| + |frames|] == MAGIC + frames
    ensures (MAGIC + frames) + frame == MAGIC + (frames + frame) + []
  {
  }

  /** What the last thing that happened adds to the file, the log and the tail. */
  lemma {:induction false} LastStep(d: Digest, run: seq<Happening>)
    requires run != [] && |FileAfter(d, run[..|run| - 1])| >= |MAGIC|
    requires |Frame(d, Body(run[|run| - 1].record))| == FrameLength(run[|run| - 1].record)
    ensures var front, last := run[..|run| - 1], run[|run| - 1];
      var before, frame := FileAfter(d, front), Frame(d, Body(last.record));
      var valid := before[..|MAGIC| + Scan(d, before[|MAGIC|..], map[]).used];
      var torn := last.Crashed? && last.kept < |frame|;
      && FileAfter(d, run) == valid + (if torn then frame[..last.kept] else frame)
      && LogAfter(run) == (if torn then LogAfter(front) else LogAfter(front) + [last.record])
      && TailAfter(d, run) == (if torn then frame[..last.kept] else [])
  {
    hide Body, Frame, Scan;
    assert LogAfter(run[..|run| - 1]) + [] == LogAfter(run[..|run| - 1]);
  }

  lemma {:induction false} BodyFits(r: Record, log: Log)
    requires FitsAfter(r, log)
    ensures |Body(r)| <= MAX_BODY
  {
    hide Body, ApplyRecord, ApplyLog;
  }

  lemma {:induction false} TailScanned(d: Digest, run: seq<Happening>, entries: Entries)
    requires Fitting(run)
    ensures Scan(d, TailAfter(d, run), entries) ==
      Scanned(entries, 0, if TailAfter(d, run) == [] then None else Some(Torn))
  {
    hide Body, Frame, ReadFrame;
    if TailAfter(d, run) != [] {
      var last := run[|run| - 1];
      FittingFront(run);
      BodyFits(last.record, LogAfter(run[..|run| - 1]));
      TornFrame(d, Body(last.record), last.kept);
    }
  }

  /** The records confirmed to their callers. */
  function Confirmed(run: seq<Happening>): set<Record> {
    set h | h in run && h.Appended? :: h.record
  }

  /** No confirmed record is ever lost. */
  lemma {:induction false} ConfirmedKept(run: seq<Happening>, r: Record)
    requires r in Confirmed(run)
    ensures r in LogAfter(run)
  {
    hide Body;
    var h :| h in run && h.Appended? && h.record == r;
    var front, last := run[..|run| - 1], run[|run| - 1];
    if h in front {
      ConfirmedKept(front, r);
    } else {
      assert run == front + [last];
      assert LogAfter(run) == LogAfter(front) + [r];
    }
  }

  ghost predicate Rising(log: Log) {
    forall i, j :: 0 <= i < j < |log| && log[i].Queued? && log[j].Queued? ==> log[i].seq' < log[j].seq'
  }

  /** The numbers of queued records only rise, through every crash and reopening. */
  lemma {:induction false} NumbersRise(run: seq<Happening>)
    requires Fitting(run)
    ensures Rising(LogAfter(run))
  {
    hide Body, ValidRecord;
    if run != [] {
      var front, last := run[..|run| - 1], run[|run| - 1];
      FittingFront(run);
      NumbersRise(front);
      var log := LogAfter(front);
      forall i | 0 <= i < |log| && log[i].Queued? ensures last.record.Queued? ==> log[i].seq' < last.record.seq'
      {
        QueuedKnown(log, map[], i);
      }
    }
  }

  /** A queued record's number is among the entries from then on. */
  lemma {:induction false} QueuedKnown(log: Log, entries: Entries, i: nat)
    requires ApplyLog(log, entries).Some? && i < |log| && log[i].Queued?
    ensures log[i].seq' in ApplyLog(log, entries).value
  {
    var next := ApplyRecord(log[0], entries).value;
    if i == 0 {
      KeysKept(log[1..], next, log[0].seq');
    } else {
      QueuedKnown(log[1..], next, i - 1);
    }
  }

  lemma {:induction false} KeysKept(log: Log, entries: Entries, n: nat)
    requires ApplyLog(log, entries).Some? && n in entries
    ensures n in ApplyLog(log, entries).value
  {
    if log != [] {
      KeysKept(log[1..], ApplyRecord(log[0], entries).value, n);
    }
  }

  // ------------------------------------------------------------------------------ reopening

  /** A journal without damage, or repaired by an append, reopens undamaged with the same entries. */
  lemma {:induction false} SoundReopens(d: Digest, file: Bytes, log: Log, entries: Entries, nextSeq: nat,
      damage: Option<Damage>, repaired: bool)
    requires Sound(d, file, |file|, log, entries, nextSeq, damage, repaired)
    ensures ScanIs(d, file, entries, |file|, None)
  {
    hide Frames, ValidLog, Scan;
    assert file == file[..|file|];
    WholeLog(Frames(d, log));
    ScanLog(d, log, [], map[]);
    ScanEnd(d, entries);
  }

  lemma {:induction false} WholeLog(frames: Bytes)
    ensures (MAGIC + frames)[|MAGIC|..] == frames + []
  {
  }

  /** The class's file is the run model's file, and its valid part is what a scan of it reads. */
  ghost predicate Tracks(d: Digest, run: seq<Happening>, file: Bytes, validLen: nat) {
    |file| >= |MAGIC| && file == FileAfter(d, run) && validLen == |MAGIC| + Scan(d, file[|MAGIC|..], map[]).used
  }

  lemma {:induction false} AppendTracks(d: Digest, run: seq<Happening>, file: Bytes, validLen: nat, r: Record,
      after: Bytes, entries: Entries)
    requires Tracks(d, run, file, validLen) && validLen <= |file| && after == file[..validLen] + Frame(d, Body(r))
    requires ScanIs(d, after, entries, |after|, None)
    ensures Tracks(d, run + [Appended(r)], after, |after|)
  {
    hide Frame, Body, Scan;
    assert (run + [Appended(r)])[..|run + [Appended(r)]| - 1] == run;
  }

  lemma {:induction false} CrashTracks(d: Digest, run: seq<Happening>, file: Bytes, validLen: nat, r: Record, kept: nat)
    requires Tracks(d, run, file, validLen) && validLen <= |file|
    ensures var frame := Frame(d, Body(r));
      FileAfter(d, run + [Crashed(r, kept)]) == file[..validLen] + if kept < |frame| then frame[..kept] else frame
  {
    hide Frame, Body, Scan;
    assert (run + [Crashed(r, kept)])[..|run + [Crashed(r, kept)]| - 1] == run;
  }

  lemma {:induction false} ScanTracks(d: Digest, run: seq<Happening>, file: Bytes, entries: Entries, validLen: nat,
      broken: Option<Damage>)
    requires |file| >= |MAGIC| && file == FileAfter(d, run) && ScanIs(d, file, entries, validLen, broken)
    ensures Tracks(d, run, file, validLen)
  {
    hide Scan;
  }

  /** The next number is one number. */
  lemma {:induction false} NextOne(entries: Entries, m: nat, n: nat)
    requires IsNext(entries, m) && IsNext(entries, n)
    ensures m == n
  {
  }

  lemma {:induction false} NextQueued(entries: Entries, n: nat, entry: Entry)
    requires IsNext(entries, n)
    ensures IsNext(entries[n := entry], n + 1)
  {
    assert n in entries[n := entry];
  }

  lemma {:induction false} NextAcked(entries: Entries, n: nat, m: nat, entry: Entry)
    requires IsNext(entries, n) && m in entries
    ensures IsNext(entries[m := entry], n)
  {
  }

  /** Makes one fitting record durable, as its caller does: queued under the next number, or acknowledged. */
  method Perform(box: Outbox, r: Record)
    requires box.Valid() && ValidRecord(r) && ApplyRecord(r, box.entries).Some? && IsNext(box.entries, box.nextSeq)
    requires r.Queued? ==> IsNext(box.entries, r.seq')
    modifies box
    ensures box.Valid() && |box.file| == box.validLen
    ensures Some(box.entries) == ApplyRecord(r, old(box.entries)) && IsNext(box.entries, box.nextSeq)
    ensures box.file == old(box.file)[..old(box.validLen)] + Frame(box.digest, Body(r))
  {
    hide Body, Frame, Sound, Pow256, ValidOperation, IsNext;
    ghost var before := box.entries;
    match r
    case Queued(n, kind, scope, operation, payload) =>
      NextOne(box.entries, box.nextSeq, n);
      var got := box.Enqueue(kind, scope, operation, payload);
      NextQueued(before, n, Entry(kind, scope, operation, payload, None));
    case Acked(n, outcome) =>
      var ok := box.Acknowledge(n, outcome);
      NextAcked(before, box.nextSeq, n, before[n].(outcome := Some(outcome)));
  }

  /**
   An outbox that lives through a run of appends and crashes, reopened after each crash: its file is the
   run's file, and its entries are those of the whole records.
   */
  method Survive(d: Digest, run: seq<Happening>) returns (box: Outbox)
    requires Fitting(run)
    ensures fresh(box) && box.Valid() && box.digest == d
    ensures box.file == FileAfter(d, run) && Some(box.entries) == ApplyLog(LogAfter(run), map[])
  {
    hide Body, Frame, Sound, Tracks, ScanIs, ApplyLog, LogAfter, FileAfter, FitsAfter, IsNext, Fitting, ApplyRecord,
      ValidRecord;
    box := new Outbox(d, []);
    Begins(d, box.file, box.entries, box.validLen, box.damage);
    assert run[..0] == [];
    for i := 0 to |run|
      invariant fresh(box) && box.Valid() && box.digest == d && IsNext(box.entries, box.nextSeq)
      invariant Tracks(d, run[..i], box.file, box.validLen) && Some(box.entries) == ApplyLog(LogAfter(run[..i]), map[])
    {
      var r := run[i].record;
      assert run[..i + 1] == run[..i] + [run[i]];
      FitsNow(run, i);
      SoundBounds(d, box.file, box.validLen, box.log, box.entries, box.nextSeq, box.damage, box.repaired);
      ghost var before, len := box.file, box.validLen;
      if run[i].Appended? {
        Perform(box, r);
        SoundReopens(d, box.file, box.log, box.entries, box.nextSeq, box.damage, box.repaired);
        AppendTracks(d, run[..i], before, len, r, box.file, box.entries);
        TracksEntries(d, run[..i + 1], box.file, box.entries, box.validLen, None);
      } else {
        var frame := Frame(d, Body(r));
        var kept := run[i].kept;
        var disk := box.file[..box.validLen] + if kept < |frame| then frame[..kept] else frame;
        CrashTracks(d, run[..i], before, len, r, kept);
        StillRecognised(d, disk, before, len, box.log, box.entries, box.nextSeq, box.damage, box.repaired);
        box := new Outbox(d, disk);
        ScanTracks(d, run[..i + 1], box.file, box.entries, box.validLen, box.damage);
        TracksEntries(d, run[..i + 1], box.file, box.entries, box.validLen, box.damage);
      }
    }
    assert run[..|run|] == run;
    TracksFile(d, run, box.file, box.validLen);
  }

  lemma {:induction false} TracksFile(d: Digest, run: seq<Happening>, file: Bytes, validLen: nat)
    requires Tracks(d, run, file, validLen)
    ensures file == FileAfter(d, run)
  {
    hide FileAfter, Scan;
  }

  lemma {:induction false} StillRecognised(d: Digest, disk: Bytes, file: Bytes, validLen: nat, log: Log,
      entries: Entries, nextSeq: nat, damage: Option<Damage>, repaired: bool)
    requires Sound(d, file, validLen, log, entries, nextSeq, damage, repaired) && file[..validLen] <= disk
    ensures Recognised(disk) && |disk| >= |MAGIC|
  {
    hide Frames, ValidLog, ApplyLog;
    assert file[..validLen] == disk[..validLen];
    assert MAGIC == disk[..|MAGIC|];
  }

  lemma {:induction false} Begins(d: Digest, file: Bytes, entries: Entries, validLen: nat, broken: Option<Damage>)
    requires file == MAGIC && ScanIs(d, file, entries, validLen, broken)
    ensures Tracks(d, [], file, validLen) && Some(entries) == ApplyLog(LogAfter([]), map[])
  {
    hide ReadFrame;
    assert MAGIC[|MAGIC|..] == [];
    ScanEnd(d, map[]);
  }

  lemma {:induction false} FitsNow(run: seq<Happening>, i: nat)
    requires Fitting(run) && i < |run|
    ensures Fitting(run[..i + 1])
    ensures var r, entries := run[i].record, ApplyLog(LogAfter(run[..i]), map[]);
      ValidRecord(r) && entries.Some? && ApplyRecord(r, entries.value).Some?
        && (r.Queued? ==> IsNext(entries.value, r.seq'))
  {
    hide ApplyLog, LogAfter, ValidRecord, ApplyRecord, IsNext;
    var front := run[..i + 1];
    forall j | 0 <= j < |front| ensures FitsAfter(front[j].record, LogAfter(front[..j]))
    {
      assert front[..j] == run[..j];
      assert FitsAfter(run[j].record, LogAfter(run[..j]));
    }
    assert FitsAfter(run[i].record, LogAfter(run[..i]));
  }

  /** Opening the run's file reads the whole records. */
  lemma {:induction false} TracksEntries(d: Digest, run: seq<Happening>, file: Bytes, entries: Entries, validLen: nat,
      broken: Option<Damage>)
    requires Fitting(run) && Tracks(d, run, file, validLen) && ScanIs(d, file, entries, validLen, broken)
    ensures Some(entries) == ApplyLog(LogAfter(run), map[])
  {
    hide FileAfter, LogAfter, ApplyLog, Fitting;
    RecoversExactly(d, run);
  }
}
