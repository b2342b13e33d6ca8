/**
 The outbox journal's format and how it is read back (src/outbox.rs): records framed by length and
 checksum, applied one after another until the bytes end or a frame does not read.
 */
module Journal {
  import opened Names

  type Bytes = seq<Byte>

  /** The journal's checksum: any function of the body with 32-byte values. */
  type Digest = d: Bytes -> Bytes | forall b :: |d(b)| == 32 witness (_ => seq(32, _ => 0))

  const MAGIC: Bytes := [74, 86, 76, 79, 85, 84, 66, 49]
  const HEADER: nat := 36
  const MAX_BODY: nat := 0x200_0000
  const QUEUED: Byte := 1
  const ACKED: Byte := 2

  datatype Kind = Upload | Append | Publish | Revise
  {
    function Tag(): Byte {
      match this case Upload => 1 case Append => 2 case Publish => 3 case Revise => 4
    }
  }

  function KindOf(tag: Byte): Option<Kind> {
    match tag
    case 1 => Some(Upload)
    case 2 => Some(Append)
    case 3 => Some(Publish)
    case 4 => Some(Revise)
    case _ => None
  }

  datatype Record =
    | Queued(seq': nat, kind: Kind, scope: Bytes, operation: Bytes, payload: Bytes)
    | Acked(seq': nat, outcome: Bytes)

  /** A queued request, with the node's reply once it is acknowledged. */
  datatype Entry = Entry(kind: Kind, scope: Bytes, operation: Bytes, payload: Bytes, outcome: Option<Bytes>)

  type Entries = map<nat, Entry>

  // ------------------------------------------------------------------------------ integers

  function Pow256(width: nat): (p: nat)
    ensures p > 0
  {
    if width == 0 then 1 else 256 * Pow256(width - 1)
  }

  /** Little-endian bytes. */
  function LittleEndian(n: nat, width: nat): (bytes: Bytes)
    ensures |bytes| == width
  {
    if width == 0 then [] else [n % 256] + LittleEndian(n / 256, width - 1)
  }

  function FromLittleEndian(bytes: Bytes): nat {
    if bytes == [] then 0 else bytes[0] + 256 * FromLittleEndian(bytes[1..])
  }

  lemma {:induction false} IntegerReads(n: nat, width: nat)
    requires n < Pow256(width)
    ensures FromLittleEndian(LittleEndian(n, width)) == n
  {
    if width > 0 {
      IntegerReads(n / 256, width - 1);
      var bytes := LittleEndian(n, width);
      assert bytes[1..] == LittleEndian(n / 256, width - 1);
    }
  }

  /** Each fixed-width byte string spells one integer. */
  lemma {:induction false} IntegerSpelled(bytes: Bytes)
    ensures FromLittleEndian(bytes) < Pow256(|bytes|) && LittleEndian(FromLittleEndian(bytes), |bytes|) == bytes
  {
    if bytes != [] {
      IntegerSpelled(bytes[1..]);
      LowDigit(bytes[0], FromLittleEndian(bytes[1..]));
      assert bytes == [bytes[0]] + bytes[1..];
    }
  }

  lemma {:induction false} LowDigit(b: Byte, rest: nat)
    ensures (b + 256 * rest) % 256 == b && (b + 256 * rest) / 256 == rest
  {
  }

  lemma {:induction false} Widths()
    ensures Pow256(1) == 0x100 && Pow256(4) == 0x1_0000_0000 && Pow256(8) == 0x1_0000_0000_0000_0000
  {
    assert Pow256(2) == 0x1_0000;
    assert Pow256(4) == 0x1_0000_0000;
    assert Pow256(6) == 0x1_0000_0000_0000;
  }

  // ------------------------------------------------------------------------------- bodies

  /** A length-prefixed field. */
  function Field(bytes: Bytes): Bytes {
    LittleEndian(|bytes|, 4) + bytes
  }

  function Body(r: Record): Bytes {
    match r
    case Queued(n, kind, scope, operation, payload) =>
      [QUEUED] + (LittleEndian(n, 8) + ([kind.Tag()] + (Field(scope) + (Field(operation) + Field(payload)))))
    case Acked(n, outcome) => [ACKED] + (LittleEndian(n, 8) + Field(outcome))
  }

  predicate OperationByte(b: Byte) {
    48 <= b <= 57 || 65 <= b <= 90 || 97 <= b <= 122 || b == 45 || b == 95 || b == 46
  }

  /** 1 to 128 ASCII letters, digits, '-', '_' or '.'. */
  predicate ValidOperation(operation: Bytes) {
    0 < |operation| <= 128 && forall b :: b in operation ==> OperationByte(b)
  }

  /** What a record may hold. */
  predicate ValidRecord(r: Record) {
    r.seq' < Pow256(8) && |Body(r)| <= MAX_BODY && (r.Queued? ==> r.scope != [] && ValidOperation(r.operation))
  }

  // What is left after reading one item off the front.
  datatype Taken<+T> = Short | Taken(item: T, rest: Bytes)

  function Take(s: Bytes, n: nat): Taken<Bytes> {
    if |s| < n then Short else Taken.Taken(s[..n], s[n..])
  }

  function TakeInteger(s: Bytes, width: nat): Taken<nat> {
    var t := Take(s, width);
    if t.Short? then Short else Taken.Taken(FromLittleEndian(t.item), t.rest)
  }

  function TakeField(s: Bytes): Taken<Bytes> {
    var length := TakeInteger(s, 4);
    if length.Short? then Short else Take(length.rest, length.item)
  }

  /** The record a body holds, when it holds exactly one. */
  function ParseRecord(body: Bytes): Option<Record> {
    var tag := Take(body, 1);
    if tag.Short? then None
    else if tag.item[0] == QUEUED then ParseQueued(tag.rest)
    else if tag.item[0] == ACKED then ParseAcked(tag.rest)
    else None
  }

  function ParseQueued(s: Bytes): Option<Record> {
    var n := TakeInteger(s, 8);
    if n.Short? then None
    else
      var kind := Take(n.rest, 1);
      if kind.Short? || KindOf(kind.item[0]).None? then None
      else
        var scope := TakeField(kind.rest);
        if scope.Short? then None
        else
          var operation := TakeField(scope.rest);
          if operation.Short? || !ValidOperation(operation.item) then None
          else
            var payload := TakeField(operation.rest);
            if payload.Short? || scope.item == [] || payload.rest != [] then None
            else Some(Queued(n.item, KindOf(kind.item[0]).value, scope.item, operation.item, payload.item))
  }

  function ParseAcked(s: Bytes): Option<Record> {
    var n := TakeInteger(s, 8);
    if n.Short? then None
    else
      var outcome := TakeField(n.rest);
      if outcome.Short? || outcome.rest != [] then None else Some(Acked(n.item, outcome.item))
  }

  lemma {:induction false} TakeReads(item: Bytes, rest: Bytes)
    ensures Take(item + rest, |item|) == Taken.Taken(item, rest)
  {
    assert (item + rest)[..|item|] == item && (item + rest)[|item|..] == rest;
  }

  lemma {:induction false} IntegerTaken(n: nat, width: nat, rest: Bytes)
    requires n < Pow256(width)
    ensures TakeInteger(LittleEndian(n, width) + rest, width) == Taken.Taken(n, rest)
  {
    TakeReads(LittleEndian(n, width), rest);
    IntegerReads(n, width);
  }

  lemma {:induction false} FieldTaken(field: Bytes, rest: Bytes)
    requires |field| < Pow256(4)
    ensures TakeField(Field(field) + rest) == Taken.Taken(field, rest)
  {
    assert Field(field) + rest == LittleEndian(|field|, 4) + (field + rest);
    IntegerTaken(|field|, 4, field + rest);
    TakeReads(field, rest);
  }

  /** Parsing a body gives its record back. */
  lemma {:induction false} BodyParses(r: Record)
    requires ValidRecord(r)
    ensures ParseRecord(Body(r)) == Some(r)
  {
    hide Pow256, LittleEndian, FromLittleEndian, TakeInteger, TakeField, Field, Take, ValidOperation;
    Widths();
    FieldSizes(r);
    match r
    case Queued(n, kind, scope, operation, payload) =>
      var last := Field(operation) + Field(payload);
      var fields := Field(scope) + last;
      TakeReads([QUEUED], LittleEndian(n, 8) + ([kind.Tag()] + fields));
      IntegerTaken(n, 8, [kind.Tag()] + fields);
      TakeReads([kind.Tag()], fields);
      FieldTaken(scope, last);
      FieldTaken(operation, Field(payload));
      FieldTaken(payload, []);
      assert Field(payload) + [] == Field(payload);
    case Acked(n, outcome) =>
      TakeReads([ACKED], LittleEndian(n, 8) + Field(outcome));
      IntegerTaken(n, 8, Field(outcome));
      FieldTaken(outcome, []);
      assert Field(outcome) + [] == Field(outcome);
  }

  lemma {:induction false} FieldSizes(r: Record)
    requires ValidRecord(r)
    ensures match r
      case Queued(_, _, scope, operation, payload) => |scope| < Pow256(4) && |operation| < Pow256(4)
        && |payload| < Pow256(4)
      case Acked(_, outcome) => |outcome| < Pow256(4)
  {
    hide Pow256;
    Widths();
  }

  lemma {:induction false} TakenSpells(s: Bytes, n: nat)
    ensures Take(s, n).Taken? ==> s == Take(s, n).item + Take(s, n).rest && |Take(s, n).item| == n
  {
  }

  lemma {:induction false} IntegerSpells(s: Bytes, width: nat)
    ensures var t := TakeInteger(s, width); t.Taken? ==>
      t.item < Pow256(width) && s == LittleEndian(t.item, width) + t.rest
  {
    hide Pow256, LittleEndian, FromLittleEndian;
    TakenSpells(s, width);
    if Take(s, width).Taken? {
      IntegerSpelled(Take(s, width).item);
    }
  }

  lemma {:induction false} FieldSpells(s: Bytes)
    ensures var t := TakeField(s); t.Taken? ==> s == Field(t.item) + t.rest
  {
    hide Pow256, LittleEndian, FromLittleEndian, Take;
    IntegerSpells(s, 4);
    var length := TakeInteger(s, 4);
    if length.Taken? {
      TakenSpells(length.rest, length.item);
      var t := Take(length.rest, length.item);
      if t.Taken? {
        assert LittleEndian(|t.item|, 4) + (t.item + t.rest) == (LittleEndian(|t.item|, 4) + t.item) + t.rest;
      }
    }
  }

  /** A body that parses is the one spelling of its record. */
  lemma {:induction false} ParsesOnce(body: Bytes)
    ensures ParseRecord(body).Some? ==>
      Body(ParseRecord(body).value) == body && ParseRecord(body).value.seq' < Pow256(8)
    ensures ParseRecord(body).Some? && ParseRecord(body).value.Queued? ==>
      ParseRecord(body).value.scope != [] && ValidOperation(ParseRecord(body).value.operation)
  {
    hide Pow256, LittleEndian, FromLittleEndian, TakeInteger, TakeField, Field, ValidOperation;
    TakenSpells(body, 1);
    var tag := Take(body, 1);
    if tag.Taken? {
      IntegerSpells(tag.rest, 8);
      var n := TakeInteger(tag.rest, 8);
      if n.Taken? && tag.item[0] == QUEUED {
        QueuedSpells(body, tag, n);
      } else if n.Taken? && tag.item[0] == ACKED {
        FieldSpells(n.rest);
        assert tag.item == [ACKED];
      }
    }
  }

  lemma {:induction false} QueuedSpells(body: Bytes, tag: Taken<Bytes>, n: Taken<nat>)
    requires tag == Take(body, 1) && tag.Taken? && body == tag.item + tag.rest && |tag.item| == 1
      && tag.item[0] == QUEUED
    requires n == TakeInteger(tag.rest, 8) && n.Taken? && tag.rest == LittleEndian(n.item, 8) + n.rest
    ensures ParseQueued(tag.rest).Some? ==>
      Body(ParseQueued(tag.rest).value) == body && ParseQueued(tag.rest).value.seq' == n.item
  {
    hide Pow256, LittleEndian, FromLittleEndian, TakeInteger, TakeField, Field, ValidOperation;
    TakenSpells(n.rest, 1);
    var kind := Take(n.rest, 1);
    if kind.Taken? && KindOf(kind.item[0]).Some? {
      FieldSpells(kind.rest);
      var scope := TakeField(kind.rest);
      if scope.Taken? {
        FieldSpells(scope.rest);
        var operation := TakeField(scope.rest);
        if operation.Taken? {
          FieldSpells(operation.rest);
          assert tag.item == [QUEUED] && kind.item == [KindOf(kind.item[0]).value.Tag()];
        }
      }
    }
  }

  // ------------------------------------------------------------------------------- frames

  datatype Reason = Torn | Malformed | Mismatch
  datatype Framed = Framed(body: Bytes, used: nat) | Bad(reason: Reason)

  function Frame(d: Digest, body: Bytes): Bytes {
    LittleEndian(|body|, 4) + d(body) + body
  }

  /** The body of the first record, and the bytes it occupies. */
  function ReadFrame(d: Digest, rest: Bytes): (f: Framed)
    ensures f.Framed? ==> HEADER <= f.used <= |rest| && f.used == HEADER + |f.body|
  {
    if |rest| < HEADER then Bad(Torn)
    else
      var length := FromLittleEndian(rest[..4]);
      if length > MAX_BODY then Bad(Malformed)
      else if |rest| < HEADER + length then Bad(Torn)
      else
        var body := rest[HEADER..HEADER + length];
        if d(body) != rest[4..HEADER] then Bad(Mismatch) else Framed(body, HEADER + length)
  }

  lemma {:induction false} FrameReads(d: Digest, body: Bytes, rest: Bytes)
    requires |body| <= MAX_BODY
    ensures ReadFrame(d, Frame(d, body) + rest) == Framed(body, HEADER + |body|) && |Frame(d, body)| == HEADER + |body|
  {
    hide LittleEndian, FromLittleEndian, Pow256;
    Widths();
    IntegerReads(|body|, 4);
    var all := Frame(d, body) + rest;
    assert all[..4] == LittleEndian(|body|, 4);
    assert all[4..HEADER] == d(body);
    assert all[HEADER..HEADER + |body|] == body;
  }

  /** A frame that reads is the one spelling of its body. */
  lemma {:induction false} FrameSpells(d: Digest, rest: Bytes)
    ensures var f := ReadFrame(d, rest); f.Framed? ==> |f.body| <= MAX_BODY && rest == Frame(d, f.body) + rest[f.used..]
  {
    hide LittleEndian, FromLittleEndian, Pow256;
    var f := ReadFrame(d, rest);
    if f.Framed? {
      IntegerSpelled(rest[..4]);
      assert LittleEndian(|f.body|, 4) == rest[..4] && d(f.body) == rest[4..HEADER] && f.body == rest[HEADER..f.used];
      FourParts(rest, 4, HEADER, f.used);
    }
  }

  lemma {:induction false} FourParts(s: Bytes, a: nat, b: nat, c: nat)
    requires a <= b <= c <= |s|
    ensures s == s[..a] + s[a..b] + s[b..c] + s[c..]
  {
  }

  /** A frame cut short never reads: its length field says how much is missing. */
  lemma {:induction false} TornFrame(d: Digest, body: Bytes, k: nat)
    requires |body| <= MAX_BODY && k < HEADER + |body|
    ensures |Frame(d, body)| == HEADER + |body| && ReadFrame(d, Frame(d, body)[..k]) == Bad(Torn)
  {
    hide LittleEndian, FromLittleEndian, Pow256;
    Widths();
    IntegerReads(|body|, 4);
    if k >= HEADER {
      assert Frame(d, body)[..k][..4] == LittleEndian(|body|, 4);
    }
  }

  // ------------------------------------------------------------------------------ reading

  /** What one record does to the entries, unless it does not fit them. */
  function ApplyRecord(r: Record, entries: Entries): Option<Entries> {
    match r
    case Queued(n, kind, scope, operation, payload) =>
      if n in entries then None else Some(entries[n := Entry(kind, scope, operation, payload, None)])
    case Acked(n, outcome) =>
      if n !in entries || entries[n].outcome.Some? then None
        else Some(entries[n := entries[n].(outcome := Some(outcome))])
  }

  function ApplyBody(body: Bytes, entries: Entries): Option<Entries> {
    var r := ParseRecord(body);
    if r.None? then None else ApplyRecord(r.value, entries)
  }

  datatype Scanned = Scanned(entries: Entries, used: nat, reason: Option<Reason>)

  /** Reads records until the bytes end or one does not read or fit. */
  function Scan(d: Digest, bytes: Bytes, entries: Entries): (s: Scanned)
    ensures s.used <= |bytes| && (s.reason.None? <==> s.used == |bytes|)
    decreases |bytes|
  {
    if bytes == [] then Scanned(entries, 0, None)
    else
      var f := ReadFrame(d, bytes);
      if f.Bad? then Scanned(entries, 0, Some(f.reason))
      else
        var next := ApplyBody(f.body, entries);
        if next.None? then Scanned(entries, 0, Some(Malformed))
        else
          var s := Scan(d, bytes[f.used..], next.value);
          Scanned(s.entries, f.used + s.used, s.reason)
  }

  // --------------------------------------------------------------------------------- logs

  type Log = seq<Record>

  function Frames(d: Digest, log: Log): Bytes {
    if log == [] then [] else Frame(d, Body(log[0])) + Frames(d, log[1..])
  }

  /** What a log of records amounts to, when each fits those before it. */
  function ApplyLog(log: Log, entries: Entries): Option<Entries> {
    if log == [] then Some(entries)
    else
      var next := ApplyRecord(log[0], entries);
      if next.None? then None else ApplyLog(log[1..], next.value)
  }

  ghost predicate ValidLog(log: Log) {
    forall i :: 0 <= i < |log| ==> ValidRecord(log[i])
  }

  /** Scanning a log's frames applies the log, and goes on with what follows. */
  lemma {:induction false} ScanLog(d: Digest, log: Log, tail: Bytes, entries: Entries)
    requires ValidLog(log) && ApplyLog(log, entries).Some?
    ensures var rest := Scan(d, tail, ApplyLog(log, entries).value);
      Scan(d, Frames(d, log) + tail, entries) == Scanned(rest.entries, |Frames(d, log)| + rest.used, rest.reason)
  {
    hide Body, ParseRecord, Frame, ReadFrame;
    if log == [] {
      assert Frames(d, log) + tail == tail;
    } else {
      var body, more := Body(log[0]), Frames(d, log[1..]) + tail;
      assert Frames(d, log) + tail == Frame(d, body) + more;
      assert ValidRecord(log[0]);
      BodyParses(log[0]);
      FrameReads(d, body, more);
      assert (Frame(d, body) + more)[HEADER + |body|..] == more;
      ScanLog(d, log[1..], tail, ApplyRecord(log[0], entries).value);
    }
  }

  /** Whatever bytes are scanned, what was read is the frames of one log. */
  lemma {:induction false} ScannedLog(d: Digest, bytes: Bytes, entries: Entries) returns (log: Log)
    ensures ValidLog(log) && ApplyLog(log, entries) == Some(Scan(d, bytes, entries).entries)
    ensures Frames(d, log) == bytes[..Scan(d, bytes, entries).used]
    decreases |bytes|
  {
    hide Body, ParseRecord, Frame, ReadFrame;
    log := [];
    if bytes != [] {
      var f := ReadFrame(d, bytes);
      if f.Framed? && ApplyBody(f.body, entries).Some? {
        FrameSpells(d, bytes);
        ParsesOnce(f.body);
        var r := ParseRecord(f.body).value;
        var rest := ScannedLog(d, bytes[f.used..], ApplyBody(f.body, entries).value);
        log := [r] + rest;
        assert log[1..] == rest && ValidRecord(r);
        FrameReads(d, f.body, bytes[f.used..]);
        var used := Scan(d, bytes, entries).used;
        assert bytes[..used] == Frame(d, f.body) + bytes[f.used..][..used - f.used];
      }
    }
  }

  lemma {:induction false} FramesMore(d: Digest, log: Log, r: Record)
    ensures Frames(d, log + [r]) == Frames(d, log) + Frame(d, Body(r))
  {
    hide Body, Frame;
    if log == [] {
      assert log + [r] == [r] && [r][1..] == [];
    } else {
      FramesMore(d, log[1..], r);
      assert (log + [r])[1..] == log[1..] + [r];
      Regroup(Frame(d, Body(log[0])), Frames(d, log[1..]), Frame(d, Body(r)));
    }
  }

  lemma {:induction false} Regroup(a: Bytes, b: Bytes, c: Bytes)
    ensures a + (b + c) == (a + b) + c
  {
  }

  lemma {:induction false} ApplyMore(log: Log, r: Record, entries: Entries)
    requires ApplyLog(log, entries).Some?
    ensures ApplyLog(log + [r], entries) == ApplyRecord(r, ApplyLog(log, entries).value)
  {
    hide ApplyRecord;
    if log == [] {
      assert log + [r] == [r] && [r][1..] == [];
    } else {
      ApplyMore(log[1..], r, ApplyRecord(log[0], entries).value);
      assert (log + [r])[1..] == log[1..] + [r];
    }
  }

  // ------------------------------------------------------------------- what a log amounts to

  predicate Queues(log: Log, i: nat, n: nat) {
    i < |log| && log[i].Queued? && log[i].seq' == n
  }

  predicate Acks(log: Log, i: nat, n: nat) {
    i < |log| && log[i].Acked? && log[i].seq' == n
  }

  /** A record fits those before it: a number is queued once, and acknowledged at most once after that. */
  ghost predicate Fits(log: Log, j: nat)
    requires j < |log|
  {
    var n := log[j].seq';
    if log[j].Queued? then forall i: nat :: i < j ==> !Queues(log, i, n)
    else (exists i: nat :: i < j && Queues(log, i, n)) && forall i: nat :: i < j ==> !Acks(log, i, n)
  }

  /** The entries of a log: each queued request as it was queued, with the outcome of its acknowledgement if any. */
  ghost predicate Amounts(log: Log, entries: Entries) {
    && (forall n :: n in entries <==> exists i :: Queues(log, i, n))
    && (forall i: nat, n :: Queues(log, i, n) ==>
          entries[n] == Entry(log[i].kind, log[i].scope, log[i].operation, log[i].payload, entries[n].outcome))
    && (forall i: nat, n :: Acks(log, i, n) ==> n in entries && entries[n].outcome == Some(log[i].outcome))
    && (forall n :: n in entries && entries[n].outcome.Some? ==> exists i :: Acks(log, i, n))
  }

  lemma {:induction false} ApplyStops(log: Log, r: Record, entries: Entries)
    requires ApplyLog(log, entries).None?
    ensures ApplyLog(log + [r], entries).None?
  {
    hide ApplyRecord;
    assert (log + [r])[1..] == log[1..] + [r];
    if ApplyRecord(log[0], entries).Some? {
      ApplyStops(log[1..], r, ApplyRecord(log[0], entries).value);
    }
  }

  /** One record more, at the end of a log. */
  lemma {:induction false} OneMore(log: Log, r: Record, n: nat)
    ensures forall i: nat :: i < |log| ==> (Queues(log + [r], i, n) <==> Queues(log, i, n))
    ensures forall i: nat :: i < |log| ==> (Acks(log + [r], i, n) <==> Acks(log, i, n))
    ensures Queues(log + [r], |log|, n) <==> r.Queued? && r.seq' == n
    ensures Acks(log + [r], |log|, n) <==> r.Acked? && r.seq' == n
  {
  }

  lemma {:induction false} FitsBefore(log: Log, r: Record, j: nat)
    requires j < |log|
    ensures Fits(log + [r], j) <==> Fits(log, j)
  {
    hide Queues, Acks;
    OneMore(log, r, log[j].seq');
  }

  /** A record applies exactly when it fits the log that led to the entries. */
  lemma {:induction false} AppliesFits(log: Log, r: Record, entries: Entries)
    requires Amounts(log, entries)
    ensures ApplyRecord(r, entries).Some? <==> Fits(log + [r], |log|)
  {
    hide Queues, Acks;
    OneMore(log, r, r.seq');
    QueuesInside(log, r.seq');
  }

  lemma {:induction false} QueuesInside(log: Log, n: nat)
    ensures forall i: nat :: Queues(log, i, n) || Acks(log, i, n) ==> i < |log|
  {
  }

  lemma {:induction false} AmountsMore(log: Log, r: Record, entries: Entries)
    requires Amounts(log, entries) && ApplyRecord(r, entries).Some?
    ensures Amounts(log + [r], ApplyRecord(r, entries).value)
  {
    var all, after := log + [r], ApplyRecord(r, entries).value;
    forall n ensures n in after <==> exists i :: Queues(all, i, n)
    {
      OneMore(log, r, n);
      if n in entries {
        var i: nat :| Queues(log, i, n);
        assert Queues(all, i, n);
      } else if r.Queued? && r.seq' == n {
        assert Queues(all, |log|, n);
      }
      assert forall i: nat :: Queues(all, i, n) ==> Queues(log, i, n) || (r.Queued? && r.seq' == n);
    }
    forall i: nat, n | Queues(all, i, n)
      ensures after[n] == Entry(all[i].kind, all[i].scope, all[i].operation, all[i].payload, after[n].outcome)
    {
      assert i < |log| ==> Queues(log, i, n);
    }
    forall i: nat, n | Acks(all, i, n) ensures n in after && after[n].outcome == Some(all[i].outcome)
    {
      assert i < |log| ==> Acks(log, i, n);
    }
    forall n | n in after && after[n].outcome.Some? ensures exists i :: Acks(all, i, n)
    {
      if r.Acked? && r.seq' == n {
        assert Acks(all, |log|, n);
      } else {
        var i: nat :| Acks(log, i, n);
        assert Acks(all, i, n);
      }
    }
  }

  lemma {:induction false} LogFits(log: Log)
    ensures ApplyLog(log, map[]).Some? <==> forall j: nat :: j < |log| ==> Fits(log, j)
    ensures ApplyLog(log, map[]).Some? ==> Amounts(log, ApplyLog(log, map[]).value)
  {
    if log != [] {
      hide ApplyRecord, ApplyLog, Fits, Amounts;
      var front, r := log[..|log| - 1], log[|log| - 1];
      assert front + [r] == log;
      LogFits(front);
      forall j: nat | j < |front| ensures Fits(log, j) <==> Fits(front, j)
      {
        FitsBefore(front, r, j);
      }
      if ApplyLog(front, map[]).Some? {
        var entries := ApplyLog(front, map[]).value;
        ApplyMore(front, r, map[]);
        AppliesFits(front, r, entries);
        if ApplyRecord(r, entries).Some? {
          AmountsMore(front, r, entries);
        }
      } else {
        ApplyStops(front, r, map[]);
      }
    }
  }

  lemma {:induction false} AmountsOnce(log: Log, one: Entries, two: Entries)
    requires Amounts(log, one) && Amounts(log, two)
    ensures one == two
  {
    hide Queues, Acks;
    forall n | n in one ensures one[n] == two[n]
    {
      var i: nat :| Queues(log, i, n);
      assert one[n].outcome.Some? <==> exists j: nat :: Acks(log, j, n);
      assert two[n].outcome.Some? <==> exists j: nat :: Acks(log, j, n);
      if j: nat :| Acks(log, j, n) {
        assert one[n].outcome == two[n].outcome;
      }
    }
  }

  /**
   A log amounts to entries exactly when every record fits those before it, and the entries are its
   queued requests, each with the outcome of its one acknowledgement, if it has one.
   */
  lemma {:induction false} LogExactly(log: Log, entries: Entries)
    ensures ApplyLog(log, map[]) == Some(entries) <==>
      (forall j: nat :: j < |log| ==> Fits(log, j)) && Amounts(log, entries)
  {
    hide ApplyLog, Fits, Amounts;
    LogFits(log);
    if ApplyLog(log, map[]).Some? && Amounts(log, entries) {
      AmountsOnce(log, entries, ApplyLog(log, map[]).value);
    }
  }
}
