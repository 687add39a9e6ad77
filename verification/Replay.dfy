/** The two consumers of the replicated log (src/main.rs), the saved replication position
    (src/checkpoint.rs) and the reading of log records (src/cluster.rs). */
module Replay {
  import opened Model
  import opened ReplicatedLog
  import B = Binary
  import H = History

  // ----- Reading a record -----

  /** What a record that cannot be used is read as. */
  const POISON := Operations(MAX_U64, [])

  ghost predicate AllValid(record: LogRecord) {
    record.Operations? ==> forall i :: 0 <= i < |record.operations| ==> Validates(record.operations[i])
  }

  /** What the JSON formats of older records make of a payload that is not binary. */
  type Legacy = Bytes -> Result<LogRecord>

  ghost function Parsed(legacy: Legacy, payload: Bytes): Result<LogRecord> {
    var binary := B.DecodedLog(payload);
    if binary.Ok? then binary else legacy(payload)
  }

  /** Neither format understands the payload, or an operation in it does not validate. */
  ghost predicate IsPoison(legacy: Legacy, payload: Bytes) {
    var parsed := Parsed(legacy, payload);
    parsed.Err? || !AllValid(parsed.value)
  }

  /** The record these bytes are read as: themselves if they parse and validate. */
  ghost function AsRead(legacy: Legacy, payload: Bytes): LogRecord {
    if IsPoison(legacy, payload) then POISON else Parsed(legacy, payload).value
  }

  /** ReplicatedLog::read. A poison record is read only once its report to the dead-letter
      stream is acknowledged. */
  method ReadRecord(legacy: Legacy, payload: Bytes, reported: bool) returns (r: Result<LogRecord>)
    ensures r == if IsPoison(legacy, payload) && !reported then Err else Ok(AsRead(legacy, payload))
  {
    hide B.RecordBody, Validates, B.AllEncodable;
    var decoded := B.DecodeLog(payload);
    if decoded.Ok? {
      B.LogRoundTripIff(decoded.value);
    } else {
      decoded := legacy(payload);
    }
    var valid := decoded.Ok?;
    if decoded.Ok? && decoded.value.Operations? {
      var operations := decoded.value.operations;
      for i := 0 to |operations|
        invariant valid <==> forall j :: 0 <= j < i ==> Validates(operations[j])
      {
        valid := valid && Validates(operations[i]);
      }
    }
    if valid { return decoded; }
    r := if reported then Ok(POISON) else Err;
  }

  /** What a payload is read as: the record it encodes, or the older JSON reads, if all its
      operations validate; the inert record, which is poison, in every other case. */
  lemma WhatIsRead(legacy: Legacy, payload: Bytes)
    ensures forall record :: B.RecordDecodable(record) && payload == B.EncodedLog(record) ==>
              AsRead(legacy, payload) == if AllValid(record) then record else Operations(0xFFFF_FFFF_FFFF_FFFF, [])
    ensures (forall record :: B.RecordDecodable(record) ==> payload != B.EncodedLog(record)) ==>
              AsRead(legacy, payload) == (match legacy(payload) {
                case Ok(record) => if AllValid(record) then record else Operations(0xFFFF_FFFF_FFFF_FFFF, [])
                case Err => Operations(0xFFFF_FFFF_FFFF_FFFF, []) })
    ensures IsPoison(legacy, payload) ==> AsRead(legacy, payload) == Operations(0xFFFF_FFFF_FFFF_FFFF, [])
  {
    hide B.EncodedLog, AllValid, B.RecordDecodable;
    forall record | B.RecordDecodable(record) && payload == B.EncodedLog(record) ensures Parsed(legacy, payload) == Ok(record) {
      assert B.RecordEncodable(record) by { DecodableIsEncodable(record); }
      B.LogRoundTripIff(record);
    }
  }

  lemma DecodableIsEncodable(record: LogRecord)
    requires B.RecordDecodable(record)
    ensures B.RecordEncodable(record)
  {
  }

  ghost function ReadAll(legacy: Legacy, raw: seq<Bytes>): Log {
    if raw == [] then [] else ReadAll(legacy, raw[..|raw| - 1]) + [AsRead(legacy, raw[|raw| - 1])]
  }

  ghost predicate ValidLog(log: Log) {
    forall i :: 0 <= i < |log| ==> AllValid(log[i])
  }

  lemma {:induction false} ReadLogsAreValid(legacy: Legacy, raw: seq<Bytes>)
    ensures ValidLog(ReadAll(legacy, raw)) && |ReadAll(legacy, raw)| == |raw|
  {
    hide Validates, B.DecodedLog;
    if raw != [] { ReadLogsAreValid(legacy, raw[..|raw| - 1]); }
  }

  lemma {:induction false} AcceptedAreValid(epoch: U64, log: Log)
    requires ValidLog(log)
    ensures forall op :: op in AcceptedFrom(epoch, log) ==> Validates(op)
  {
    hide Validates;
    if log != [] {
      var m := |log| - 1;
      AcceptedAreValid(epoch, log[..m]);
      assert AllValid(log[m]);
    }
  }

  /** Whatever bytes are in the log: as long as at most 9,223,372,036 accepted operations
      touch a position, its balance stays within i64. */
  lemma LogBalancesStayInRange(legacy: Legacy, raw: seq<Bytes>, p: Position)
    requires Touching(FirstPerId(Accepted(ReadAll(legacy, raw))), p) <= 9_223_372_036
    ensures -0x8000_0000_0000_0000 <= Total(FirstPerId(Accepted(ReadAll(legacy, raw))), p) < 0x8000_0000_0000_0000
  {
    hide Validates;
    ReadLogsAreValid(legacy, raw);
    AcceptedAreValid(0, ReadAll(legacy, raw));
    FirstPerIdFacts(Accepted(ReadAll(legacy, raw)));
    BalancesStayInRange(FirstPerId(Accepted(ReadAll(legacy, raw))), p);
  }

  // ----- The checkpoint -----

  const CHECKPOINT_MAGIC: Bytes := [0x57, 0x43, 0x50, 0x31]    // WCP1

  function CheckpointBytes(sequence: U64, epoch: U64): Bytes {
    CHECKPOINT_MAGIC + (B.LE(8, sequence) + B.LE(8, epoch))
  }

  lemma CheckpointParts(sequence: U64, epoch: U64)
    ensures var f := CheckpointBytes(sequence, epoch);
            |f| == 20 && f[..4] == CHECKPOINT_MAGIC && B.FromLE(f[4..12]) == sequence && B.FromLE(f[12..]) == epoch
  {
    hide B.LE, B.FromLE;
    B.Widths();
    B.LERoundTrip(8, sequence);
    B.LERoundTrip(8, epoch);
    var f := CheckpointBytes(sequence, epoch);
    assert f[4..12] == B.LE(8, sequence) && f[12..] == B.LE(8, epoch);
  }

  /** The pair a checkpoint file stands for; `legacy` reads the older text formats. */
  function SavedPair(legacy: Bytes -> Result<(U64, U64)>, data: Bytes): Result<(U64, U64)> {
    if CHECKPOINT_MAGIC <= data && |data| == 20 then
      B.Widths();
      B.FromLERoundTrip(data[4..12]);
      B.FromLERoundTrip(data[12..]);
      Ok((B.FromLE(data[4..12]), B.FromLE(data[12..])))
    else legacy(data)
  }

  /** The file: WCP1, then two u64. */
  ghost predicate PairLaidOut(b: Bytes, sequence: U64, epoch: U64) {
    |b| == 20 && b[..4] == [0x57, 0x43, 0x50, 0x31] && B.Number8(b, 4) == sequence && B.Number8(b, 12) == epoch
  }

  lemma CheckpointLayout(sequence: U64, epoch: U64)
    ensures PairLaidOut(CheckpointBytes(sequence, epoch), sequence, epoch)
  {
    hide B.LE, B.Number8;
    var magic, first, second := CHECKPOINT_MAGIC, B.LE(8, sequence), B.LE(8, epoch);
    B.NumberOf8(magic, sequence, second);
    B.NumberOf8(magic + first, epoch, []);
    assert (magic + first) + (second + []) == magic + (first + second);
  }

  /** A file of that layout holds that pair; any other file is left to the older formats. */
  lemma SavedPairMeans(legacy: Bytes -> Result<(U64, U64)>, b: Bytes)
    ensures forall sequence: U64, epoch: U64 :: PairLaidOut(b, sequence, epoch) ==> SavedPair(legacy, b) == Ok((sequence, epoch))
    ensures !(|b| == 20 && b[..4] == [0x57, 0x43, 0x50, 0x31]) ==> SavedPair(legacy, b) == legacy(b)
  {
    hide B.FromLE;
    if |b| == 20 {
      B.EightBytes(b[4..12]);
      B.EightBytes(b[12..]);
      assert forall i :: 0 <= i < 8 ==> b[4..12][i] == b[4 + i] && b[12..][i] == b[12 + i];
      assert B.Number8(b[4..12], 0) == B.Number8(b, 4) && B.Number8(b[12..], 0) == B.Number8(b, 12);
    }
  }

  /** What was saved is what is opened, whatever the older formats are. */
  lemma CheckpointReopens(legacy: Bytes -> Result<(U64, U64)>, sequence: U64, epoch: U64)
    ensures SavedPair(legacy, CheckpointBytes(sequence, epoch)) == Ok((sequence, epoch))
  {
    hide B.LE, B.FromLE, CheckpointBytes;
    CheckpointParts(sequence, epoch);
  }

  /** Opening what a previous life left: its pair, zero without a file, or an error. */
  method OpenCheckpoint(file: Option<Bytes>, legacy: Bytes -> Result<(U64, U64)>) returns (r: Result<Checkpoint>)
    ensures r.Ok? <==> file.None? || SavedPair(legacy, file.value).Ok?
    ensures r.Ok? ==> fresh(r.value) && r.value.Valid() && r.value.file == file
    ensures r.Ok? && file.None? ==> r.value.sequence == 0 && r.value.epoch == 0
    ensures file.Some? ==> forall sequence: U64, epoch: U64 :: PairLaidOut(file.value, sequence, epoch) ==>
              r.Ok? && r.value.sequence == sequence && r.value.epoch == epoch
  {
    hide B.FromLE, PairLaidOut, SavedPair;
    if file.Some? { SavedPairMeans(legacy, file.value); }
    var pair := Ok((0, 0));
    if file.Some? { pair := SavedPair(legacy, file.value); }
    if pair.Err? { return Err; }
    var checkpoint := new Checkpoint(file, legacy, pair.value.0, pair.value.1);
    r := Ok(checkpoint);
  }

  class Checkpoint {
    const legacy: Bytes -> Result<(U64, U64)>
    var sequence: U64
    var epoch: U64
    var file: Option<Bytes>

    /** Memory and file say the same. */
    ghost predicate Valid()
      reads this
    {
      if file.Some? then SavedPair(legacy, file.value) == Ok((sequence, epoch)) else sequence == 0 && epoch == 0
    }

    constructor (file: Option<Bytes>, legacy: Bytes -> Result<(U64, U64)>, sequence: U64, epoch: U64)
      requires if file.Some? then SavedPair(legacy, file.value) == Ok((sequence, epoch)) else sequence == 0 && epoch == 0
      ensures Valid() && this.file == file && this.sequence == sequence && this.epoch == epoch
    {
      this.file, this.legacy, this.sequence, this.epoch := file, legacy, sequence, epoch;
    }

    /** advance: never backwards; a failed write changes nothing. */
    method Advance(next: U64, writerEpoch: U64, writes: bool) returns (ok: bool)
      requires Valid()
      modifies this
      ensures Valid() && ok == (next <= old(sequence) || writes)
      ensures if ok && next > old(sequence) then
                sequence == next && epoch == writerEpoch && file.Some? && PairLaidOut(file.value, next, writerEpoch)
              else unchanged(this)
    {
      if next <= sequence { return true; }
      if !writes { return false; }
      Replace(next, writerEpoch);
      ok := true;
    }

    /** The temporary file is written and renamed; then memory follows. */
    method Replace(next: U64, writerEpoch: U64)
      modifies this
      ensures Valid() && sequence == next && epoch == writerEpoch && file.Some? && PairLaidOut(file.value, next, writerEpoch)
    {
      hide CheckpointBytes, SavedPair, PairLaidOut;
      CheckpointLayout(next, writerEpoch);
      CheckpointReopens(legacy, next, writerEpoch);
      file := Some(CheckpointBytes(next, writerEpoch));
      sequence, epoch := next, writerEpoch;
    }

    method Reset(writes: bool) returns (ok: bool)
      requires Valid()
      modifies this
      ensures Valid() && ok == writes
      ensures if ok then sequence == 0 && epoch == 0 && file.Some? && PairLaidOut(file.value, 0, 0) else unchanged(this)
    {
      if !writes { return false; }
      Replace(0, 0);
      ok := true;
    }
  }

  // ----- catch_up -----

  /** Which of the calls into the log, the store and the disk succeed, by sequence. */
  datatype Works = Works(read: nat -> bool, restore: nat -> bool, report: nat -> bool, save: nat -> bool)

  ghost predicate Smooth(works: Works) {
    forall n :: works.read(n) && works.restore(n) && works.report(n) && works.save(n)
  }

  /** What catch_up hands on: accepted batches to the store, refused records to the DLQ. */
  class Sink {
    var restored: seq<Operation>
    var refused: seq<nat>

    constructor ()
      ensures restored == [] && refused == []
    {
      restored, refused := [], [];
    }
  }

  predicate IsRefused(active: U64, record: LogRecord) {
    record.Operations? && record.epoch != active && record.epoch != MAX_U64
  }

  /** The sequences of the records that catch_up quarantines when it reads `log` from
      `epoch`, the first of them being sequence `from` + 1. */
  function RefusedFrom(epoch: U64, log: Log, from: nat): seq<nat> {
    if log == [] then []
    else
      var m := |log| - 1;
      RefusedFrom(epoch, log[..m], from)
      + if IsRefused(ActiveFrom(epoch, log[..m]), log[m]) then [from + m + 1] else []
  }

  /** The calls that this record needs succeed. */
  predicate Goes(works: Works, sequence: nat, epoch: U64, record: LogRecord) {
    match record
    case Fence(_, _) => true
    case Operations(e, ops) =>
      if e == epoch then ops == [] || works.restore(sequence)
      else e == 0xFFFF_FFFF_FFFF_FFFF || works.report(sequence)
  }

  /** Record `i` can be read and dealt with by a reader that started at `from`. */
  ghost predicate GoesAt(log: Log, works: Works, from: nat, start: U64, i: nat)
    requires from <= i < |log|
  {
    works.read(i + 1) && Goes(works, i + 1, ActiveFrom(start, log[from..i]), log[i])
  }

  ghost predicate WentThrough(log: Log, works: Works, from: nat, start: U64, n: nat)
    requires from <= n <= |log|
  {
    forall i: nat :: from <= i < n ==> GoesAt(log, works, from, start, i)
  }

  const CHECKPOINT_EVERY: nat := 64

  /** What catch_up does with one record: follow a fence, restore an accepted batch, pass
      over poison, report the rest. */
  method TakeRecord(record: LogRecord, sequence: nat, epoch: U64, works: Works, sink: Sink) returns (ok: bool, next: U64)
    modifies sink
    ensures next == (match record { case Fence(e, _) => Max(epoch, e) case _ => epoch })
    ensures if ok then
              && sink.restored == old(sink.restored) + Yield(epoch, record)
              && sink.refused == old(sink.refused) + (if IsRefused(epoch, record) then [sequence] else [])
            else unchanged(sink)
    ensures ok && record.Operations? ==>
              && sink.restored == old(sink.restored) + (if record.epoch == epoch then record.operations else [])
              && sink.refused == old(sink.refused) + (if record.epoch != epoch && record.epoch != 0xFFFF_FFFF_FFFF_FFFF then [sequence] else [])
    ensures ok && record.Fence? ==> unchanged(sink)
    ensures ok <==> Goes(works, sequence, epoch, record)
  {
    next := epoch;
    match record {
      case Fence(announced, _) =>
        if announced > epoch { next := announced; }
      case Operations(recordEpoch, batch) =>
        if recordEpoch == epoch {
          if batch != [] {
            if !works.restore(sequence) { return false, next; }
            sink.restored := sink.restored + batch;
          }
        } else if recordEpoch != MAX_U64 {
          if !works.report(sequence) { return false, next; }
          sink.refused := sink.refused + [sequence];
        }
    }
    ok := true;
  }

  lemma NoRecords(epoch: U64, log: Log, s: nat)
    requires s <= |log|
    ensures AcceptedFrom(epoch, log[s..s]) == [] && ActiveFrom(epoch, log[s..s]) == epoch && RefusedFrom(epoch, log[s..s], s) == []
  {
    assert log[s..s] == [];
  }

  /** A reader that started at `from` with epoch `start` is in `epoch` after `n` records. */
  ghost predicate InEpoch(log: Log, from: nat, start: U64, n: nat, epoch: U64) {
    from <= n <= |log| && epoch == ActiveFrom(start, log[from..n])
  }

  /** From then on it has added the accepted operations to what was restored, and the
      sequences of the unaccepted records to what was refused. */
  ghost predicate Dealt(log: Log, from: nat, start: U64, n: nat,
                        restored0: seq<Operation>, restored: seq<Operation>, refused0: seq<nat>, refused: seq<nat>) {
    && from <= n <= |log|
    && restored == restored0 + AcceptedFrom(start, log[from..n])
    && refused == refused0 + RefusedFrom(start, log[from..n], from)
  }

  lemma DealtWithOneMore(log: Log, from: nat, start: U64, n: nat, epoch: U64,
                         restored0: seq<Operation>, restored: seq<Operation>, refused0: seq<nat>, refused: seq<nat>)
    requires InEpoch(log, from, start, n, epoch) && Dealt(log, from, start, n, restored0, restored, refused0, refused)
    requires n < |log|
    ensures InEpoch(log, from, start, n + 1, match log[n] { case Fence(e, _) => Max(epoch, e) case _ => epoch })
    ensures Dealt(log, from, start, n + 1, restored0, restored + Yield(epoch, log[n]),
                  refused0, refused + if IsRefused(epoch, log[n]) then [n + 1] else [])
  {
    hide AcceptedFrom, RefusedFrom, ActiveFrom;
    OneMoreRecord(start, log, from, n);
  }

  lemma NothingDealt(log: Log, from: nat, start: U64, restored: seq<Operation>, refused: seq<nat>)
    requires from <= |log|
    ensures InEpoch(log, from, start, from, start) && Dealt(log, from, start, from, restored, restored, refused, refused)
  {
    NoRecords(start, log, from);
  }

  lemma NothingFailed(log: Log, works: Works, from: nat, start: U64)
    requires from <= |log|
    ensures WentThrough(log, works, from, start, from)
  {
  }

  lemma GoesOneFurther(log: Log, works: Works, from: nat, start: U64, n: nat, epoch: U64)
    requires from <= n < |log| && InEpoch(log, from, start, n, epoch) && WentThrough(log, works, from, start, n)
    ensures WentThrough(log, works, from, start, n + 1) <==> works.read(n + 1) && Goes(works, n + 1, epoch, log[n])
    ensures Smooth(works) ==> works.read(n + 1) && Goes(works, n + 1, epoch, log[n])
  {
    hide ActiveFrom, Goes;
    assert GoesAt(log, works, from, start, n) <==> works.read(n + 1) && Goes(works, n + 1, epoch, log[n]);
    if Smooth(works) { SmoothGoes(works, n + 1, epoch, log[n]); }
  }

  lemma SmoothGoes(works: Works, sequence: nat, epoch: U64, record: LogRecord)
    requires Smooth(works)
    ensures Goes(works, sequence, epoch, record)
  {
    assert works.restore(sequence) && works.report(sequence);
  }

  /** One pass over the log from the saved position. It may stop at any failure; `upTo`
      says how many records were dealt with. */
  method CatchUp(log: Log, works: Works, checkpoint: Checkpoint, sink: Sink) returns (ok: bool, upTo: nat)
    requires checkpoint.Valid() && checkpoint.sequence <= |log| <= MAX_U64
    modifies checkpoint, sink
    ensures checkpoint.Valid()
    ensures old(checkpoint.sequence) <= checkpoint.sequence <= upTo <= |log|
    ensures upTo - checkpoint.sequence <= 64
    ensures ok ==> checkpoint.sequence == |log|
    ensures Smooth(works) ==> ok
    ensures InEpoch(log, old(checkpoint.sequence), old(checkpoint.epoch), checkpoint.sequence, checkpoint.epoch)
    ensures Dealt(log, old(checkpoint.sequence), old(checkpoint.epoch), upTo,
                  old(sink.restored), sink.restored, old(sink.refused), sink.refused)
    ensures WentThrough(log, works, old(checkpoint.sequence), old(checkpoint.epoch), upTo)
    ensures checkpoint.sequence > old(checkpoint.sequence) ==> works.save(checkpoint.sequence)
    ensures !ok ==>
              || (upTo < |log| && !WentThrough(log, works, old(checkpoint.sequence), old(checkpoint.epoch), upTo + 1))
              || (upTo > checkpoint.sequence && !works.save(upTo))
  {
    hide CheckpointBytes, SavedPair, IsRefused, Yield, InEpoch, Dealt, Goes, WentThrough;
    ghost var s0, e0, r0, f0 := checkpoint.sequence, checkpoint.epoch, sink.restored, sink.refused;
    var epoch := checkpoint.epoch;
    var pending: Option<(U64, U64)> := None;
    var since := 0;
    upTo := checkpoint.sequence;
    NothingDealt(log, s0, e0, r0, f0);
    NothingFailed(log, works, s0, e0);
    while upTo < |log|
      invariant checkpoint.Valid() && s0 <= checkpoint.sequence <= upTo <= |log|
      invariant upTo - checkpoint.sequence == since < CHECKPOINT_EVERY
      invariant pending == if since == 0 then None else Some((upTo, epoch))
      invariant InEpoch(log, s0, e0, checkpoint.sequence, checkpoint.epoch) && InEpoch(log, s0, e0, upTo, epoch)
      invariant Dealt(log, s0, e0, upTo, r0, sink.restored, f0, sink.refused)
      invariant WentThrough(log, works, s0, e0, upTo)
      invariant checkpoint.sequence > s0 ==> works.save(checkpoint.sequence)
      decreases |log| - upTo
    {
      var sequence := upTo + 1;
      GoesOneFurther(log, works, s0, e0, upTo, epoch);
      if !works.read(sequence) { return false, upTo; }
      DealtWithOneMore(log, s0, e0, upTo, epoch, r0, sink.restored, f0, sink.refused);
      var taken, next := TakeRecord(log[upTo], sequence, epoch, works, sink);
      if !taken { return false, upTo; }
      upTo, epoch := sequence, next;
      pending := Some((sequence, epoch));
      since := since + 1;
      if since >= CHECKPOINT_EVERY {
        var saved := checkpoint.Advance(sequence, epoch, works.save(sequence));
        if !saved { return false, upTo; }
        since := 0;
        pending := None;
      }
    }
    if pending.Some? {
      var saved := checkpoint.Advance(pending.value.0, pending.value.1, works.save(pending.value.0));
      if !saved { return false, upTo; }
    }
    ok := true;
  }

  /** A saved epoch is the fold of the log at the saved sequence, and stays it. */
  lemma SavedEpochsAreFolds(log: Log, s: nat, n: nat, epoch: U64)
    requires s <= |log| && InEpoch(log, s, Active(log[..s]), n, epoch)
    ensures epoch == Active(log[..n])
  {
    hide ActiveFrom, AcceptedFrom;
    SegmentIsAccepted(log, s, n);
  }

  lemma OneMoreRecord(epoch: U64, log: Log, s: nat, n: nat)
    requires s <= n < |log|
    ensures var active := ActiveFrom(epoch, log[s..n]);
            && AcceptedFrom(epoch, log[s..n + 1]) == AcceptedFrom(epoch, log[s..n]) + Yield(active, log[n])
            && ActiveFrom(epoch, log[s..n + 1]) == (match log[n] { case Fence(e, _) => Max(active, e) case _ => active })
            && RefusedFrom(epoch, log[s..n + 1], s)
               == RefusedFrom(epoch, log[s..n], s) + (if IsRefused(active, log[n]) then [n + 1] else [])
  {
    assert log[s..n + 1][..n - s] == log[s..n];
  }

  /** Nothing is dropped silently, whatever the epochs: a record of operations is accepted in
      full exactly if its epoch is the active one, and reported exactly if it is neither that
      nor the mark of poison; nothing else is reported, and nothing twice. */
  lemma NothingIsDropped(epoch: U64, log: Log, i: nat)
    requires i < |log|
    ensures log[i].Operations? && log[i].epoch == ActiveFrom(epoch, log[..i]) ==>
              forall op :: op in log[i].operations ==> op in AcceptedFrom(epoch, log)
    ensures i + 1 in RefusedFrom(epoch, log, 0)
            <==> log[i].Operations? && log[i].epoch != ActiveFrom(epoch, log[..i]) && log[i].epoch != 0xFFFF_FFFF_FFFF_FFFF
    ensures forall a, b :: 0 <= a < b < |RefusedFrom(epoch, log, 0)| ==> RefusedFrom(epoch, log, 0)[a] < RefusedFrom(epoch, log, 0)[b]
  {
    RefusedAreSequences(epoch, log);
    RefusedExactly(epoch, log, i);
    if log[i].Operations? && log[i].epoch == ActiveFrom(epoch, log[..i]) { AcceptedInFull(epoch, log, i); }
  }

  lemma {:induction false} AcceptedInFull(epoch: U64, log: Log, i: nat)
    requires i < |log| && log[i].Operations? && log[i].epoch == ActiveFrom(epoch, log[..i])
    ensures forall op :: op in log[i].operations ==> op in AcceptedFrom(epoch, log)
    decreases |log|
  {
    var m := |log| - 1;
    if i < m {
      assert log[..m][..i] == log[..i];
      AcceptedInFull(epoch, log[..m], i);
    }
  }

  lemma {:induction false} RefusedExactly(epoch: U64, log: Log, i: nat)
    requires i < |log|
    ensures i + 1 in RefusedFrom(epoch, log, 0)
            <==> log[i].Operations? && log[i].epoch != ActiveFrom(epoch, log[..i]) && log[i].epoch != 0xFFFF_FFFF_FFFF_FFFF
    decreases |log|
  {
    hide ActiveFrom;
    var m := |log| - 1;
    RefusedAreSequences(epoch, log[..m]);
    if i < m {
      assert log[..m][..i] == log[..i];
      RefusedExactly(epoch, log[..m], i);
    }
  }

  lemma {:induction false} RefusedAreSequences(epoch: U64, log: Log)
    ensures forall n :: n in RefusedFrom(epoch, log, 0) ==> 1 <= n <= |log|
    ensures forall a, b :: 0 <= a < b < |RefusedFrom(epoch, log, 0)| ==> RefusedFrom(epoch, log, 0)[a] < RefusedFrom(epoch, log, 0)[b]
  {
    hide ActiveFrom;
    if log != [] {
      var before := RefusedFrom(epoch, log[..|log| - 1], 0);
      RefusedAreSequences(epoch, log[..|log| - 1]);
      assert forall a :: 0 <= a < |before| ==> before[a] in before;
    }
  }

  // ----- The history tail -----

  const HISTORY_BATCH_RECORDS: nat := 16

  /** A passed-over record still takes its place in the batch. */
  function EntryOf(sequence: nat, epoch: U64, record: LogRecord): H.Entry {
    match record
    case Fence(e, _) => H.Entry(sequence, Max(epoch, e), [])
    case Operations(_, _) => H.Entry(sequence, epoch, Yield(epoch, record))
  }

  lemma BatchGrows(batch: seq<H.Entry>, entry: H.Entry)
    ensures H.AllOperations(batch + [entry]) == H.AllOperations(batch) + entry.operations
  {
    assert (batch + [entry])[..|batch|] == batch;
  }

  /** Rows and progress of the store, and the batch that is still to be written. */
  ghost predicate Gathered(log: Log, from: nat, start: U64, was: H.Table, table: H.Table, saved: nat, n: nat, batch: seq<H.Entry>) {
    && from <= saved <= n <= |log|
    && table == H.Materialized(was, AcceptedFrom(start, log[from..saved]))
    && AcceptedFrom(start, log[from..n]) == AcceptedFrom(start, log[from..saved]) + H.AllOperations(batch)
  }

  lemma NothingGathered(log: Log, from: nat, start: U64, was: H.Table)
    requires from <= |log|
    ensures InEpoch(log, from, start, from, start) && Gathered(log, from, start, was, was, from, from, [])
  {
    NoRecords(start, log, from);
  }

  lemma GathersOneMore(log: Log, from: nat, start: U64, was: H.Table, table: H.Table, saved: nat, n: nat, batch: seq<H.Entry>, epoch: U64)
    requires Gathered(log, from, start, was, table, saved, n, batch) && InEpoch(log, from, start, n, epoch) && n < |log|
    ensures var entry := EntryOf(n + 1, epoch, log[n]);
            && InEpoch(log, from, start, n + 1, entry.epoch)
            && Gathered(log, from, start, was, table, saved, n + 1, batch + [entry])
  {
    hide AcceptedFrom, ActiveFrom, H.Materialized, H.AllOperations, RefusedFrom;
    OneMoreRecord(start, log, from, n);
    var entry := EntryOf(n + 1, epoch, log[n]);
    BatchGrows(batch, entry);
    var settled := AcceptedFrom(start, log[from..saved]);
    assert (settled + H.AllOperations(batch)) + entry.operations == settled + (H.AllOperations(batch) + entry.operations);
  }

  lemma GatheredIsWritten(log: Log, from: nat, start: U64, was: H.Table, table: H.Table, saved: nat, n: nat, batch: seq<H.Entry>)
    requires Gathered(log, from, start, was, table, saved, n, batch) && ValidLog(log)
    ensures Gathered(log, from, start, was, H.Materialized(table, H.AllOperations(batch)), n, n, [])
    ensures forall op :: op in H.AllOperations(batch) ==> Validates(op)
  {
    hide AcceptedFrom, H.Materialized, H.AllOperations, Validates, ValidLog;
    var settled := AcceptedFrom(start, log[from..saved]);
    H.MaterializedConcat(was, settled, H.AllOperations(batch));
    NoEntries();
    SegmentIsValid(start, log, from, n);
    assert forall op :: op in H.AllOperations(batch) ==> op in settled + H.AllOperations(batch);
  }

  lemma GatheredMeans(log: Log, from: nat, start: U64, was: H.Table, table: H.Table, saved: nat, n: nat, batch: seq<H.Entry>)
    requires Gathered(log, from, start, was, table, saved, n, batch)
    ensures table == H.Materialized(was, AcceptedFrom(start, log[from..saved]))
  {
  }

  /** One pass of the history tail from its saved progress: batches of 16 records, each
      written with its progress in one atomic batch. A failed read or write ends the pass
      and drops the unwritten batch. */
  method HistoryPass(log: Log, works: Works, store: H.HistoryStore, published: nat) returns (shown: nat)
    requires store.Valid() && ValidLog(log) && published <= store.sequence <= |log|
    modifies store
    ensures store.Valid() && published <= shown <= store.sequence <= |log|
    ensures old(store.sequence) <= store.sequence
    ensures store.sequence == |log| || (store.sequence - old(store.sequence)) % 16 == 0
    ensures InEpoch(log, old(store.sequence), old(store.epoch), store.sequence, store.epoch)
    ensures store.table == H.Materialized(old(store.table), AcceptedFrom(old(store.epoch), log[old(store.sequence)..store.sequence]))
    ensures Smooth(works) ==> store.sequence == |log|
    ensures shown == if store.sequence == old(store.sequence) then published else store.sequence
    ensures store.sequence > old(store.sequence) ==> works.save(store.sequence)
    ensures forall n: nat :: old(store.sequence) < n <= store.sequence ==> works.read(n)
    ensures store.sequence < |log| ==>
              exists n: nat :: store.sequence < n <= store.sequence + 16 && n <= |log|
                && (!works.read(n) || ((n == store.sequence + 16 || n == |log|) && !works.save(n)))
  {
    hide AcceptedFrom, H.Materialized, H.AllOperations, Validates, ValidLog, InEpoch, Gathered;
    ghost var s0, e0, t0 := store.sequence, store.epoch, store.table;
    shown := published;
    var epoch := store.epoch;
    var at := store.sequence;
    var batch: seq<H.Entry> := [];
    NothingGathered(log, s0, e0, t0);
    while at < |log|
      invariant store.Valid() && published <= shown <= store.sequence <= at <= |log| && s0 <= store.sequence
      invariant shown == if store.sequence == s0 then published else store.sequence
      invariant |batch| == at - store.sequence < HISTORY_BATCH_RECORDS && (at == |log| ==> batch == [])
      invariant (store.sequence - s0) % HISTORY_BATCH_RECORDS == 0 || store.sequence == |log|
      invariant batch != [] ==> batch[|batch| - 1].sequence == at && batch[|batch| - 1].epoch == epoch
      invariant InEpoch(log, s0, e0, at, epoch) && InEpoch(log, s0, e0, store.sequence, store.epoch)
      invariant Gathered(log, s0, e0, t0, store.table, store.sequence, at, batch)
      invariant store.sequence > s0 ==> works.save(store.sequence)
      invariant forall n: nat :: s0 < n <= at ==> works.read(n)
      decreases |log| - at
    {
      var sequence := at + 1;
      if !works.read(sequence) { break; }
      GathersOneMore(log, s0, e0, t0, store.table, store.sequence, at, batch, epoch);
      var entry := EntryOf(sequence, epoch, log[at]);
      batch := batch + [entry];
      epoch := entry.epoch;
      at := sequence;
      if |batch| == HISTORY_BATCH_RECORDS || sequence == |log| {
        GatheredIsWritten(log, s0, e0, t0, store.table, store.sequence, at, batch);
        var written := store.Materialize(batch, works.save(sequence));
        if !written { break; }
        shown := sequence;
        batch := [];
      }
    }
    GatheredMeans(log, s0, e0, t0, store.table, store.sequence, at, batch);
  }

  lemma NoEntries()
    ensures H.AllOperations([]) == []
  {
  }

  lemma SegmentIsValid(epoch: U64, log: Log, s: nat, n: nat)
    requires ValidLog(log) && s <= n <= |log|
    ensures forall op :: op in AcceptedFrom(epoch, log[s..n]) ==> Validates(op)
  {
    hide Validates;
    AcceptedAreValid(epoch, log[s..n]);
  }

  // ----- Restarts -----

  /** One pass of a consumer: it read the log from `from` to `upTo`. */
  datatype Pass = Pass(from: nat, upTo: nat)

  function Reach(passes: seq<Pass>): nat {
    if passes == [] then 0
    else
      var before := Reach(passes[..|passes| - 1]);
      if before < passes[|passes| - 1].upTo then passes[|passes| - 1].upTo else before
  }

  /** Passes that each start at a position some earlier pass had got to: at zero, at a
      saved checkpoint, or anywhere behind the farthest record dealt with. */
  ghost predicate Resumes(log: Log, passes: seq<Pass>) {
    forall i :: 0 <= i < |passes| ==>
      passes[i].from <= Reach(passes[..i]) && passes[i].from <= passes[i].upTo <= |log|
  }

  /** Everything the passes handed on, in order. */
  function HandedOn(log: Log, passes: seq<Pass>): seq<Operation> {
    if passes == [] then []
    else
      var last := passes[|passes| - 1];
      HandedOn(log, passes[..|passes| - 1])
      + if last.from <= last.upTo <= |log| then AcceptedFrom(Active(log[..last.from]), log[last.from..last.upTo]) else []
  }

  lemma {:induction false} FirstPerIdCongruent(a: seq<Operation>, b: seq<Operation>, more: seq<Operation>)
    requires FirstPerId(a) == FirstPerId(b)
    ensures FirstPerId(a + more) == FirstPerId(b + more)
  {
    if more == [] {
      assert a + more == a && b + more == b;
    } else {
      var m := |more| - 1;
      assert (a + more)[..|a + more| - 1] == a + more[..m] && (b + more)[..|b + more| - 1] == b + more[..m];
      FirstPerIdCongruent(a, b, more[..m]);
      FirstPerIdFacts(a + more[..m]);
      FirstPerIdFacts(b + more[..m]);
    }
  }

  lemma {:induction false} FirstPerIdAbsorbs(a: seq<Operation>, more: seq<Operation>)
    requires forall op :: op in more ==> HasId(a, op.id)
    ensures FirstPerId(a + more) == FirstPerId(a)
  {
    if more == [] {
      assert a + more == a;
    } else {
      var m := |more| - 1;
      assert (a + more)[..|a + more| - 1] == a + more[..m];
      FirstPerIdAbsorbs(a, more[..m]);
      assert more[m] in more;
      var i :| 0 <= i < |a| && a[i].id == more[m].id;
      assert (a + more[..m])[i].id == more[m].id;
    }
  }

  lemma SegmentIsAccepted(log: Log, from: nat, upTo: nat)
    requires from <= upTo <= |log|
    ensures Accepted(log[..upTo]) == Accepted(log[..from]) + AcceptedFrom(Active(log[..from]), log[from..upTo])
    ensures Active(log[..upTo]) == ActiveFrom(Active(log[..from]), log[from..upTo])
  {
    assert log[..upTo][..from] == log[..from] && log[..upTo][from..] == log[from..upTo];
    FoldSplits(log[..upTo], from);
  }

  lemma InAccepted(log: Log, from: nat, upTo: nat, k: nat)
    requires from <= upTo <= k <= |log|
    ensures forall op :: op in AcceptedFrom(Active(log[..from]), log[from..upTo]) ==> op in Accepted(log[..k])
  {
    SegmentIsAccepted(log, from, upTo);
    SegmentIsAccepted(log, upTo, k);
  }

  /** Restarting a consumer from any saved position, any number of times, hands on the same
      operations as one fold over the log, up to repetitions of ids already seen. */
  lemma {:induction false} RestartsChangeNothing(log: Log, passes: seq<Pass>)
    requires Resumes(log, passes)
    ensures Reach(passes) <= |log|
    ensures FirstPerId(HandedOn(log, passes)) == FirstPerId(Accepted(log[..Reach(passes)]))
  {
    hide FirstPerId, AcceptedFrom;
    if passes == [] {
      assert Accepted(log[..0]) == [] by { NothingAccepted(log); }
    } else {
      var m := |passes| - 1;
      var before, last := passes[..m], passes[m];
      assert forall i :: 0 <= i < m ==> before[..i] == passes[..i];
      RestartsChangeNothing(log, before);
      var k := Reach(before);
      var segment := AcceptedFrom(Active(log[..last.from]), log[last.from..last.upTo]);
      FirstPerIdCongruent(HandedOn(log, before), Accepted(log[..k]), segment);
      PassAddsNews(log, last.from, last.upTo, k);
    }
  }

  lemma NothingAccepted(log: Log)
    ensures Accepted(log[..0]) == []
  {
    assert log[..0] == [];
  }

  lemma PassAddsNews(log: Log, from: nat, upTo: nat, k: nat)
    requires from <= upTo <= |log| && from <= k <= |log|
    ensures FirstPerId(Accepted(log[..k]) + AcceptedFrom(Active(log[..from]), log[from..upTo]))
            == FirstPerId(Accepted(log[..if k < upTo then upTo else k]))
  {
    hide FirstPerId, AcceptedFrom, ActiveFrom;
    var seen := Accepted(log[..k]);
    if upTo <= k {
      InAccepted(log, from, upTo, k);
      var segment := AcceptedFrom(Active(log[..from]), log[from..upTo]);
      forall op | op in segment ensures HasId(seen, op.id) { MemberHasId(seen, op); }
      FirstPerIdAbsorbs(seen, segment);
    } else {
      var repeated, added := AcceptedFrom(Active(log[..from]), log[from..k]), AcceptedFrom(Active(log[..k]), log[k..upTo]);
      FoldResumes(Active(log[..from]), log[from..k], log[k..upTo]);
      SegmentIsAccepted(log, from, k);
      SegmentIsAccepted(log, k, upTo);
      assert log[from..k] + log[k..upTo] == log[from..upTo];
      InAccepted(log, from, k, k);
      forall op | op in repeated ensures HasId(seen, op.id) { MemberHasId(seen, op); }
      FirstPerIdAbsorbs(seen, repeated);
      FirstPerIdCongruent(seen + repeated, seen, added);
      assert (seen + repeated) + added == seen + (repeated + added);
    }
  }

  lemma MemberHasId(ops: seq<Operation>, op: Operation)
    requires op in ops
    ensures HasId(ops, op.id)
  {
    var i :| 0 <= i < |ops| && ops[i] == op;
    assert ops[i].id == op.id;
  }

  // ----- The live tail: catch_up again and again -----

  /** The passes made so far explain what was restored, and the saved pair is a fold of the
      log behind which nothing is missing. */
  ghost predicate Consumed(log: Log, passes: seq<Pass>, sequence: nat, epoch: U64, restored: seq<Operation>) {
    && Resumes(log, passes)
    && restored == HandedOn(log, passes)
    && sequence <= Reach(passes)
    && sequence <= |log| && epoch == Active(log[..sequence])
  }

  /** What catch_up promises is one more pass. */
  lemma CatchUpIsPass(log: Log, passes: seq<Pass>, s: nat, epoch: U64, restored: seq<Operation>, upTo: nat,
                      s': nat, epoch': U64, restored': seq<Operation>, refused: seq<nat>, refused': seq<nat>)
    requires Consumed(log, passes, s, epoch, restored) && s' <= upTo
    requires Dealt(log, s, epoch, upTo, restored, restored', refused, refused') && InEpoch(log, s, epoch, s', epoch')
    ensures Consumed(log, passes + [Pass(s, upTo)], s', epoch', restored')
  {
    hide AcceptedFrom, ActiveFrom, RefusedFrom;
    var more := passes + [Pass(s, upTo)];
    assert more[..|passes|] == passes && forall i :: 0 <= i < |passes| ==> more[..i] == passes[..i];
    SavedEpochsAreFolds(log, s, s', epoch');
  }

  /** The log only grows, and that changes nothing about the passes made. */
  lemma {:induction false} PassesStay(log: Log, longer: Log, passes: seq<Pass>)
    requires log <= longer && Resumes(log, passes)
    ensures Resumes(longer, passes) && HandedOn(longer, passes) == HandedOn(log, passes) && Reach(passes) <= |log|
  {
    hide AcceptedFrom, ActiveFrom;
    if passes != [] {
      var m := |passes| - 1;
      var last := passes[m];
      assert forall i :: 0 <= i < m ==> passes[..m][..i] == passes[..i];
      PassesStay(log, longer, passes[..m]);
      assert longer[..last.from] == log[..last.from] && longer[last.from..last.upTo] == log[last.from..last.upTo];
    }
  }

  lemma ConsumedStays(log: Log, longer: Log, passes: seq<Pass>, s: nat, epoch: U64, restored: seq<Operation>)
    requires Consumed(log, passes, s, epoch, restored) && log <= longer
    ensures Consumed(longer, passes, s, epoch, restored)
  {
    hide HandedOn;
    PassesStay(log, longer, passes);
    assert longer[..s] == log[..s];
  }

  /** What the successive polls of the log see. */
  ghost predicate Growing(logs: seq<Log>) {
    forall i :: 0 < i < |logs| ==> logs[i - 1] <= logs[i]
  }

  /** run_live_tail over some polls, each catch_up possibly failing anywhere. */
  method LiveTail(logs: seq<Log>, works: seq<Works>, checkpoint: Checkpoint, sink: Sink, ghost before: seq<Pass>)
    returns (ghost passes: seq<Pass>)
    requires logs != [] && Growing(logs) && |works| == |logs| && forall i :: 0 <= i < |logs| ==> |logs[i]| <= MAX_U64
    requires checkpoint.Valid() && Consumed(logs[0], before, checkpoint.sequence, checkpoint.epoch, sink.restored)
    modifies checkpoint, sink
    ensures checkpoint.Valid() && old(checkpoint.sequence) <= checkpoint.sequence
    ensures Consumed(logs[|logs| - 1], passes, checkpoint.sequence, checkpoint.epoch, sink.restored) && before <= passes
    ensures Smooth(works[|logs| - 1]) ==> checkpoint.sequence == Reach(passes) == |logs[|logs| - 1]|
  {
    hide SavedPair, Consumed, Dealt, InEpoch;
    passes := before;
    for i := 0 to |logs|
      invariant checkpoint.Valid() && old(checkpoint.sequence) <= checkpoint.sequence && before <= passes
      invariant Consumed(logs[if i == 0 then 0 else i - 1], passes, checkpoint.sequence, checkpoint.epoch, sink.restored)
      invariant i > 0 ==> checkpoint.sequence <= Reach(passes) <= |logs[i - 1]|
      invariant i > 0 && Smooth(works[i - 1]) ==> checkpoint.sequence == |logs[i - 1]|
    {
      var log := logs[i];
      if i > 0 { ConsumedStays(logs[i - 1], log, passes, checkpoint.sequence, checkpoint.epoch, sink.restored); }
      if |log| > checkpoint.sequence {
        ghost var s, epoch, restored, refused := checkpoint.sequence, checkpoint.epoch, sink.restored, sink.refused;
        var ok, upTo := CatchUp(log, works[i], checkpoint, sink);
        CatchUpIsPass(log, passes, s, epoch, restored, upTo, checkpoint.sequence, checkpoint.epoch, sink.restored, refused, sink.refused);
        passes := passes + [Pass(s, upTo)];
      }
      ConsumedReach(log, passes, checkpoint.sequence, checkpoint.epoch, sink.restored);
    }
  }

  lemma ConsumedReach(log: Log, passes: seq<Pass>, s: nat, epoch: U64, restored: seq<Operation>)
    requires Consumed(log, passes, s, epoch, restored)
    ensures s <= Reach(passes) <= |log|
  {
    hide HandedOn;
    PassesStay(log, log, passes);
  }

  // ----- History reads fail closed -----

  /** The history store holds what a fold of the log up to its progress accepts. */
  ghost predicate HistoryFollows(log: Log, table: H.Table, sequence: nat, epoch: U64) {
    && sequence <= |log|
    && epoch == Active(log[..sequence])
    && table == H.Materialized(map[], Accepted(log[..sequence]))
  }

  /** A pass of the history tail keeps that, whatever fails in it. */
  lemma HistoryKeepsFollowing(log: Log, table: H.Table, s: nat, epoch: U64, n: nat)
    requires HistoryFollows(log, table, s, epoch) && s <= n <= |log|
    ensures HistoryFollows(log, H.Materialized(table, AcceptedFrom(epoch, log[s..n])), n, ActiveFrom(epoch, log[s..n]))
  {
    SegmentIsAccepted(log, s, n);
    H.MaterializedConcat(map[], Accepted(log[..s]), AcceptedFrom(epoch, log[s..n]));
  }

  lemma FollowingStays(log: Log, longer: Log, table: H.Table, s: nat, epoch: U64)
    requires HistoryFollows(log, table, s, epoch) && log <= longer
    ensures HistoryFollows(longer, table, s, epoch)
  {
    assert longer[..s] == log[..s];
  }

  /** run_history_tail over some polls, each pass possibly broken off anywhere. */
  method HistoryTail(logs: seq<Log>, works: seq<Works>, store: H.HistoryStore, published: nat) returns (shown: nat)
    requires logs != [] && Growing(logs) && |works| == |logs| && forall i :: 0 <= i < |logs| ==> ValidLog(logs[i])
    requires store.Valid() && published <= store.sequence && HistoryFollows(logs[0], store.table, store.sequence, store.epoch)
    modifies store
    ensures store.Valid() && published <= shown <= store.sequence && old(store.sequence) <= store.sequence
    ensures Smooth(works[|logs| - 1]) ==> store.sequence == |logs[|logs| - 1]|
    ensures shown == if store.sequence == old(store.sequence) then published else store.sequence
    ensures Smooth(works[|logs| - 1]) && published == old(store.sequence) ==> shown == |logs[|logs| - 1]|
    ensures HistoryFollows(logs[|logs| - 1], store.table, store.sequence, store.epoch)
  {
    hide ValidLog, HistoryFollows, InEpoch, AcceptedFrom, H.Materialized;
    shown := published;
    for i := 0 to |logs|
      invariant store.Valid() && published <= shown <= store.sequence && old(store.sequence) <= store.sequence
      invariant shown == if store.sequence == old(store.sequence) then published else store.sequence
      invariant i > 0 && Smooth(works[i - 1]) ==> store.sequence == |logs[i - 1]|
      invariant HistoryFollows(logs[if i == 0 then 0 else i - 1], store.table, store.sequence, store.epoch)
    {
      var log := logs[i];
      if i > 0 { FollowingStays(logs[i - 1], log, store.table, store.sequence, store.epoch); }
      if |log| > store.sequence {
        ghost var s, epoch, table := store.sequence, store.epoch, store.table;
        shown := HistoryPass(log, works[i], store, shown);
        HistoryKeepsFollowing(log, table, s, epoch, store.sequence);
        EpochIsFold(log, s, epoch, store.sequence, store.epoch);
      }
      FollowsWithin(log, store.table, store.sequence, store.epoch);
    }
  }

  lemma FollowsWithin(log: Log, table: H.Table, s: nat, epoch: U64)
    requires HistoryFollows(log, table, s, epoch)
    ensures s <= |log|
  {
  }

  lemma EpochIsFold(log: Log, s: nat, start: U64, n: nat, epoch: U64)
    requires InEpoch(log, s, start, n, epoch)
    ensures s <= n <= |log| && epoch == ActiveFrom(start, log[s..n])
  {
  }

  /** The two loops mean the same: once the live tail and the history tail have both dealt
      with the whole log, however often each stopped and started again and in whatever
      batches, the ids and contents they handed to balances and to history are equal. */
  lemma TwoConsumersAgree(log: Log, passes: seq<Pass>, s: nat, epoch: U64, restored: seq<Operation>,
                          table: H.Table, historyEpoch: U64)
    requires Consumed(log, passes, s, epoch, restored) && Reach(passes) == |log|
    requires HistoryFollows(log, table, |log|, historyEpoch) && ConsistentIds(Accepted(log))
    ensures FirstPerId(restored) == FirstPerId(Accepted(log))
    ensures forall op :: op in FirstPerId(restored) <==> op.id in table && table[op.id] == op
  {
    hide FirstPerId, HandedOn, Validates, AcceptedFrom;
    RestartsChangeNothing(log, passes);
    assert log[..|log|] == log;
    HistoryReadsFailClosed(log, table, |log|, historyEpoch, |log|, |log|);
    FirstPerIdFacts(Accepted(log));
    forall op | op in Accepted(log) ensures op in FirstPerId(Accepted(log)) {
      MemberHasId(Accepted(log), op);
      assert HasId(FirstPerId(Accepted(log)), op.id);
      var i :| 0 <= i < |FirstPerId(Accepted(log))| && FirstPerId(Accepted(log))[i].id == op.id;
      assert FirstPerId(Accepted(log))[i] in Accepted(log);
    }
  }

  /** ensure_history_complete. */
  predicate HistoryComplete(published: nat, required: nat) { published >= required }

  lemma AcceptedGrows(log: Log, n: nat, m: nat)
    requires n <= m <= |log|
    ensures forall op :: op in Accepted(log[..n]) ==> op in Accepted(log[..m])
  {
    SegmentIsAccepted(log, n, m);
  }

  /** A history read that passes the check finds every operation accepted up to the
      checkpoint it was compared with, with its content, and nothing that was not
      accepted. */
  lemma HistoryReadsFailClosed(log: Log, table: H.Table, sequence: nat, epoch: U64, published: nat, checkpoint: nat)
    requires HistoryFollows(log, table, sequence, epoch) && ConsistentIds(Accepted(log))
    requires published <= sequence && HistoryComplete(published, checkpoint)
    ensures forall op :: op in Accepted(log[..checkpoint]) ==> op.id in table && table[op.id] == op
    ensures forall id :: id in table ==> table[id] in Accepted(log) && table[id].id == id
  {
    hide AcceptedFrom, ActiveFrom, Validates;
    var ops := Accepted(log[..sequence]);
    AcceptedGrows(log, sequence, |log|);
    AcceptedGrows(log, checkpoint, sequence);
    assert log[..|log|] == log;
    assert H.ConsistentWith(map[], ops);
    forall op | op in Accepted(log[..checkpoint]) ensures op.id in table && table[op.id] == op {
      H.MaterializedKeeps(map[], ops, op);
    }
    forall id | id in table ensures table[id] in Accepted(log) && table[id].id == id {
      H.MaterializedHolds(map[], ops, id);
    }
  }

  /** Once both tails are through with the log, no history read is turned away, and every
      accepted operation is found. */
  lemma HistoryAnswersOnceThrough(log: Log, passes: seq<Pass>, checkpoint: nat, epoch: U64, restored: seq<Operation>,
                                  table: H.Table, sequence: nat, historyEpoch: U64, shown: nat)
    requires Consumed(log, passes, checkpoint, epoch, restored) && ConsistentIds(Accepted(log))
    requires HistoryFollows(log, table, sequence, historyEpoch) && shown == sequence == |log|
    ensures shown >= checkpoint && HistoryComplete(shown, checkpoint)
    ensures forall op :: op in Accepted(log) ==> op.id in table && table[op.id] == op
  {
    hide HandedOn, AcceptedFrom, ActiveFrom;
    assert log[..|log|] == log;
    HistoryReadsFailClosed(log, table, sequence, historyEpoch, shown, |log|);
  }
}
