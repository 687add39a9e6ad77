/** The local write-ahead log (src/wal.rs): framing, group commit, recovery from any cut,
    and what survives many crashes. */
module Wal {
  import opened Model
  import opened Binary

  const HEADER_SIZE: nat := 8
  const MAX_RECORD: nat := 0x10_0000

  type U32 = n: int | 0 <= n < 0x1_0000_0000

  /** CRC-32 is any function of the payload. */
  type Checksum = Bytes -> U32

  function Frame(crc: Checksum, payload: Bytes): Bytes {
    LE(4, |payload| % 0x1_0000_0000) + (LE(4, crc(payload)) + payload)
  }

  type Group = seq<Bytes>    // the payloads of one append_many, or of a file

  function GroupBytes(crc: Checksum, group: Group): Bytes {
    if group == [] then [] else GroupBytes(crc, group[..|group| - 1]) + Frame(crc, group[|group| - 1])
  }

  function OperationFrame(crc: Checksum, op: Operation): Bytes { Frame(crc, EncodedOperation(op)) }

  function Frames(crc: Checksum, ops: seq<Operation>): Bytes {
    if ops == [] then [] else Frames(crc, ops[..|ops| - 1]) + OperationFrame(crc, ops[|ops| - 1])
  }

  /** The payloads append_many hands over for `ops`. */
  function Payloads(ops: seq<Operation>): Group {
    seq(|ops|, i requires 0 <= i < |ops| => EncodedOperation(ops[i]))
  }

  lemma {:induction false} PayloadFrames(crc: Checksum, ops: seq<Operation>)
    ensures GroupBytes(crc, Payloads(ops)) == Frames(crc, ops)
  {
    hide Frame, EncodedOperation;
    if ops != [] {
      var m := |ops| - 1;
      assert Payloads(ops)[..m] == Payloads(ops[..m]);
      PayloadFrames(crc, ops[..m]);
    }
  }

  /** No encoded operation comes near the record limit, nor near what a u32 can count. */
  lemma EncodingsAreSmall(op: Operation)
    requires Encodable(op)
    ensures 20 <= |EncodedOperation(op)| <= 196_631 < 0x10_0000
  {
  }

  // ----- What recovery means -----

  /** How the JSON payload of an old record reads: any function of the bytes. */
  type Legacy = Bytes -> Result<Operation>

  ghost function Read(legacy: Legacy, payload: Bytes): Result<Operation> {
    if Decoded(payload).Ok? then Decoded(payload) else legacy(payload)
  }

  ghost predicate Readable(legacy: Legacy, payload: Bytes) { |payload| <= 0x10_0000 && Read(legacy, payload).Ok? }

  ghost predicate AllReadable(legacy: Legacy, group: Group) { forall i :: 0 <= i < |group| ==> Readable(legacy, group[i]) }

  ghost function OperationsIn(legacy: Legacy, group: Group): (r: seq<Operation>)
    requires AllReadable(legacy, group)
    ensures |r| == |group|
  {
    seq(|group|, i requires 0 <= i < |group| => Read(legacy, group[i]).value)
  }

  predicate Incomplete(rest: Bytes) {
    || |rest| < 8
    || (FromLE(rest[..4]) <= 0x10_0000 && |rest| < 8 + FromLE(rest[..4]))
  }

  ghost predicate Damaged(crc: Checksum, legacy: Legacy, rest: Bytes) {
    && |rest| >= 8
    && var size := FromLE(rest[..4]);
       || size > 0x10_0000
       || (&& 8 + size <= |rest|
           && var payload := rest[8..8 + size];
              FromLE(rest[4..8]) != crc(payload) || Read(legacy, payload).Err?)
  }

  /** The first `length` bytes of `data` are the frames of `group`. */
  ghost predicate HoldsGroup(crc: Checksum, legacy: Legacy, data: Bytes, group: Group, length: nat) {
    AllReadable(legacy, group) && length <= |data| && data[..length] == GroupBytes(crc, group)
  }

  /** `data` holds the frames of `group`, `length` bytes, and then an unfinished frame. */
  ghost predicate RecoversGroup(crc: Checksum, legacy: Legacy, data: Bytes, group: Group, length: nat) {
    HoldsGroup(crc, legacy, data, group, length) && Incomplete(data[length..])
  }

  ghost predicate CorruptGroup(crc: Checksum, legacy: Legacy, data: Bytes, group: Group, length: nat) {
    HoldsGroup(crc, legacy, data, group, length) && Damaged(crc, legacy, data[length..])
  }

  /** Recovery finds the operations `ops` in `length` bytes. */
  ghost predicate Recovers(crc: Checksum, legacy: Legacy, data: Bytes, ops: seq<Operation>, length: nat) {
    exists group :: RecoversGroup(crc, legacy, data, group, length) && OperationsIn(legacy, group) == ops
  }

  /** Behind some whole frames comes a frame that is there and wrong. */
  ghost predicate Corrupt(crc: Checksum, legacy: Legacy, data: Bytes, ops: seq<Operation>, length: nat) {
    exists group :: CorruptGroup(crc, legacy, data, group, length) && OperationsIn(legacy, group) == ops
  }

  // ----- One frame in front of other bytes -----

  lemma PayloadParts(crc: Checksum, payload: Bytes, tail: Bytes)
    requires |payload| <= MAX_RECORD
    ensures var f := Frame(crc, payload);
            && |f| == HEADER_SIZE + |payload| && |f + tail| >= HEADER_SIZE
            && FromLE((f + tail)[..4]) == |payload|
            && FromLE((f + tail)[4..8]) == crc(payload)
            && (f + tail)[HEADER_SIZE..HEADER_SIZE + |payload|] == payload
            && (f + tail)[|f|..] == tail
  {
    hide LE, FromLE;
    var f := Frame(crc, payload);
    Widths();
    LERoundTrip(4, |payload|);
    LERoundTrip(4, crc(payload));
    assert (f + tail)[..4] == LE(4, |payload|);
    assert (f + tail)[4..8] == LE(4, crc(payload));
  }

  lemma FrameParts(crc: Checksum, op: Operation, tail: Bytes)
    requires Encodable(op)
    ensures var f, b := OperationFrame(crc, op), EncodedOperation(op);
            && |f| == HEADER_SIZE + |b| && |f + tail| >= HEADER_SIZE
            && FromLE((f + tail)[..4]) == |b| <= MAX_RECORD
            && FromLE((f + tail)[4..8]) == crc(b)
            && (f + tail)[HEADER_SIZE..HEADER_SIZE + |b|] == b
            && (f + tail)[|f|..] == tail
  {
    hide EncodedOperation, FromLE, Frame;
    EncodingsAreSmall(op);
    PayloadParts(crc, EncodedOperation(op), tail);
  }

  /** A frame cut short is unfinished. */
  lemma CutFrameIsIncomplete(crc: Checksum, op: Operation, cut: nat)
    requires Encodable(op) && cut < |OperationFrame(crc, op)|
    ensures Incomplete(OperationFrame(crc, op)[..cut])
  {
    hide OperationFrame;
    var f := OperationFrame(crc, op);
    FrameParts(crc, op, []);
    assert f + [] == f;
    if cut >= HEADER_SIZE {
      assert f[..cut][..4] == f[..4];
    }
  }

  /** A whole frame is neither unfinished nor damaged. */
  lemma WholeFrameIsSound(crc: Checksum, legacy: Legacy, payload: Bytes, tail: Bytes)
    requires Readable(legacy, payload)
    ensures !Incomplete(Frame(crc, payload) + tail) && !Damaged(crc, legacy, Frame(crc, payload) + tail)
  {
    hide Frame, FromLE, Read;
    PayloadParts(crc, payload, tail);
  }

  /** What an operation is encoded as reads as that operation. */
  lemma EncodedIsReadable(legacy: Legacy, op: Operation)
    requires Encodable(op)
    ensures Readable(legacy, EncodedOperation(op)) && Read(legacy, EncodedOperation(op)) == Ok(op)
  {
    hide EncodedOperation;
    EncodingsAreSmall(op);
    DecodedIsUnique(op);
  }

  lemma EncodedAreReadable(legacy: Legacy, ops: seq<Operation>)
    requires AllEncodable(ops)
    ensures AllReadable(legacy, Payloads(ops)) && OperationsIn(legacy, Payloads(ops)) == ops
  {
    hide EncodedOperation, Readable, Read, Encodable;
    forall i | 0 <= i < |ops| ensures Readable(legacy, Payloads(ops)[i]) && Read(legacy, Payloads(ops)[i]) == Ok(ops[i]) {
      EncodedIsReadable(legacy, ops[i]);
    }
  }

  lemma {:induction false} GroupSplits(crc: Checksum, a: Group, b: Group)
    ensures GroupBytes(crc, a + b) == GroupBytes(crc, a) + GroupBytes(crc, b)
  {
    hide Frame;
    if b == [] {
      assert a + b == a;
    } else {
      var m := |b| - 1;
      assert (a + b)[..|a + b| - 1] == a + b[..m];
      GroupSplits(crc, a, b[..m]);
    }
  }

  lemma HeadFrame(crc: Checksum, group: Group, tail: Bytes)
    requires group != []
    ensures GroupBytes(crc, group) + tail == Frame(crc, group[0]) + (GroupBytes(crc, group[1..]) + tail)
  {
    hide Frame;
    assert group == [group[0]] + group[1..];
    GroupSplits(crc, [group[0]], group[1..]);
    assert GroupBytes(crc, [group[0]]) == [] + Frame(crc, group[0]);
    var x, y := Frame(crc, group[0]), GroupBytes(crc, group[1..]);
    assert (x + y) + tail == x + (y + tail);
  }

  /** Equal files, each a list of frames and a remainder that is no sound frame, hold the
      same list. */
  lemma {:induction false} FramesDetermine(crc: Checksum, legacy: Legacy, a: Group, s: Bytes, b: Group, t: Bytes)
    requires AllReadable(legacy, a) && AllReadable(legacy, b) && GroupBytes(crc, a) + s == GroupBytes(crc, b) + t
    requires Incomplete(s) || Damaged(crc, legacy, s)
    requires Incomplete(t) || Damaged(crc, legacy, t)
    ensures a == b && s == t
    decreases |a|
  {
    hide Frame, Damaged, Incomplete, Readable;
    if a != [] { HeadFrame(crc, a, s); }
    if b != [] { HeadFrame(crc, b, t); }
    assert [] + s == s && [] + t == t;
    if a == [] && b == [] {
    } else if a == [] {
      WholeFrameIsSound(crc, legacy, b[0], GroupBytes(crc, b[1..]) + t);
    } else if b == [] {
      WholeFrameIsSound(crc, legacy, a[0], GroupBytes(crc, a[1..]) + s);
    } else {
      FirstFrameDetermines(crc, legacy, a[0], GroupBytes(crc, a[1..]) + s, b[0], GroupBytes(crc, b[1..]) + t);
      FramesDetermine(crc, legacy, a[1..], s, b[1..], t);
      assert a == [a[0]] + a[1..] && b == [b[0]] + b[1..];
    }
  }

  lemma FirstFrameDetermines(crc: Checksum, legacy: Legacy, a: Bytes, s: Bytes, b: Bytes, t: Bytes)
    requires Readable(legacy, a) && Readable(legacy, b) && Frame(crc, a) + s == Frame(crc, b) + t
    ensures a == b && s == t
  {
    hide Frame, FromLE, Read;
    PayloadParts(crc, a, s);
    PayloadParts(crc, b, t);
  }

  lemma GroupIsUnique(crc: Checksum, legacy: Legacy, data: Bytes, a: Group, n: nat, b: Group, m: nat)
    requires HoldsGroup(crc, legacy, data, a, n) && (Incomplete(data[n..]) || Damaged(crc, legacy, data[n..]))
    requires HoldsGroup(crc, legacy, data, b, m) && (Incomplete(data[m..]) || Damaged(crc, legacy, data[m..]))
    ensures a == b && n == m
  {
    hide Damaged, Incomplete, GroupBytes;
    assert data == data[..n] + data[n..] && data == data[..m] + data[m..];
    FramesDetermine(crc, legacy, a, data[n..], b, data[m..]);
    assert |GroupBytes(crc, a)| == n && |GroupBytes(crc, b)| == m;
  }

  lemma NotBoth(crc: Checksum, legacy: Legacy, rest: Bytes)
    ensures !Incomplete(rest) || !Damaged(crc, legacy, rest)
  {
  }

  /** Recovery has one answer: the list, the length and the verdict are determined by the
      bytes. */
  lemma RecoveryIsUnique(crc: Checksum, legacy: Legacy, data: Bytes, a: seq<Operation>, n: nat, b: seq<Operation>, m: nat)
    requires Recovers(crc, legacy, data, a, n)
    requires Recovers(crc, legacy, data, b, m) || Corrupt(crc, legacy, data, b, m)
    ensures a == b && n == m && Recovers(crc, legacy, data, b, m) && !Corrupt(crc, legacy, data, b, m)
  {
    hide Damaged, Incomplete, GroupBytes, Readable, OperationsIn;
    var x :| RecoversGroup(crc, legacy, data, x, n) && OperationsIn(legacy, x) == a;
    NotBoth(crc, legacy, data[n..]);
    forall y | (RecoversGroup(crc, legacy, data, y, m) || CorruptGroup(crc, legacy, data, y, m))
      ensures x == y && n == m
    {
      GroupIsUnique(crc, legacy, data, x, n, y, m);
    }
  }

  /** Frames of operations followed by an unfinished frame are what recovery finds. */
  lemma FoundAs(crc: Checksum, legacy: Legacy, data: Bytes, ops: seq<Operation>, n: nat)
    requires AllEncodable(ops) && n <= |data| && data[..n] == Frames(crc, ops) && Incomplete(data[n..])
    ensures RecoversGroup(crc, legacy, data, Payloads(ops), n) && Recovers(crc, legacy, data, ops, n)
  {
    hide Incomplete, Frames, AllEncodable, GroupBytes, OperationsIn;
    EncodedAreReadable(legacy, ops);
    PayloadFrames(crc, ops);
  }

  lemma RefusedAs(crc: Checksum, legacy: Legacy, data: Bytes, ops: seq<Operation>, n: nat)
    requires AllEncodable(ops) && n <= |data| && data[..n] == Frames(crc, ops) && Damaged(crc, legacy, data[n..])
    ensures CorruptGroup(crc, legacy, data, Payloads(ops), n) && Corrupt(crc, legacy, data, ops, n)
  {
    hide Damaged, Frames, AllEncodable, GroupBytes, OperationsIn;
    EncodedAreReadable(legacy, ops);
    PayloadFrames(crc, ops);
  }

  // ----- Lists of operations -----

  lemma {:induction false} FramesSplit(crc: Checksum, a: seq<Operation>, b: seq<Operation>)
    ensures Frames(crc, a + b) == Frames(crc, a) + Frames(crc, b)
  {
    hide OperationFrame;
    if b == [] {
      assert a + b == a;
    } else {
      var m := |b| - 1;
      assert (a + b)[..|a + b| - 1] == a + b[..m];
      FramesSplit(crc, a, b[..m]);
    }
  }

  lemma OneFrame(crc: Checksum, op: Operation)
    ensures Frames(crc, [op]) == OperationFrame(crc, op)
  {
    hide OperationFrame;
    assert [op][..0] == [];
    assert Frames(crc, [op]) == [] + OperationFrame(crc, op);
  }

  lemma FramesPrefix(crc: Checksum, ops: seq<Operation>, n: nat)
    requires n <= |ops|
    ensures Frames(crc, ops) == Frames(crc, ops[..n]) + Frames(crc, ops[n..])
  {
    hide Frames;
    assert ops == ops[..n] + ops[n..];
    FramesSplit(crc, ops[..n], ops[n..]);
  }

  lemma EmptyFrames(crc: Checksum)
    ensures Frames(crc, []) == []
  {
  }

  lemma FramesAppend(crc: Checksum, ops: seq<Operation>, op: Operation)
    requires AllEncodable(ops) && Encodable(op)
    ensures Frames(crc, ops + [op]) == Frames(crc, ops) + OperationFrame(crc, op) && AllEncodable(ops + [op])
  {
    hide OperationFrame;
    assert (ops + [op])[..|ops|] == ops;
  }

  // ----- Torn tails -----

  /** For every list of operations and every cut of its framed bytes, recovery finds
      exactly the operations whose whole frame survived, in order, and the byte length of
      their frames; it never fails. */
  lemma {:induction false} TornTailRecovers(crc: Checksum, legacy: Legacy, ops: seq<Operation>, cut: nat) returns (n: nat)
    requires AllEncodable(ops) && cut <= |Frames(crc, ops)|
    ensures n <= |ops| && |Frames(crc, ops[..n])| <= cut
    ensures n < |ops| ==> cut < |Frames(crc, ops[..n + 1])|
    ensures Recovers(crc, legacy, Frames(crc, ops)[..cut], ops[..n], |Frames(crc, ops[..n])|)
    decreases |ops|
  {
    hide OperationFrame, Recovers, Encodable, Frames;
    assert ops[..|ops|] == ops;
    if cut == |Frames(crc, ops)| {
      n := |ops|;
      NothingTorn(crc, legacy, ops);
    } else {
      EmptyFrames(crc);
      var m := |ops| - 1;
      FramesPrefix(crc, ops, m);
      assert ops[m..] == [ops[m]];
      OneFrame(crc, ops[m]);
      var before := Frames(crc, ops[..m]);
      if cut < |before| {
        n := TornTailRecovers(crc, legacy, ops[..m], cut);
        assert ops[..m][..n] == ops[..n] && before[..cut] == Frames(crc, ops)[..cut];
        assert n < m ==> ops[..m][..n + 1] == ops[..n + 1];
      } else {
        n := m;
        TornFrame(crc, legacy, ops[..m], ops[m], cut - |before|);
        assert Frames(crc, ops)[..cut] == before + OperationFrame(crc, ops[m])[..cut - |before|];
      }
    }
  }

  lemma NothingTorn(crc: Checksum, legacy: Legacy, ops: seq<Operation>)
    requires AllEncodable(ops)
    ensures Recovers(crc, legacy, Frames(crc, ops)[..|Frames(crc, ops)|], ops, |Frames(crc, ops)|)
  {
    hide Incomplete, Frames, AllEncodable;
    var all := Frames(crc, ops);
    assert all[..|all|] == all && all[|all|..] == [];
    assert Incomplete([]) by { NothingIsIncomplete(); }
    FoundAs(crc, legacy, all[..|all|], ops, |all|);
  }

  lemma TornFrame(crc: Checksum, legacy: Legacy, ops: seq<Operation>, op: Operation, part: nat)
    requires AllEncodable(ops) && Encodable(op) && part < |OperationFrame(crc, op)|
    ensures Recovers(crc, legacy, Frames(crc, ops) + OperationFrame(crc, op)[..part], ops, |Frames(crc, ops)|)
  {
    hide Incomplete, Frames, OperationFrame, AllEncodable;
    CutFrameIsIncomplete(crc, op, part);
    var before, rest := Frames(crc, ops), OperationFrame(crc, op)[..part];
    assert (before + rest)[..|before|] == before && (before + rest)[|before|..] == rest;
    FoundAs(crc, legacy, before + rest, ops, |before|);
  }

  lemma NothingIsIncomplete()
    ensures Incomplete([])
  {
  }

  // ----- The recovery loop -----

  datatype Recovery = Recovery(operations: seq<Operation>, length: nat)

  /** recover: returns the surviving operations and their byte length, or refuses a file
      that holds a finished frame it cannot trust. */
  method Recover(crc: Checksum, legacy: Legacy, data: Bytes) returns (r: Result<Recovery>)
    ensures r.Ok? ==> r.value.length <= |data| && Recovers(crc, legacy, data, r.value.operations, r.value.length)
    ensures r.Err? ==> exists ops, n :: Corrupt(crc, legacy, data, ops, n)
  {
    hide GroupBytes, FromLE, Damaged, AllReadable, Read, OperationsIn, Incomplete;
    var operations: seq<Operation> := [];
    ghost var group: Group := [];
    var cursor: nat := 0;
    NothingRead(crc, legacy);
    while |data| - cursor >= HEADER_SIZE
      invariant cursor <= |data|
      invariant AllReadable(legacy, group) && OperationsIn(legacy, group) == operations
      invariant data[..cursor] == GroupBytes(crc, group)
      decreases |data| - cursor
    {
      ghost var rest := data[cursor..];
      var size := FromLE(data[cursor..cursor + 4]);
      var checksum := FromLE(data[cursor + 4..cursor + 8]);
      assert rest[..4] == data[cursor..cursor + 4] && rest[4..8] == data[cursor + 4..cursor + 8];
      if size > MAX_RECORD {
        assert Damaged(crc, legacy, rest) by { TooLarge(crc, legacy, rest); }
        assert CorruptGroup(crc, legacy, data, group, cursor);
        assert Corrupt(crc, legacy, data, operations, cursor);
        return Err;
      }
      var end := cursor + HEADER_SIZE + size;
      if end > |data| {
        assert Incomplete(rest) by { Unfinished(rest); }
        break;
      }
      var payload := data[cursor + HEADER_SIZE..end];
      assert rest[HEADER_SIZE..HEADER_SIZE + size] == payload;
      var op := DecodeEither(legacy, payload);
      if crc(payload) != checksum || op.Err? {
        assert Damaged(crc, legacy, rest) by { Untrusted(crc, legacy, rest, payload); }
        assert CorruptGroup(crc, legacy, data, group, cursor);
        assert Corrupt(crc, legacy, data, operations, cursor);
        return Err;
      }
      FrameOfParts(crc, rest, payload);
      assert data[..end] == data[..cursor] + rest[..HEADER_SIZE + size];
      OneMoreRead(crc, legacy, group, payload);
      operations := operations + [op.value];
      group := group + [payload];
      cursor := end;
    }
    assert Incomplete(data[cursor..]) by { if |data| - cursor < HEADER_SIZE { TooShort(data[cursor..]); } }
    assert RecoversGroup(crc, legacy, data, group, cursor);
    r := Ok(Recovery(operations, cursor));
  }

  /** The binary format first, the older JSON if that fails. */
  method DecodeEither(legacy: Legacy, payload: Bytes) returns (r: Result<Operation>)
    ensures r == Read(legacy, payload)
  {
    hide EncodedOperation;
    r := DecodeOperation(payload);
    if r.Err? {
      r := legacy(payload);
    } else {
      DecodedIsUnique(r.value);
    }
  }

  lemma NothingRead(crc: Checksum, legacy: Legacy)
    ensures AllReadable(legacy, []) && OperationsIn(legacy, []) == [] && GroupBytes(crc, []) == []
  {
  }

  lemma OneMoreRead(crc: Checksum, legacy: Legacy, group: Group, payload: Bytes)
    requires AllReadable(legacy, group) && Readable(legacy, payload)
    ensures AllReadable(legacy, group + [payload])
    ensures OperationsIn(legacy, group + [payload]) == OperationsIn(legacy, group) + [Read(legacy, payload).value]
    ensures GroupBytes(crc, group + [payload]) == GroupBytes(crc, group) + Frame(crc, payload)
  {
    hide Frame, Read;
    assert (group + [payload])[..|group|] == group;
  }

  lemma TooLarge(crc: Checksum, legacy: Legacy, rest: Bytes)
    requires |rest| >= HEADER_SIZE && FromLE(rest[..4]) > MAX_RECORD
    ensures Damaged(crc, legacy, rest)
  {
  }

  lemma Unfinished(rest: Bytes)
    requires |rest| >= HEADER_SIZE && FromLE(rest[..4]) <= MAX_RECORD && |rest| < HEADER_SIZE + FromLE(rest[..4])
    ensures Incomplete(rest)
  {
  }

  lemma TooShort(rest: Bytes)
    requires |rest| < HEADER_SIZE
    ensures Incomplete(rest)
  {
  }

  lemma Untrusted(crc: Checksum, legacy: Legacy, rest: Bytes, payload: Bytes)
    requires |rest| >= HEADER_SIZE + |payload| && FromLE(rest[..4]) == |payload|
    requires payload == rest[HEADER_SIZE..HEADER_SIZE + |payload|]
    requires crc(payload) != FromLE(rest[4..8]) || Read(legacy, payload).Err?
    ensures Damaged(crc, legacy, rest)
  {
  }

  /** A trusted frame is the frame of its payload. */
  lemma FrameOfParts(crc: Checksum, rest: Bytes, payload: Bytes)
    requires |rest| >= HEADER_SIZE + |payload| && FromLE(rest[..4]) == |payload| <= MAX_RECORD
    requires payload == rest[HEADER_SIZE..HEADER_SIZE + |payload|] && FromLE(rest[4..8]) == crc(payload)
    ensures rest[..HEADER_SIZE + |payload|] == Frame(crc, payload)
  {
    hide LE, FromLE;
    FromLERoundTrip(rest[..4]);
    FromLERoundTrip(rest[4..8]);
    assert rest[..HEADER_SIZE + |payload|] == rest[..4] + (rest[4..8] + payload);
  }

  // ----- Group commit -----

  /** Opening a file: recover, then cut it to the valid length. */
  method Open(crc: Checksum, legacy: Legacy, data: Bytes) returns (r: Result<(Bytes, seq<Operation>)>)
    ensures r.Ok? ==> r.value.0 <= data && Recovers(crc, legacy, data, r.value.1, |r.value.0|)
    ensures r.Err? ==> exists ops, n :: Corrupt(crc, legacy, data, ops, n)
  {
    hide Recovers, Corrupt;
    var recovered := Recover(crc, legacy, data);
    match recovered {
      case Err => r := Err;
      case Ok(found) => r := Ok((data[..found.length], found.operations));
    }
  }

  function Records(groups: seq<Group>): nat {
    if groups == [] then 0 else Records(groups[..|groups| - 1]) + |groups[|groups| - 1]|
  }

  function GroupsBytes(crc: Checksum, groups: seq<Group>): Bytes {
    if groups == [] then [] else GroupsBytes(crc, groups[..|groups| - 1]) + GroupBytes(crc, groups[|groups| - 1])
  }

  datatype WriteCommand = Append(group: Group) | ResetFile

  /** How the one write of a round ends: synced, written and not synced, or stopped by an
      error after some bytes. */
  datatype Outcome = Synced | SyncFailed | Stopped(at: nat)

  function GroupsOf(commands: seq<WriteCommand>): (r: seq<Group>)
    requires forall c :: c in commands ==> c.Append?
    ensures |r| == |commands|
  {
    seq(|commands|, i requires 0 <= i < |commands| => commands[i].group)
  }

  /** One frame: two u32 for length and checksum, then the payload, up to `next`. */
  ghost predicate FrameAt(crc: Checksum, b: Bytes, at: nat, payload: Bytes, next: nat) {
    && next == at + 8 + |payload| && next <= |b|
    && Number4(b, at) == |payload| % 0x1_0000_0000 && Number4(b, at + 4) == crc(payload) && b[at + 8..next] == payload
  }

  /** Frame after frame; `at` says where each begins. */
  ghost predicate FramesAt(crc: Checksum, b: Bytes, group: Group, at: seq<nat>) {
    |at| == |group| + 1 && forall j :: 0 <= j < |group| ==> FrameAt(crc, b, at[j], group[j], at[j + 1])
  }

  ghost predicate GroupAt(crc: Checksum, b: Bytes, first: nat, group: Group, next: nat) {
    exists at :: FramesAt(crc, b, group, at) && at[0] == first && at[|group|] == next
  }

  /** Group after group. */
  ghost predicate SpansAt(crc: Checksum, b: Bytes, groups: seq<Group>, at: seq<nat>) {
    |at| == |groups| + 1 && forall g :: 0 <= g < |groups| ==> GroupAt(crc, b, at[g], groups[g], at[g + 1])
  }

  ghost predicate GroupsAt(crc: Checksum, b: Bytes, first: nat, groups: seq<Group>, next: nat) {
    exists at :: SpansAt(crc, b, groups, at) && at[0] == first && at[|groups|] == next
  }

  /** The file holds the groups behind what was there, but only the first `at` bytes of
      them: `rest` is what was not written. */
  ghost predicate CutShort(crc: Checksum, was: Bytes, file: Bytes, groups: seq<Group>, at: nat) {
    was <= file && exists rest: Bytes ::
      && GroupsAt(crc, file + rest, |was|, groups, |file + rest|)
      && if rest == [] then |file| - |was| <= at else |file| - |was| == at
  }

  lemma FrameIsAt(crc: Checksum, pre: Bytes, payload: Bytes, post: Bytes)
    ensures FrameAt(crc, pre + (Frame(crc, payload) + post), |pre|, payload, |pre| + |Frame(crc, payload)|)
  {
    hide LE, Number4;
    var size, sum := LE(4, |payload| % 0x1_0000_0000), LE(4, crc(payload));
    var b := pre + (Frame(crc, payload) + post);
    NumberOf4(pre, |payload| % 0x1_0000_0000, sum + payload + post);
    assert b == pre + (size + (sum + payload + post));
    NumberOf4(pre + size, crc(payload), payload + post);
    assert b == (pre + size) + (sum + (payload + post));
  }

  lemma {:induction false} GroupIsAt(crc: Checksum, pre: Bytes, group: Group, post: Bytes)
    ensures GroupAt(crc, pre + (GroupBytes(crc, group) + post), |pre|, group, |pre| + |GroupBytes(crc, group)|)
  {
    hide Frame, FrameAt;
    var b := pre + (GroupBytes(crc, group) + post);
    if group == [] {
      assert FramesAt(crc, b, group, [|pre|]);
    } else {
      var m := |group| - 1;
      var before, last := GroupBytes(crc, group[..m]), Frame(crc, group[m]);
      GroupIsAt(crc, pre, group[..m], last + post);
      Assoc(before, last, post);
      Assoc(pre, before, last + post);
      var at: seq<nat> :| FramesAt(crc, b, group[..m], at) && at[0] == |pre| && at[m] == |pre| + |before|;
      FrameIsAt(crc, pre + before, group[m], post);
      OneMoreFrame(crc, b, group, at, |pre| + |before| + |last|);
    }
  }

  lemma OneMoreFrame(crc: Checksum, b: Bytes, group: Group, at: seq<nat>, next: nat)
    requires group != [] && FramesAt(crc, b, group[..|group| - 1], at)
    requires FrameAt(crc, b, at[|group| - 1], group[|group| - 1], next)
    ensures FramesAt(crc, b, group, at + [next]) && (at + [next])[0] == at[0] && (at + [next])[|group|] == next
    ensures GroupAt(crc, b, at[0], group, next)
  {
    hide FrameAt;
    var m, more := |group| - 1, at + [next];
    forall j | 0 <= j < |group| ensures FrameAt(crc, b, more[j], group[j], more[j + 1]) {
      if j < m { assert group[..m][j] == group[j]; }
    }
  }

  lemma {:induction false} GroupsAreAt(crc: Checksum, pre: Bytes, groups: seq<Group>, post: Bytes)
    ensures GroupsAt(crc, pre + (GroupsBytes(crc, groups) + post), |pre|, groups, |pre| + |GroupsBytes(crc, groups)|)
  {
    hide GroupBytes, GroupAt;
    var b := pre + (GroupsBytes(crc, groups) + post);
    if groups == [] {
      assert SpansAt(crc, b, groups, [|pre|]);
    } else {
      var m := |groups| - 1;
      var before, last := GroupsBytes(crc, groups[..m]), GroupBytes(crc, groups[m]);
      GroupsAreAt(crc, pre, groups[..m], last + post);
      Assoc(before, last, post);
      Assoc(pre, before, last + post);
      var at: seq<nat> :| SpansAt(crc, b, groups[..m], at) && at[0] == |pre| && at[m] == |pre| + |before|;
      GroupIsAt(crc, pre + before, groups[m], post);
      OneMoreGroupAt(crc, b, groups, at, |pre| + |before| + |last|);
    }
  }

  lemma OneMoreGroupAt(crc: Checksum, b: Bytes, groups: seq<Group>, at: seq<nat>, next: nat)
    requires groups != [] && SpansAt(crc, b, groups[..|groups| - 1], at)
    requires GroupAt(crc, b, at[|groups| - 1], groups[|groups| - 1], next)
    ensures SpansAt(crc, b, groups, at + [next]) && (at + [next])[0] == at[0] && (at + [next])[|groups|] == next
    ensures GroupsAt(crc, b, at[0], groups, next)
  {
    hide GroupAt;
    var m, more := |groups| - 1, at + [next];
    forall j | 0 <= j < |groups| ensures GroupAt(crc, b, more[j], groups[j], more[j + 1]) {
      if j < m { assert groups[..m][j] == groups[j]; }
    }
  }

  /** How many records the first `n` commands hold. */
  ghost function RecordsIn(queue: seq<WriteCommand>, n: nat): int {
    SumOver((set i: nat | i < n && i < |queue| && queue[i].Append?), CommandSize(queue))
  }

  ghost function CommandSize(queue: seq<WriteCommand>): nat -> int {
    (i: nat) => if i < |queue| && queue[i].Append? then |queue[i].group| else 0
  }

  lemma {:induction false} RecordsAreCounted(queue: seq<WriteCommand>, n: nat)
    requires n <= |queue| && forall c :: c in queue[..n] ==> c.Append?
    ensures RecordsIn(queue, n) == Records(GroupsOf(queue[..n]))
  {
    var all := set i: nat | i < n && i < |queue| && queue[i].Append?;
    if n == 0 {
      assert all == {};
    } else {
      var m := n - 1;
      assert queue[..n] == queue[..m] + [queue[m]];
      assert GroupsOf(queue[..n])[..m] == GroupsOf(queue[..m]);
      RecordsAreCounted(queue, m);
      assert all - {m} == set i: nat | i < m && i < |queue| && queue[i].Append?;
      SumWithout<nat>(all, CommandSize(queue), m);
    }
  }

  class Writer {
    var file: Bytes

    constructor (file: Bytes)
      ensures this.file == file
    {
      this.file := file;
    }

    /** One round of the writer task: the first group, then further groups while fewer
        than `maxBatch` records are collected and the deadline, which lets `patience`
        commands through, has not passed. A reset that arrives meanwhile is swallowed and
        ends the collecting. One write, one answer for the whole batch. */
    method Commit(crc: Checksum, queue: seq<WriteCommand>, maxBatch: nat, patience: nat, outcome: Outcome)
      returns (answered: nat, ok: bool, lostReset: bool)
      requires queue != [] && queue[0].Append?
      modifies this
      ensures 1 <= answered <= |queue| && ok == outcome.Synced?
      ensures forall c :: c in queue[..answered] ==> c.Append?
      ensures old(file) <= file
      ensures !outcome.Stopped? ==> GroupsAt(crc, file, |old(file)|, GroupsOf(queue[..answered]), |file|)
      ensures outcome.Stopped? ==> CutShort(crc, old(file), file, GroupsOf(queue[..answered]), outcome.at)
      ensures var bytes := GroupsBytes(crc, GroupsOf(queue[..answered]));
              file == old(file) + if outcome.Stopped? && outcome.at < |bytes| then bytes[..outcome.at] else bytes
      ensures answered == 1 || RecordsIn(queue, answered - 1) < maxBatch
      ensures lostReset ==> answered < |queue| && queue[answered].ResetFile?
      ensures lostReset || answered == |queue| || answered == 1 + patience || RecordsIn(queue, answered) >= maxBatch
    {
      hide GroupBytes, GroupsBytes, Records, GroupsAt, RecordsIn, CutShort;
      var batch := [queue[0].group];
      var records := |queue[0].group|;
      assert GroupsOf(queue[..1]) == batch;
      OneGroup(queue[0].group);
      lostReset := false;
      while records < maxBatch && |batch| < |queue| && |batch| <= patience && !lostReset
        invariant unchanged(this)
        invariant 1 <= |batch| <= |queue| && |batch| <= 1 + patience
        invariant (forall c :: c in queue[..|batch|] ==> c.Append?) && batch == GroupsOf(queue[..|batch|])
        invariant records == Records(batch)
        invariant |batch| == 1 || Records(GroupsOf(queue[..|batch| - 1])) < maxBatch
        invariant lostReset ==> |batch| < |queue| && queue[|batch|].ResetFile?
        decreases |queue| - |batch|, !lostReset
      {
        match queue[|batch|] {
          case ResetFile => lostReset := true;
          case Append(next) =>
            assert queue[..|batch| + 1] == queue[..|batch|] + [queue[|batch|]];
            OneMoreGroup(batch, next);
            records := records + |next|;
            batch := batch + [next];
        }
      }
      var buffer := EncodeAll(crc, batch);
      WriteIsAt(crc, file, batch, if outcome.Stopped? then outcome.at else 0);
      if outcome.Stopped? && outcome.at < |buffer| {
        file := file + buffer[..outcome.at];
      } else {
        file := file + buffer;
      }
      RecordsAreCounted(queue, |batch|);
      assert queue[..|batch|] == queue[..|batch| - 1] + [queue[|batch| - 1]];
      RecordsAreCounted(queue, |batch| - 1);
      return |batch|, outcome.Synced?, lostReset;
    }

    method EncodeAll(crc: Checksum, batch: seq<Group>) returns (buffer: Bytes)
      ensures buffer == GroupsBytes(crc, batch)
    {
      hide GroupBytes;
      buffer := [];
      for i := 0 to |batch|
        invariant buffer == GroupsBytes(crc, batch[..i])
      {
        assert batch[..i + 1][..i] == batch[..i];
        var part := Encode(crc, batch[i]);
        buffer := buffer + part;
      }
      assert batch[..|batch|] == batch;
    }

    method Encode(crc: Checksum, group: Group) returns (buffer: Bytes)
      ensures buffer == GroupBytes(crc, group)
    {
      hide Frame;
      buffer := [];
      for i := 0 to |group|
        invariant buffer == GroupBytes(crc, group[..i])
      {
        assert group[..i + 1][..i] == group[..i];
        buffer := buffer + Frame(crc, group[i]);
      }
      assert group[..|group|] == group;
    }

    /** Start-up compaction empties the file. */
    method Reset()
      modifies this
      ensures file == []
    {
      file := [];
    }
  }

  /** What is in the file after a whole or a broken write. */
  lemma WriteIsAt(crc: Checksum, file: Bytes, groups: seq<Group>, at: nat)
    ensures var bytes := GroupsBytes(crc, groups);
            && GroupsAt(crc, file + bytes, |file|, groups, |file + bytes|)
            && CutShort(crc, file, if at < |bytes| then file + bytes[..at] else file + bytes, groups, at)
  {
    hide GroupsBytes, GroupsAt;
    var bytes := GroupsBytes(crc, groups);
    GroupsAreAt(crc, file, groups, []);
    assert file + (bytes + []) == file + bytes && file + bytes + [] == file + bytes;
    if at < |bytes| { assert file + bytes[..at] + bytes[at..] == file + bytes; }
  }

  lemma OneGroup(group: Group)
    ensures Records([group]) == |group|
  {
    assert [group][..0] == [];
  }

  lemma OneMoreGroup(groups: seq<Group>, next: Group)
    ensures Records(groups + [next]) == Records(groups) + |next|
  {
    assert (groups + [next])[..|groups|] == groups;
  }

  // ----- Many lives of one file -----

  datatype Written = Written(op: Operation, acknowledged: bool)

  function OpsOf(w: seq<Written>): (r: seq<Operation>)
    ensures |r| == |w|
  {
    seq(|w|, i requires 0 <= i < |w| => w[i].op)
  }

  /** The acknowledged operations among the written ones, in write order. */
  function AcknowledgedOf(w: seq<Written>): seq<Operation> {
    if w == [] then []
    else AcknowledgedOf(w[..|w| - 1]) + if w[|w| - 1].acknowledged then [w[|w| - 1].op] else []
  }

  /** One file over several lives of the process. `written` lists the frames it starts
      with, the first `settled` of them synced; `tail` is everything behind them once a
      write has stopped inside a frame; the first `durable` bytes survive any crash;
      `acknowledged` is the history of answers since the last reset. */
  datatype Disk = Disk(file: Bytes, written: seq<Written>, settled: nat, durable: nat, tail: Bytes, acknowledged: seq<Operation>)

  const BLANK := Disk([], [], 0, 0, [], [])

  datatype Event =
    | Committed(ops: seq<Operation>)                        // written, synced, answered Ok
    | Unsynced(ops: seq<Operation>)                         // written, the sync failed, answered Err
    | Torn(ops: seq<Operation>, whole: nat, part: nat)      // the write stopped inside a frame
    | CrashAndOpen(cut: nat, found: seq<Operation>, length: nat)   // unsynced bytes survive up to `cut`
    | Reset

  function Flagged(ops: seq<Operation>, acknowledged: bool): (r: seq<Written>)
    ensures |r| == |ops|
  {
    seq(|ops|, i requires 0 <= i < |ops| => Written(ops[i], acknowledged))
  }

  /** What recovery found, with the flags of the frames in the same places. */
  function Relabelled(found: seq<Operation>, was: seq<Written>): seq<Written> {
    seq(|found|, i requires 0 <= i < |found| => Written(found[i], i < |was| && was[i].acknowledged))
  }

  ghost predicate Possible(crc: Checksum, legacy: Legacy, d: Disk, e: Event) {
    match e
    case Committed(ops) => ops != [] && AllEncodable(ops)
    case Unsynced(ops) => ops != [] && AllEncodable(ops)
    case Torn(ops, whole, part) => AllEncodable(ops) && whole < |ops| && part < |OperationFrame(crc, ops[whole])|
    case CrashAndOpen(cut, found, length) =>
      // everything synced is kept, the rest is cut at any byte
      d.durable <= cut <= |d.file| && length <= cut && Recovers(crc, legacy, d.file[..cut], found, length)
    case Reset => true
  }

  /** The file is opened for appending and nothing cuts it back before the next start: what
      is written behind a torn frame stays behind it. */
  ghost function Wrote(crc: Checksum, d: Disk, ops: seq<Operation>, flag: bool, rest: Bytes): Disk {
    var bytes := Frames(crc, ops) + rest;
    if d.tail == [] then d.(file := d.file + bytes, written := d.written + Flagged(ops, flag), tail := rest)
    else d.(file := d.file + bytes, tail := d.tail + bytes)
  }

  ghost function After(crc: Checksum, legacy: Legacy, d: Disk, e: Event): Disk
    requires Possible(crc, legacy, d, e)
  {
    match e
    case Committed(ops) =>
      var w := Wrote(crc, d, ops, true, []);
      w.(settled := if d.tail == [] then |w.written| else d.settled, durable := |w.file|, acknowledged := d.acknowledged + ops)
    case Unsynced(ops) => Wrote(crc, d, ops, false, [])
    case Torn(ops, whole, part) => Wrote(crc, d, ops[..whole], false, OperationFrame(crc, ops[whole])[..part])
    case CrashAndOpen(_, found, length) =>
      Disk(d.file[..length], Relabelled(found, d.written), |found|, length, [], d.acknowledged)
    case Reset => BLANK
  }

  /** Whatever is appended comes behind the frames and what already follows them. */
  lemma WritesComeBehind(crc: Checksum, legacy: Legacy, d: Disk, e: Event)
    requires Possible(crc, legacy, d, e) && !e.CrashAndOpen? && !e.Reset?
    requires d.file == Frames(crc, OpsOf(d.written)) + d.tail
    ensures var d' := After(crc, legacy, d, e);
            d.file <= d'.file && d'.file == Frames(crc, OpsOf(d'.written)) + d'.tail && d.tail <= d'.tail
  {
    hide Frames, OperationFrame, Encodable;
    var d' := After(crc, legacy, d, e);
    var ops := match e case Committed(ops) => ops case Unsynced(ops) => ops case Torn(ops, whole, _) => ops[..whole];
    var rest := match e case Torn(all, whole, part) => OperationFrame(crc, all[whole])[..part] case _ => [];
    assert d'.file == d.file + (Frames(crc, ops) + rest);
    if d.tail == [] {
      assert OpsOf(d'.written) == OpsOf(d.written) + ops;
      FramesSplit(crc, OpsOf(d.written), ops);
      Assoc(d.file, Frames(crc, ops), rest);
    } else {
      Assoc(Frames(crc, OpsOf(d.written)), d.tail, Frames(crc, ops) + rest);
    }
  }

  ghost predicate PartOfFrame(crc: Checksum, tail: Bytes) {
    exists op, cut: nat :: Encodable(op) && cut < |OperationFrame(crc, op)| && tail == OperationFrame(crc, op)[..cut]
  }

  ghost predicate DiskOk(crc: Checksum, d: Disk) {
    && AllEncodable(OpsOf(d.written))
    && d.file == Frames(crc, OpsOf(d.written)) + d.tail
    && (d.tail != [] ==> PartOfFrame(crc, d.tail))
    && d.settled <= |d.written|
    && d.durable == |Frames(crc, OpsOf(d.written[..d.settled]))|
    && (forall i :: d.settled <= i < |d.written| ==> !d.written[i].acknowledged)
    && AcknowledgedOf(d.written) == d.acknowledged
  }

  lemma {:induction false} AcknowledgedAppends(a: seq<Written>, b: seq<Written>)
    ensures AcknowledgedOf(a + b) == AcknowledgedOf(a) + AcknowledgedOf(b)
  {
    if b == [] {
      assert a + b == a;
    } else {
      var m := |b| - 1;
      assert (a + b)[..|a + b| - 1] == a + b[..m];
      AcknowledgedAppends(a, b[..m]);
    }
  }

  lemma {:induction false} AcknowledgedFlagged(ops: seq<Operation>, flag: bool)
    ensures AcknowledgedOf(Flagged(ops, flag)) == if flag then ops else []
  {
    if ops != [] {
      var m := |ops| - 1;
      assert Flagged(ops, flag)[..m] == Flagged(ops[..m], flag);
      AcknowledgedFlagged(ops[..m], flag);
      assert ops == ops[..m] + [ops[m]];
    }
  }

  lemma {:induction false} NoneAcknowledged(w: seq<Written>)
    requires forall i :: 0 <= i < |w| ==> !w[i].acknowledged
    ensures AcknowledgedOf(w) == []
  {
    if w != [] {
      NoneAcknowledged(w[..|w| - 1]);
    }
  }

  lemma WriteKeepsDisk(crc: Checksum, d: Disk, ops: seq<Operation>, flag: bool, rest: Bytes)
    requires DiskOk(crc, d) && d.tail == [] && AllEncodable(ops)
    ensures var d' := Wrote(crc, d, ops, flag, rest);
            && OpsOf(d'.written) == OpsOf(d.written) + ops && AllEncodable(OpsOf(d'.written))
            && d'.file == Frames(crc, OpsOf(d'.written)) + rest
            && AcknowledgedOf(d'.written) == d.acknowledged + (if flag then ops else [])
            && d'.written[..d.settled] == d.written[..d.settled]
  {
    hide Frames, Encodable, AcknowledgedOf;
    var d' := Wrote(crc, d, ops, flag, rest);
    assert OpsOf(d'.written) == OpsOf(d.written) + ops;
    assert d.file == Frames(crc, OpsOf(d.written));
    FramesSplit(crc, OpsOf(d.written), ops);
    Assoc(d.file, Frames(crc, ops), rest);
    AcknowledgedAppends(d.written, Flagged(ops, flag));
    AcknowledgedFlagged(ops, flag);
  }

  /** Whatever byte a crash cuts the file at, recovery succeeds, finds a prefix of what was
      written and misses nothing that was synced. */
  lemma CrashImageRecovers(crc: Checksum, legacy: Legacy, d: Disk, cut: nat) returns (n: nat)
    requires DiskOk(crc, d) && d.durable <= cut <= |d.file|
    ensures d.settled <= n <= |d.written|
    ensures |Frames(crc, OpsOf(d.written)[..n])| <= cut
    ensures d.file[..|Frames(crc, OpsOf(d.written)[..n])|] == Frames(crc, OpsOf(d.written)[..n])
    ensures Recovers(crc, legacy, d.file[..cut], OpsOf(d.written)[..n], |Frames(crc, OpsOf(d.written)[..n])|)
  {
    hide Frames, Encodable, OperationFrame, Recovers;
    var ops := OpsOf(d.written);
    if d.tail == [] {
      assert d.file == Frames(crc, ops);
      n := TornTailRecovers(crc, legacy, ops, cut);
    } else {
      var op, part: nat :| Encodable(op) && part < |OperationFrame(crc, op)| && d.tail == OperationFrame(crc, op)[..part];
      FramesAppend(crc, ops, op);
      var more := Frames(crc, ops + [op]);
      assert more[..cut] == d.file[..cut] && |d.file| < |more|;
      n := TornTailRecovers(crc, legacy, ops + [op], cut);
      assert (ops + [op])[..|ops| + 1] == ops + [op];
      assert (ops + [op])[..n] == ops[..n];
      assert n < |ops| ==> (ops + [op])[..n + 1] == ops[..n + 1];
    }
    FramesPrefix(crc, ops, n);
    if n < d.settled {
      assert OpsOf(d.written[..d.settled]) == ops[..d.settled];
      FramesMonotone(crc, ops, n + 1, d.settled);
    }
  }

  lemma FramesMonotone(crc: Checksum, ops: seq<Operation>, a: nat, b: nat)
    requires a <= b <= |ops|
    ensures |Frames(crc, ops[..a])| <= |Frames(crc, ops[..b])|
  {
    hide Frames;
    FramesPrefix(crc, ops[..b], a);
    assert ops[..b][..a] == ops[..a];
  }

  lemma CrashKeepsDisk(crc: Checksum, legacy: Legacy, d: Disk, cut: nat, found: seq<Operation>, length: nat)
    requires DiskOk(crc, d) && Possible(crc, legacy, d, CrashAndOpen(cut, found, length))
    ensures DiskOk(crc, After(crc, legacy, d, CrashAndOpen(cut, found, length)))
    ensures d.settled <= |found| <= |d.written| && found == OpsOf(d.written)[..|found|]
  {
    hide Frames, Encodable, Recovers;
    var n := CrashImageRecovers(crc, legacy, d, cut);
    var ops := OpsOf(d.written);
    RecoveryIsUnique(crc, legacy, d.file[..cut], found, length, ops[..n], |Frames(crc, ops[..n])|);
    assert d.file[..length] == Frames(crc, found);
    assert Relabelled(found, d.written) == d.written[..n];
    assert OpsOf(d.written[..n]) == found;
    assert d.written[..n][..|found|] == d.written[..n];
    assert Frames(crc, found) + [] == Frames(crc, found);
    assert d.written == d.written[..n] + d.written[n..];
    AcknowledgedAppends(d.written[..n], d.written[n..]);
    NoneAcknowledged(d.written[n..]);
  }

  lemma CommitKeepsDisk(crc: Checksum, legacy: Legacy, d: Disk, ops: seq<Operation>)
    requires DiskOk(crc, d) && Possible(crc, legacy, d, Committed(ops)) && d.tail == []
    ensures DiskOk(crc, After(crc, legacy, d, Committed(ops)))
  {
    hide Frames, Encodable;
    WriteKeepsDisk(crc, d, ops, true, []);
    var d' := After(crc, legacy, d, Committed(ops));
    assert d'.written[..d'.settled] == d'.written;
    assert Frames(crc, OpsOf(d'.written)) + [] == Frames(crc, OpsOf(d'.written));
  }

  lemma UnsyncedKeepsDisk(crc: Checksum, legacy: Legacy, d: Disk, ops: seq<Operation>)
    requires DiskOk(crc, d) && Possible(crc, legacy, d, Unsynced(ops)) && d.tail == []
    ensures DiskOk(crc, After(crc, legacy, d, Unsynced(ops)))
  {
    hide Frames, Encodable;
    WriteKeepsDisk(crc, d, ops, false, []);
  }

  lemma TearKeepsDisk(crc: Checksum, legacy: Legacy, d: Disk, ops: seq<Operation>, whole: nat, part: nat)
    requires DiskOk(crc, d) && Possible(crc, legacy, d, Torn(ops, whole, part))
    requires d.tail == [] || (whole == 0 && part == 0)
    ensures DiskOk(crc, After(crc, legacy, d, Torn(ops, whole, part)))
  {
    hide OperationFrame, Frames, Encodable;
    var d' := After(crc, legacy, d, Torn(ops, whole, part));
    var rest := OperationFrame(crc, ops[whole])[..part];
    if d.tail == [] {
      WriteKeepsDisk(crc, d, ops[..whole], false, rest);
      assert PartOfFrame(crc, rest);
    } else {
      EmptyFrames(crc);
      assert ops[..whole] == [] && rest == [];
      assert d.file + ([] + []) == d.file && d.tail + ([] + []) == d.tail;
    }
  }

  lemma EventKeepsDisk(crc: Checksum, legacy: Legacy, d: Disk, e: Event)
    requires DiskOk(crc, d) && Possible(crc, legacy, d, e)
    requires d.tail != [] ==> e.CrashAndOpen? || e.Reset? || (e.Torn? && e.whole == 0 && e.part == 0)
    ensures DiskOk(crc, After(crc, legacy, d, e))
  {
    hide Encodable, OperationFrame, Frames, Recovers, DiskOk;
    match e
    case Committed(ops) => CommitKeepsDisk(crc, legacy, d, ops);
    case Unsynced(ops) => UnsyncedKeepsDisk(crc, legacy, d, ops);
    case Torn(ops, whole, part) => TearKeepsDisk(crc, legacy, d, ops, whole, part);
    case CrashAndOpen(cut, found, length) => CrashKeepsDisk(crc, legacy, d, cut, found, length);
    case Reset => BlankIsOk(crc);
  }

  lemma BlankIsOk(crc: Checksum)
    ensures DiskOk(crc, BLANK)
  {
    EmptyFrames(crc);
  }

  ghost predicate IsLife(crc: Checksum, legacy: Legacy, events: seq<Event>, disks: seq<Disk>) {
    && |disks| == |events| + 1
    && disks[0] == BLANK
    && forall i :: 0 <= i < |events| ==>
         Possible(crc, legacy, disks[i], events[i]) && disks[i + 1] == After(crc, legacy, disks[i], events[i])
  }

  /** From a fresh or reset file on, nothing was appended while a torn frame stood at the
      end of the file: what a writer could check before it writes. */
  ghost predicate OrderlySince(events: seq<Event>, disks: seq<Disk>, start: nat, i: nat)
    requires |disks| == |events| + 1 && start <= i < |disks|
  {
    && (start == 0 || events[start - 1].Reset?)
    && forall j :: start <= j < i && disks[j].tail != [] ==>
         events[j].CrashAndOpen? || events[j].Reset? || (events[j].Torn? && events[j].whole == 0 && events[j].part == 0)
  }

  lemma {:induction false} LivesAreOk(crc: Checksum, legacy: Legacy, events: seq<Event>, disks: seq<Disk>, start: nat, i: nat)
    requires IsLife(crc, legacy, events, disks) && start <= i < |disks| && OrderlySince(events, disks, start, i)
    ensures DiskOk(crc, disks[i])
  {
    hide Possible, DiskOk;
    if i == start {
      BlankIsOk(crc);
    } else {
      LivesAreOk(crc, legacy, events, disks, start, i - 1);
      EventKeepsDisk(crc, legacy, disks[i - 1], events[i - 1]);
    }
  }

  /** After any number of group commits, failed commits, crashes at arbitrary bytes and
      reopenings, the next recovery succeeds and returns every operation acknowledged since
      the last reset, in write order, with at most unacknowledged ones among them, provided
      nothing was appended behind a torn frame. */
  lemma AcknowledgedSurvives(crc: Checksum, legacy: Legacy, events: seq<Event>, disks: seq<Disk>, start: nat, i: nat, cut: nat)
    returns (kept: seq<Written>)
    requires IsLife(crc, legacy, events, disks) && start <= i < |disks| && OrderlySince(events, disks, start, i)
    requires disks[i].durable <= cut <= |disks[i].file|
    ensures Recovers(crc, legacy, disks[i].file[..cut], OpsOf(kept), |Frames(crc, OpsOf(kept))|)
    ensures kept <= disks[i].written && AcknowledgedOf(kept) == disks[i].acknowledged
    ensures !exists ops, n :: Corrupt(crc, legacy, disks[i].file[..cut], ops, n)
  {
    hide IsLife, OrderlySince, Frames, Recovers, Corrupt, Encodable;
    LivesAreOk(crc, legacy, events, disks, start, i);
    var d := disks[i];
    var n := CrashImageRecovers(crc, legacy, d, cut);
    kept := d.written[..n];
    assert OpsOf(kept) == OpsOf(d.written)[..n];
    assert d.written == kept + d.written[n..];
    AcknowledgedAppends(kept, d.written[n..]);
    NoneAcknowledged(d.written[n..]);
    forall ops, m | Corrupt(crc, legacy, d.file[..cut], ops, m) ensures false {
      RecoveryIsUnique(crc, legacy, d.file[..cut], OpsOf(kept), |Frames(crc, OpsOf(kept))|, ops, m);
    }
  }

  // ----- What a round of the writer does to the disk -----

  function AllOf(batches: seq<seq<Operation>>): seq<Operation> {
    if batches == [] then [] else AllOf(batches[..|batches| - 1]) + batches[|batches| - 1]
  }

  function PayloadGroups(batches: seq<seq<Operation>>): (r: seq<Group>)
    ensures |r| == |batches|
  {
    seq(|batches|, i requires 0 <= i < |batches| => Payloads(batches[i]))
  }

  lemma {:induction false} GroupsAreFrames(crc: Checksum, batches: seq<seq<Operation>>)
    ensures GroupsBytes(crc, PayloadGroups(batches)) == Frames(crc, AllOf(batches))
  {
    hide GroupBytes, Payloads;
    if batches == [] {
      EmptyFrames(crc);
    } else {
      hide Frames;
      var m := |batches| - 1;
      assert PayloadGroups(batches)[..m] == PayloadGroups(batches[..m]);
      GroupsAreFrames(crc, batches[..m]);
      PayloadFrames(crc, batches[m]);
      FramesSplit(crc, AllOf(batches[..m]), batches[m]);
    }
  }

  /** Any cut of the frames falls into one of them. */
  lemma {:induction false} CutFalls(crc: Checksum, ops: seq<Operation>, at: nat) returns (whole: nat, part: nat)
    requires at < |Frames(crc, ops)|
    ensures whole < |ops| && part < |OperationFrame(crc, ops[whole])|
    ensures Frames(crc, ops)[..at] == Frames(crc, ops[..whole]) + OperationFrame(crc, ops[whole])[..part]
  {
    hide OperationFrame;
    var m := |ops| - 1;
    var before := Frames(crc, ops[..m]);
    if at < |before| {
      whole, part := CutFalls(crc, ops[..m], at);
      assert ops[..m][..whole] == ops[..whole] && ops[..m][whole] == ops[whole];
      assert Frames(crc, ops)[..at] == before[..at];
    } else {
      whole, part := m, at - |before|;
      assert Frames(crc, ops)[..at] == before + OperationFrame(crc, ops[m])[..part];
    }
  }

  /** What the outcome of a write of `ops` means for the disk. */
  ghost predicate Means(crc: Checksum, ops: seq<Operation>, outcome: Outcome, e: Event) {
    match outcome
    case Synced => e == Committed(ops)
    case SyncFailed => e == Unsynced(ops)
    case Stopped(at) => if at < |Frames(crc, ops)| then e.Torn? && e.ops == ops else e == Unsynced(ops)
  }

  lemma WriteIsEvent(crc: Checksum, legacy: Legacy, d: Disk, ops: seq<Operation>, outcome: Outcome) returns (e: Event)
    requires ops != [] && AllEncodable(ops)
    ensures Possible(crc, legacy, d, e) && Means(crc, ops, outcome, e)
    ensures var bytes := Frames(crc, ops);
            After(crc, legacy, d, e).file == d.file + if outcome.Stopped? && outcome.at < |bytes| then bytes[..outcome.at] else bytes
    ensures After(crc, legacy, d, e).acknowledged == d.acknowledged + if outcome.Synced? then ops else []
  {
    hide Frames, OperationFrame, AllEncodable;
    var bytes := Frames(crc, ops);
    assert bytes + [] == bytes;
    if outcome.Synced? {
      e := Committed(ops);
    } else if outcome.Stopped? && outcome.at < |bytes| {
      var whole, part := CutFalls(crc, ops, outcome.at);
      e := Torn(ops, whole, part);
    } else {
      e := Unsynced(ops);
    }
  }

  /** One round of the writer over appended operations: the file becomes what the disk's
      event makes of it, and what is answered Ok is exactly what the disk counts as
      acknowledged. */
  method CommitOperations(writer: Writer, crc: Checksum, ghost legacy: Legacy, batches: seq<seq<Operation>>, maxBatch: nat, patience: nat,
                          outcome: Outcome, ghost d: Disk)
    returns (answered: nat, ok: bool, ghost e: Event)
    requires batches != [] && forall i :: 0 <= i < |batches| ==> batches[i] != [] && AllEncodable(batches[i])
    requires writer.file == d.file
    modifies writer
    ensures 1 <= answered <= |batches| && ok == outcome.Synced?
    ensures Possible(crc, legacy, d, e) && Means(crc, AllOf(batches[..answered]), outcome, e)
    ensures writer.file == After(crc, legacy, d, e).file
    ensures After(crc, legacy, d, e).acknowledged == d.acknowledged + if ok then AllOf(batches[..answered]) else []
  {
    hide GroupsBytes, GroupsAt, CutShort, RecordsIn, Payloads, After, Possible, AllEncodable, Means;
    var queue := seq(|batches|, i requires 0 <= i < |batches| => Append(Payloads(batches[i])));
    var lostReset;
    answered, ok, lostReset := writer.Commit(crc, queue, maxBatch, patience, outcome);
    assert GroupsOf(queue[..answered]) == PayloadGroups(batches[..answered]);
    GroupsAreFrames(crc, batches[..answered]);
    AllEncodableTogether(batches[..answered]);
    e := WriteIsEvent(crc, legacy, d, AllOf(batches[..answered]), outcome);
  }

  lemma {:induction false} AllEncodableTogether(batches: seq<seq<Operation>>)
    requires forall i :: 0 <= i < |batches| ==> batches[i] != [] && AllEncodable(batches[i])
    ensures AllEncodable(AllOf(batches)) && (batches != [] ==> AllOf(batches) != [])
  {
    hide Encodable;
    if batches != [] { AllEncodableTogether(batches[..|batches| - 1]); }
  }

  // ----- Appending behind a torn frame -----

  /** A sound frame starts here. */
  ghost predicate StartsFrame(crc: Checksum, legacy: Legacy, rest: Bytes) {
    exists payload :: Readable(legacy, payload) && Frame(crc, payload) <= rest
  }

  /** Bytes are unfinished, damaged, or start with a sound frame, and never two of these. */
  lemma FrameOrNot(crc: Checksum, legacy: Legacy, rest: Bytes)
    ensures StartsFrame(crc, legacy, rest) <==> !Incomplete(rest) && !Damaged(crc, legacy, rest)
  {
    hide FromLE, LE, Read, Frame;
    if StartsFrame(crc, legacy, rest) {
      var payload :| Readable(legacy, payload) && Frame(crc, payload) <= rest;
      var f := Frame(crc, payload);
      assert rest == f + rest[|f|..];
      WholeFrameIsSound(crc, legacy, payload, rest[|f|..]);
    }
    if !Incomplete(rest) && !Damaged(crc, legacy, rest) {
      FrameOfParts(crc, rest, rest[HEADER_SIZE..HEADER_SIZE + FromLE(rest[..4])]);
    }
  }

  lemma TearIsUnfinished(crc: Checksum, tail: Bytes)
    requires PartOfFrame(crc, tail)
    ensures Incomplete(tail)
  {
    hide OperationFrame, Incomplete;
    var op, cut: nat :| Encodable(op) && cut < |OperationFrame(crc, op)| && tail == OperationFrame(crc, op)[..cut];
    CutFrameIsIncomplete(crc, op, cut);
  }

  /** Whatever is appended behind a torn frame, recovery stops at the tear, or refuses the
      file there, exactly unless the bytes happen to complete a frame. */
  lemma RecoveryStopsAtTear(crc: Checksum, legacy: Legacy, d: Disk, more: Bytes)
    requires DiskOk(crc, d) && d.tail != []
    ensures var n := |Frames(crc, OpsOf(d.written))|;
            Recovers(crc, legacy, d.file + more, OpsOf(d.written), n) || Corrupt(crc, legacy, d.file + more, OpsOf(d.written), n)
            <==> !StartsFrame(crc, legacy, d.tail + more)
  {
    hide Frames, Encodable, Incomplete, Damaged, StartsFrame, GroupBytes, OperationsIn;
    var before, rest := Frames(crc, OpsOf(d.written)), d.tail + more;
    Assoc(before, d.tail, more);
    assert d.file + more == before + rest;
    assert (before + rest)[..|before|] == before && (before + rest)[|before|..] == rest;
    FrameOrNot(crc, legacy, rest);
    if Incomplete(rest) { FoundAs(crc, legacy, d.file + more, OpsOf(d.written), |before|); }
    if Damaged(crc, legacy, rest) { RefusedAs(crc, legacy, d.file + more, OpsOf(d.written), |before|); }
  }

  /** Some recovery of the file finds the frames of `ops` where they were written. */
  ghost predicate FoundInPlace(crc: Checksum, legacy: Legacy, file: Bytes, at: nat, ops: seq<Operation>) {
    exists found, n: nat, k: nat ::
      RecoversGroup(crc, legacy, file, found, n) && k <= |found| && |GroupBytes(crc, found[..k])| == at && found[k..] == Payloads(ops)
  }

  /** An acknowledged batch can be recovered from where it was written if and only if no
      torn frame stood there: behind one it is lost even if its bytes complete the frame. */
  lemma AcknowledgedIsFoundIff(crc: Checksum, legacy: Legacy, d: Disk, ops: seq<Operation>)
    requires DiskOk(crc, d) && Possible(crc, legacy, d, Committed(ops))
    ensures FoundInPlace(crc, legacy, After(crc, legacy, d, Committed(ops)).file, |d.file|, ops) <==> d.tail == []
    ensures After(crc, legacy, d, Committed(ops)).durable == |After(crc, legacy, d, Committed(ops)).file|
  {
    hide Frames, GroupBytes, Encodable, Incomplete, Readable, PartOfFrame;
    var file := After(crc, legacy, d, Committed(ops)).file;
    assert Frames(crc, ops) + [] == Frames(crc, ops);
    assert file == d.file + Frames(crc, ops);
    if d.tail == [] {
      CleanIsFound(crc, legacy, OpsOf(d.written), ops);
      assert d.file == Frames(crc, OpsOf(d.written));
    } else {
      forall found, n: nat, k: nat | RecoversGroup(crc, legacy, file, found, n) && k <= |found|
        ensures |GroupBytes(crc, found[..k])| != |d.file|
      {
        assert found == found[..k] + found[k..];
        GroupSplits(crc, found[..k], found[k..]);
        if |GroupBytes(crc, found[..k])| == |d.file| {
          NoTearAtBoundary(crc, legacy, d, file, found[..k]);
        }
      }
    }
  }

  lemma CleanIsFound(crc: Checksum, legacy: Legacy, was: seq<Operation>, ops: seq<Operation>)
    requires AllEncodable(was) && AllEncodable(ops)
    ensures FoundInPlace(crc, legacy, Frames(crc, was) + Frames(crc, ops), |Frames(crc, was)|, ops)
  {
    hide Frames, GroupBytes, Encodable, Incomplete, HoldsGroup, EncodedOperation;
    FramesSplit(crc, was, ops);
    var file, all := Frames(crc, was) + Frames(crc, ops), Payloads(was + ops);
    assert file[..|file|] == file && file[|file|..] == [];
    NothingIsIncomplete();
    FoundAs(crc, legacy, file, was + ops, |file|);
    assert all[..|was|] == Payloads(was) && all[|was|..] == Payloads(ops);
    PayloadFrames(crc, was);
  }

  lemma NoTearAtBoundary(crc: Checksum, legacy: Legacy, d: Disk, file: Bytes, found: Group)
    requires DiskOk(crc, d) && d.file <= file && AllReadable(legacy, found)
    requires |GroupBytes(crc, found)| == |d.file| && GroupBytes(crc, found) <= file
    ensures d.tail == []
  {
    hide Frames, GroupBytes, Encodable, Incomplete, PartOfFrame, Readable;
    assert GroupBytes(crc, found) == d.file;
    assert GroupBytes(crc, found) + [] == d.file;
    NothingIsIncomplete();
    if d.tail != [] {
      TearIsUnfinished(crc, d.tail);
      EncodedAreReadable(legacy, OpsOf(d.written));
      PayloadFrames(crc, OpsOf(d.written));
      FramesDetermine(crc, legacy, found, [], Payloads(OpsOf(d.written)), d.tail);
    }
  }

  lemma TopByte(b: Bytes)
    requires |b| == 4
    ensures FromLE(b) >= 0x100_0000 * (b[3] as int)
  {
    assert b[1..][1..] == b[2..] && b[2..][1..] == b[3..] && b[3..][1..] == [];
    assert FromLE(b[3..]) == b[3];
    assert FromLE(b[2..]) == b[2] + 256 * FromLE(b[3..]);
    assert FromLE(b[1..]) == b[1] + 256 * FromLE(b[2..]);
  }

  /** Three bytes of a frame and then a whole frame read as a record far beyond 1 MiB. */
  lemma ThreeBytesCorrupt(crc: Checksum, legacy: Legacy, a: Operation, op: Operation)
    requires Encodable(a) && Encodable(op) && |EncodedOperation(op)| % 256 != 0
    ensures Corrupt(crc, legacy, OperationFrame(crc, a)[..3] + OperationFrame(crc, op), [], 0)
  {
    hide EncodedOperation, FromLE, Frames;
    EmptyFrames(crc);
    FrameParts(crc, a, []);
    assert OperationFrame(crc, a) + [] == OperationFrame(crc, a);
    var rest := OperationFrame(crc, a)[..3] + OperationFrame(crc, op);
    EncodingsAreSmall(op);
    assert rest[3] == OperationFrame(crc, op)[0] == |EncodedOperation(op)| % 256;
    TopByte(rest[..4]);
    assert rest[..0] == [] && rest[0..] == rest;
    TooLarge(crc, legacy, rest);
    RefusedAs(crc, legacy, rest, [], 0);
  }

  /** A write of `a` stops after three bytes and is answered with an error; the next batch
      is synced and acknowledged; no start can read the file any more. */
  lemma TornThenAcknowledged(crc: Checksum, legacy: Legacy, a: Operation, op: Operation) returns (events: seq<Event>, disks: seq<Disk>)
    requires Encodable(a) && Encodable(op) && |EncodedOperation(op)| % 256 != 0
    ensures events == [Torn([a], 0, 3), Committed([op])] && IsLife(crc, legacy, events, disks)
    ensures disks[2].acknowledged == [op] && Corrupt(crc, legacy, disks[2].file, [], 0)
    ensures forall cut: nat, found, n: nat :: disks[2].durable <= cut <= |disks[2].file| ==> !Recovers(crc, legacy, disks[2].file[..cut], found, n)
  {
    hide EncodedOperation, FromLE, Frames, OperationFrame;
    FrameParts(crc, a, []);
    assert OperationFrame(crc, a) + [] == OperationFrame(crc, a);
    EmptyFrames(crc);
    OneFrame(crc, op);
    events := [Torn([a], 0, 3), Committed([op])];
    var d1 := After(crc, legacy, BLANK, events[0]);
    var d2 := After(crc, legacy, d1, events[1]);
    disks := [BLANK, d1, d2];
    assert [a][..0] == [];
    assert d1.file == OperationFrame(crc, a)[..3] && d1.tail == d1.file;
    assert OperationFrame(crc, op) + [] == OperationFrame(crc, op);
    assert d2.file == OperationFrame(crc, a)[..3] + OperationFrame(crc, op);
    ThreeBytesCorrupt(crc, legacy, a, op);
    NeverReadable(crc, legacy, d2);
  }

  lemma NeverReadable(crc: Checksum, legacy: Legacy, d: Disk)
    requires Corrupt(crc, legacy, d.file, [], 0) && d.durable == |d.file|
    ensures forall cut: nat, found, n: nat :: d.durable <= cut <= |d.file| ==> !Recovers(crc, legacy, d.file[..cut], found, n)
  {
    hide Recovers, Corrupt;
    forall cut: nat, found, n: nat | d.durable <= cut <= |d.file| && Recovers(crc, legacy, d.file[..cut], found, n) ensures false {
      assert d.file[..cut] == d.file;
      RecoveryIsUnique(crc, legacy, d.file, found, n, [], 0);
    }
  }

  /** The smallest request that validates will do. */
  lemma ValidatedRequestsAreLost(crc: Checksum, legacy: Legacy) returns (events: seq<Event>, disks: seq<Disk>)
    ensures events == [Torn([SAMPLE], 0, 3), Committed([SAMPLE])] && Validates(SAMPLE) && IsLife(crc, legacy, events, disks)
    ensures disks[2].acknowledged == [SAMPLE]
    ensures forall cut: nat, found, n: nat :: disks[2].durable <= cut <= |disks[2].file| ==> !Recovers(crc, legacy, disks[2].file[..cut], found, n)
  {
    hide IsLife, Recovers, EncodedOperation, Encodable;
    SampleValidates();
    SampleIsSmall();
    events, disks := TornThenAcknowledged(crc, legacy, SAMPLE, SAMPLE);
  }

  lemma SampleIsSmall()
    ensures Encodable(SAMPLE) && |EncodedOperation(SAMPLE)| == 29
  {
  }
}
