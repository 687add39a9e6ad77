/** The binary formats of operations, batches and log records (src/binary.rs): an
    appending encoder, a cursor reader, and the proof that each undoes the other. */
module Binary {
  import opened Model
  import opened ReplicatedLog
  import Bits

  const OP_MAGIC: Bytes := [0x57, 0x4F, 0x50, 0x31]      // WOP1
  const BATCH_MAGIC: Bytes := [0x57, 0x42, 0x54, 0x31]   // WBT1
  const LOG_MAGIC: Bytes := [0x57, 0x4C, 0x47, 0x31]     // WLG1
  const MAX_COUNT := 100_000
  const MAX_U16 := 0xFFFF
  const MAX_U32 := 0xFFFF_FFFF

  // ----- Little-endian integers -----

  function Pow256(n: nat): (r: nat)
    ensures r > 0
  {
    if n == 0 then 1 else 256 * Pow256(n - 1)
  }

  function LE(n: nat, value: nat): (r: Bytes)
    ensures |r| == n
  {
    if n == 0 then [] else [value % 256] + LE(n - 1, value / 256)
  }

  function FromLE(b: Bytes): nat {
    if b == [] then 0 else b[0] + 256 * FromLE(b[1..])
  }

  lemma {:induction false} LERoundTrip(n: nat, value: nat)
    requires value < Pow256(n)
    ensures FromLE(LE(n, value)) == value
  {
    if n > 0 {
      LERoundTrip(n - 1, value / 256);
      assert LE(n, value)[1..] == LE(n - 1, value / 256);
    }
  }

  lemma {:induction false} FromLERoundTrip(b: Bytes)
    ensures FromLE(b) < Pow256(|b|)
    ensures LE(|b|, FromLE(b)) == b
  {
    if b != [] {
      FromLERoundTrip(b[1..]);
      assert FromLE(b) % 256 == b[0] && FromLE(b) / 256 == FromLE(b[1..]);
      assert b == [b[0]] + b[1..];
    }
  }

  /** Little-endian: byte `i` is digit `i` to the base 256. */
  lemma {:induction false} DigitOfLE(n: nat, value: nat, i: nat)
    requires i < n
    ensures LE(n, value)[i] == (value / Pow256(i)) % 256
  {
    if i > 0 {
      DigitOfLE(n - 1, value / 256, i - 1);
      DivideTwice(value, Pow256(i - 1));
    }
  }

  lemma DivideTwice(value: nat, p: nat)
    requires p > 0
    ensures value / (256 * p) == (value / 256) / p
  {
    var q, r := (value / 256) / p, (value / 256) % p;
    assert value == 256 * (q * p + r) + value % 256;
    assert value == q * (256 * p) + (256 * r + value % 256);
    assert 256 * r + value % 256 < 256 * p;
    assert value == (256 * p) * q + (256 * r + value % 256);
    Bits.QuotientIs(value, 256 * p, q, 256 * r + value % 256);
  }

  lemma Widths()
    ensures Pow256(1) == 0x100 && Pow256(2) == 0x1_0000 && Pow256(4) == 0x1_0000_0000
    ensures Pow256(8) == 0x1_0000_0000_0000_0000
  {
    assert Pow256(3) == 0x100_0000;
    assert Pow256(6) == 0x1_0000_0000_0000;
  }

  /** Two's complement. */
  function ToUnsigned(v: I64): U64 { if v < 0 then v + 0x1_0000_0000_0000_0000 else v }

  function ToSigned(u: U64): I64 { if u < 0x8000_0000_0000_0000 then u else u - 0x1_0000_0000_0000_0000 }

  // ----- What the formats are -----

  function StringBytes(s: Text): Bytes { LE(2, |s|) + s }

  predicate Short(s: Text) { |s| <= 0xFFFF }

  predicate Encodable(op: Operation) { Short(op.id) && Short(op.owner) && Short(op.sku) }

  ghost predicate AllEncodable(ops: seq<Operation>) {
    forall i :: 0 <= i < |ops| ==> Encodable(ops[i])
  }

  function NumbersBytes(op: Operation): Bytes { LE(8, ToUnsigned(op.delta)) + LE(8, op.version) }

  function OperationBytes(op: Operation): Bytes {
    StringBytes(op.id) + (StringBytes(op.owner) + (StringBytes(op.sku) + NumbersBytes(op)))
  }

  function OperationsBytes(ops: seq<Operation>): Bytes {
    if ops == [] then [] else OperationsBytes(ops[..|ops| - 1]) + OperationBytes(ops[|ops| - 1])
  }

  function EncodedOperation(op: Operation): Bytes { OP_MAGIC + OperationBytes(op) }

  function CountedBytes(ops: seq<Operation>): Bytes { LE(4, |ops|) + OperationsBytes(ops) }

  function EncodedBatch(ops: seq<Operation>): Bytes { BATCH_MAGIC + CountedBytes(ops) }

  function RecordBody(record: LogRecord): Bytes {
    match record
    case Fence(epoch, holder) => [1] + (LE(8, epoch) + StringBytes(holder))
    case Operations(epoch, ops) => [2] + (LE(8, epoch) + CountedBytes(ops))
  }

  function EncodedLog(record: LogRecord): Bytes { LOG_MAGIC + RecordBody(record) }

  /** What the encoders accept. */
  ghost predicate RecordEncodable(record: LogRecord) {
    match record
    case Fence(_, holder) => Short(holder)
    case Operations(_, ops) => AllEncodable(ops) && |ops| <= 0xFFFF_FFFF
  }

  /** What the decoders accept back. */
  ghost predicate RecordDecodable(record: LogRecord) {
    RecordEncodable(record) && (record.Operations? ==> |record.operations| <= 100_000)
  }

  // ----- The formats byte by byte -----

  function Number2(b: Bytes, at: nat): int
    requires at + 2 <= |b|
  {
    b[at] as int + 0x100 * (b[at + 1] as int)
  }

  function Number4(b: Bytes, at: nat): int
    requires at + 4 <= |b|
  {
    b[at] as int + 0x100 * (b[at + 1] as int) + 0x1_0000 * (b[at + 2] as int) + 0x100_0000 * (b[at + 3] as int)
  }

  function Number8(b: Bytes, at: nat): int
    requires at + 8 <= |b|
  {
    Number4(b, at) + 0x1_0000_0000 * Number4(b, at + 4)
  }

  /** A string: two bytes of length, then its bytes, up to `next`. */
  ghost predicate TextAt(b: Bytes, at: nat, s: Text, next: nat) {
    next == at + 2 + |s| && next <= |b| && Number2(b, at) == |s| && b[at + 2..next] == s
  }

  /** An operation: id, owner, SKU, then delta in two's complement and version. */
  ghost predicate OperationAt(b: Bytes, at: nat, op: Operation, next: nat) {
    var owner := at + 2 + |op.id|;
    var sku := owner + 2 + |op.owner|;
    var numbers := sku + 2 + |op.sku|;
    && next == numbers + 16 && next <= |b|
    && TextAt(b, at, op.id, owner) && TextAt(b, owner, op.owner, sku) && TextAt(b, sku, op.sku, numbers)
    && (Number8(b, numbers) - op.delta) % 0x1_0000_0000_0000_0000 == 0
    && Number8(b, numbers + 8) == op.version
  }

  /** One operation after the other; `at` says where each begins. */
  ghost predicate OperationsAt(b: Bytes, ops: seq<Operation>, at: seq<nat>) {
    |at| == |ops| + 1 && forall i :: 0 <= i < |ops| ==> OperationAt(b, at[i], ops[i], at[i + 1])
  }

  ghost predicate ListAt(b: Bytes, first: nat, ops: seq<Operation>, next: nat) {
    exists at :: OperationsAt(b, ops, at) && at[0] == first && at[|ops|] == next
  }

  ghost predicate OperationLaidOut(b: Bytes, op: Operation) {
    |b| >= 4 && b[..4] == [0x57, 0x4F, 0x50, 0x31] && OperationAt(b, 4, op, |b|)
  }

  ghost predicate BatchLaidOut(b: Bytes, ops: seq<Operation>) {
    |b| >= 8 && b[..4] == [0x57, 0x42, 0x54, 0x31] && Number4(b, 4) == |ops| && ListAt(b, 8, ops, |b|)
  }

  ghost predicate RecordLaidOut(b: Bytes, record: LogRecord) {
    && |b| >= 13 && b[..4] == [0x57, 0x4C, 0x47, 0x31] && Number8(b, 5) == record.epoch
    && match record
       case Fence(_, holder) => b[4] == 1 && TextAt(b, 13, holder, |b|)
       case Operations(_, ops) => b[4] == 2 && |b| >= 17 && Number4(b, 13) == |ops| && ListAt(b, 17, ops, |b|)
  }

  lemma TwoBytes(b: Bytes)
    requires |b| == 2
    ensures FromLE(b) == Number2(b, 0)
  {
    assert b[1..][1..] == [];
    assert FromLE(b[1..]) == b[1];
  }

  lemma FourBytes(b: Bytes)
    requires |b| == 4
    ensures FromLE(b) == Number4(b, 0)
  {
    assert b[1..][1..] == b[2..] && b[2..][1..] == b[3..] && b[3..][1..] == [];
    assert FromLE(b[3..]) == b[3];
    assert FromLE(b[2..]) == b[2] as int + 256 * FromLE(b[3..]);
    assert FromLE(b[1..]) == b[1] as int + 256 * FromLE(b[2..]);
  }

  lemma EightBytes(b: Bytes)
    requires |b| == 8
    ensures FromLE(b) == Number8(b, 0)
  {
    assert b[1..][1..] == b[2..] && b[2..][1..] == b[3..] && b[3..][1..] == b[4..];
    assert FromLE(b[3..]) == b[3] as int + 256 * FromLE(b[4..]);
    assert FromLE(b[2..]) == b[2] as int + 256 * FromLE(b[3..]);
    assert FromLE(b[1..]) == b[1] as int + 256 * FromLE(b[2..]);
    FourBytes(b[4..]);
  }

  lemma NumberOf2(pre: Bytes, n: nat, post: Bytes)
    requires n < 0x1_0000
    ensures Number2(pre + (LE(2, n) + post), |pre|) == n
  {
    Widths();
    LERoundTrip(2, n);
    TwoBytes(LE(2, n));
    hide LE, FromLE;
  }

  lemma NumberOf4(pre: Bytes, n: nat, post: Bytes)
    requires n < 0x1_0000_0000
    ensures Number4(pre + (LE(4, n) + post), |pre|) == n
  {
    Widths();
    LERoundTrip(4, n);
    FourBytes(LE(4, n));
    hide LE, FromLE;
  }

  lemma NumberOf8(pre: Bytes, n: nat, post: Bytes)
    requires n < 0x1_0000_0000_0000_0000
    ensures Number8(pre + (LE(8, n) + post), |pre|) == n
  {
    Widths();
    LERoundTrip(8, n);
    EightBytes(LE(8, n));
    hide LE, FromLE;
    SameNumber8(pre, LE(8, n), post);
  }

  lemma SameNumber8(pre: Bytes, b: Bytes, post: Bytes)
    requires |b| == 8
    ensures Number8(pre + (b + post), |pre|) == Number8(b, 0)
  {
    assert forall i :: 0 <= i < 8 ==> (pre + (b + post))[|pre| + i] == b[i];
  }

  lemma TextIsAt(pre: Bytes, s: Text, post: Bytes)
    requires Short(s)
    ensures TextAt(pre + (StringBytes(s) + post), |pre|, s, |pre| + 2 + |s|)
  {
    hide LE, Number2;
    var b := pre + (StringBytes(s) + post);
    assert b == pre + (LE(2, |s|) + (s + post));
    NumberOf2(pre, |s|, s + post);
    assert b[|pre| + 2..|pre| + 2 + |s|] == s;
  }

  lemma OperationIsAt(pre: Bytes, op: Operation, post: Bytes)
    requires Encodable(op)
    ensures OperationAt(pre + (OperationBytes(op) + post), |pre|, op, |pre| + |OperationBytes(op)|)
  {
    hide LE, Number2, Number4, Number8, TextAt;
    var x, y, z, v := StringBytes(op.id), StringBytes(op.owner), StringBytes(op.sku), LE(8, op.version);
    var w := LE(8, ToUnsigned(op.delta));
    var b := pre + (OperationBytes(op) + post);
    TextIsAt(pre, op.id, y + (z + (w + v)) + post);
    TextIsAt(pre + x, op.owner, z + (w + v) + post);
    TextIsAt(pre + x + y, op.sku, (w + v) + post);
    NumberOf8(pre + x + y + z, ToUnsigned(op.delta), v + post);
    NumberOf8(pre + x + y + z + w, op.version, post);
    assert b == pre + (x + (y + (z + (w + v)) + post));
    assert b == (pre + x) + (y + (z + (w + v) + post));
    assert b == (pre + x + y) + (z + ((w + v) + post));
    assert b == (pre + x + y + z) + (w + (v + post));
    assert b == (pre + x + y + z + w) + (v + post);
  }

  lemma {:induction false} ListIsAt(pre: Bytes, ops: seq<Operation>, post: Bytes)
    requires AllEncodable(ops)
    ensures ListAt(pre + (OperationsBytes(ops) + post), |pre|, ops, |pre| + |OperationsBytes(ops)|)
  {
    hide OperationBytes, OperationAt, Encodable;
    var b := pre + (OperationsBytes(ops) + post);
    if ops == [] {
      assert OperationsAt(b, ops, [|pre|]);
    } else {
      var m := |ops| - 1;
      var before, last := OperationsBytes(ops[..m]), OperationBytes(ops[m]);
      ListIsAt(pre, ops[..m], last + post);
      assert b == pre + (before + (last + post));
      var at: seq<nat> :| OperationsAt(b, ops[..m], at) && at[0] == |pre| && at[m] == |pre| + |before|;
      OperationIsAt(pre + before, ops[m], post);
      assert b == (pre + before) + (last + post);
      var more: seq<nat> := at + [|pre| + |before| + |last|];
      forall i | 0 <= i < |ops| ensures OperationAt(b, more[i], ops[i], more[i + 1]) {
        if i < m { assert ops[..m][i] == ops[i]; }
      }
      assert OperationsAt(b, ops, more);
    }
  }

  lemma OperationLayout(op: Operation)
    requires Encodable(op)
    ensures OperationLaidOut(EncodedOperation(op), op)
  {
    hide OperationBytes, OperationAt;
    OperationIsAt(OP_MAGIC, op, []);
    assert OP_MAGIC + (OperationBytes(op) + []) == EncodedOperation(op);
  }

  lemma BatchLayout(ops: seq<Operation>)
    requires AllEncodable(ops) && |ops| <= MAX_U32
    ensures BatchLaidOut(EncodedBatch(ops), ops)
  {
    hide OperationsBytes, ListAt, LE, Number4, AllEncodable;
    var b, n := EncodedBatch(ops), LE(4, |ops|);
    NumberOf4(BATCH_MAGIC, |ops|, OperationsBytes(ops));
    ListIsAt(BATCH_MAGIC + n, ops, []);
    assert (BATCH_MAGIC + n) + (OperationsBytes(ops) + []) == b;
  }

  lemma RecordLayout(record: LogRecord)
    requires RecordEncodable(record)
    ensures RecordLaidOut(EncodedLog(record), record)
  {
    hide EncodedLog, RecordLaidOut, AllEncodable;
    match record {
      case Fence(epoch, holder) => FenceLayout(epoch, holder);
      case Operations(epoch, ops) => OperationsLayout(epoch, ops);
    }
  }

  lemma FenceLayout(epoch: U64, holder: Text)
    requires Short(holder)
    ensures RecordLaidOut(EncodedLog(Fence(epoch, holder)), Fence(epoch, holder))
  {
    StringSize(holder);
    hide TextAt, StringBytes, LE, Number8, Short;
    var pre, e, body := LOG_MAGIC + [1], LE(8, epoch), StringBytes(holder);
    RecordHead(1, epoch, body);
    Assoc(pre, e, body);
    assert body + [] == body;
    TextIsAt(pre + e, holder, []);
  }

  /** Magic, kind and epoch of a record, whatever follows. */
  lemma RecordHead(kind: byte, epoch: U64, body: Bytes)
    ensures var b := LOG_MAGIC + ([kind] + (LE(8, epoch) + body));
            && b == (LOG_MAGIC + [kind]) + (LE(8, epoch) + body)
            && |b| >= 13 && b[..4] == [0x57, 0x4C, 0x47, 0x31] && b[4] == kind && Number8(b, 5) == epoch
  {
    hide LE, Number8;
    Assoc(LOG_MAGIC, [kind], LE(8, epoch) + body);
    NumberOf8(LOG_MAGIC + [kind], epoch, body);
  }

  lemma OperationsLayout(epoch: U64, ops: seq<Operation>)
    requires AllEncodable(ops) && |ops| <= MAX_U32
    ensures RecordLaidOut(EncodedLog(Operations(epoch, ops)), Operations(epoch, ops))
  {
    hide OperationsBytes, ListAt, LE, Number4, Number8, AllEncodable;
    var pre, e, n, body := LOG_MAGIC + [2], LE(8, epoch), LE(4, |ops|), OperationsBytes(ops);
    RecordHead(2, epoch, n + body);
    Assoc(pre, e, n + body);
    NumberOf4(pre + e, |ops|, body);
    Assoc(pre + e, n, body);
    assert body + [] == body;
    ListIsAt(pre + e + n, ops, []);
  }

  lemma StringSize(s: Text)
    ensures |StringBytes(s)| == 2 + |s|
  {
  }

  // ----- Every part determines itself and what follows it -----

  lemma Assoc(a: Bytes, b: Bytes, c: Bytes)
    ensures (a + b) + c == a + (b + c)
  {
  }

  /** Four pieces appended one by one to nothing. */
  lemma Assoc4(a: Bytes, b: Bytes, c: Bytes, d: Bytes)
    ensures ((([] + a) + b) + c) + d == a + (b + (c + d))
  {
  }

  lemma SameCut(a: Bytes, s: Bytes, b: Bytes, t: Bytes)
    requires |a| == |b| && a + s == b + t
    ensures a == b && s == t
  {
    assert (a + s)[..|a|] == a && (b + t)[..|a|] == b;
    assert (a + s)[|a|..] == s && (b + t)[|a|..] == t;
  }

  lemma LEDetermines(n: nat, a: nat, s: Bytes, b: nat, t: Bytes)
    requires a < Pow256(n) && b < Pow256(n) && LE(n, a) + s == LE(n, b) + t
    ensures a == b && s == t
  {
    hide LE;
    SameCut(LE(n, a), s, LE(n, b), t);
    LERoundTrip(n, a);
    LERoundTrip(n, b);
  }

  lemma StringDetermines(a: Text, s: Bytes, b: Text, t: Bytes)
    requires Short(a) && Short(b) && StringBytes(a) + s == StringBytes(b) + t
    ensures a == b && s == t
  {
    hide LE, Utf8;
    Widths();
    Assoc(LE(2, |a|), a, s);
    Assoc(LE(2, |b|), b, t);
    LEDetermines(2, |a|, a + s, |b|, b + t);
    SameCut(a, s, b, t);
  }

  lemma StringStarts(n: nat, behind: Bytes, v: Text, t: Bytes)
    requires n < Pow256(2) && Short(v) && LE(2, n) + behind == StringBytes(v) + t
    ensures n == |v| <= |behind| && behind[..n] == v
  {
    hide LE, Utf8;
    Widths();
    Assoc(LE(2, |v|), v, t);
    LEDetermines(2, n, behind, |v|, v + t);
  }

  lemma NumbersDetermine(a: Operation, s: Bytes, b: Operation, t: Bytes)
    requires NumbersBytes(a) + s == NumbersBytes(b) + t
    ensures a.delta == b.delta && a.version == b.version && s == t
  {
    hide LE;
    Widths();
    var da, va, db, vb := LE(8, ToUnsigned(a.delta)), LE(8, a.version), LE(8, ToUnsigned(b.delta)), LE(8, b.version);
    Assoc(da, va, s);
    Assoc(db, vb, t);
    LEDetermines(8, ToUnsigned(a.delta), va + s, ToUnsigned(b.delta), vb + t);
    LEDetermines(8, a.version, s, b.version, t);
  }

  lemma Regroup(a: Bytes, b: Bytes, c: Bytes, d: Bytes, s: Bytes)
    ensures (a + (b + (c + d))) + s == a + (b + (c + (d + s)))
  {
  }

  lemma OperationDetermines(a: Operation, s: Bytes, b: Operation, t: Bytes)
    requires Encodable(a) && Encodable(b) && OperationBytes(a) + s == OperationBytes(b) + t
    ensures a == b && s == t
  {
    hide StringBytes, NumbersBytes, LE;
    var ra, rb := NumbersBytes(a) + s, NumbersBytes(b) + t;
    var ka, kb := StringBytes(a.sku) + ra, StringBytes(b.sku) + rb;
    Regroup(StringBytes(a.id), StringBytes(a.owner), StringBytes(a.sku), NumbersBytes(a), s);
    Regroup(StringBytes(b.id), StringBytes(b.owner), StringBytes(b.sku), NumbersBytes(b), t);
    StringDetermines(a.id, StringBytes(a.owner) + ka, b.id, StringBytes(b.owner) + kb);
    StringDetermines(a.owner, ka, b.owner, kb);
    StringDetermines(a.sku, ra, b.sku, rb);
    NumbersDetermine(a, s, b, t);
  }

  lemma {:induction false} OperationsDetermine(a: seq<Operation>, s: Bytes, b: seq<Operation>, t: Bytes)
    requires |a| == |b| && AllEncodable(a) && AllEncodable(b)
    requires OperationsBytes(a) + s == OperationsBytes(b) + t
    ensures a == b && s == t
  {
    hide OperationBytes;
    if a != [] {
      var m := |a| - 1;
      var x, y := OperationBytes(a[m]), OperationBytes(b[m]);
      Assoc(OperationsBytes(a[..m]), x, s);
      Assoc(OperationsBytes(b[..m]), y, t);
      OperationsDetermine(a[..m], x + s, b[..m], y + t);
      OperationDetermines(a[m], s, b[m], t);
      assert a == a[..m] + [a[m]] && b == b[..m] + [b[m]];
    } else {
      assert [] + s == s && [] + t == t;
    }
  }

  lemma CountedDetermines(a: seq<Operation>, s: Bytes, b: seq<Operation>, t: Bytes)
    requires AllEncodable(a) && AllEncodable(b) && |a| <= MAX_U32 && |b| <= MAX_U32
    requires CountedBytes(a) + s == CountedBytes(b) + t
    ensures a == b && s == t
  {
    hide OperationsBytes, LE;
    Widths();
    Assoc(LE(4, |a|), OperationsBytes(a), s);
    Assoc(LE(4, |b|), OperationsBytes(b), t);
    LEDetermines(4, |a|, OperationsBytes(a) + s, |b|, OperationsBytes(b) + t);
    OperationsDetermine(a, s, b, t);
  }

  lemma {:induction false} OperationsSplit(a: seq<Operation>, b: seq<Operation>)
    ensures OperationsBytes(a + b) == OperationsBytes(a) + OperationsBytes(b)
  {
    hide OperationBytes;
    if b == [] {
      assert a + b == a;
    } else {
      var m := |b| - 1;
      assert (a + b)[..|a + b| - 1] == a + b[..m];
      OperationsSplit(a, b[..m]);
    }
  }

  lemma OneOperation(op: Operation)
    ensures OperationsBytes([op]) == OperationBytes(op)
  {
    hide OperationBytes;
    assert [op][..0] == [];
    assert OperationsBytes([op]) == [] + OperationBytes(op);
  }

  lemma SplitAt(ops: seq<Operation>, i: nat)
    requires i < |ops|
    ensures ops == ops[..i] + ([ops[i]] + ops[i + 1..])
  {
  }

  lemma NextOperation(ops: seq<Operation>, i: nat)
    requires i < |ops|
    ensures OperationsBytes(ops) == OperationsBytes(ops[..i]) + (OperationBytes(ops[i]) + OperationsBytes(ops[i + 1..]))
  {
    hide OperationBytes, OperationsBytes;
    var before, one, after := ops[..i], [ops[i]], ops[i + 1..];
    SplitAt(ops, i);
    OperationsSplit(before, one + after);
    OperationsSplit(one, after);
    OneOperation(ops[i]);
  }

  // ----- No valid encoding is a prefix of another -----

  /** The format is a prefix code: equal encodings with anything behind them mean equal
      operations, so neither a proper prefix nor an extension of one decodes. */
  lemma EncodingsArePrefixFree(a: Operation, b: Operation, tail: Bytes)
    requires Encodable(a) && Encodable(b) && EncodedOperation(a) + tail == EncodedOperation(b)
    ensures a == b && tail == []
  {
    hide OperationBytes;
    assert EncodedOperation(a) + tail == OP_MAGIC + (OperationBytes(a) + tail);
    assert (OP_MAGIC + (OperationBytes(a) + tail))[4..] == OperationBytes(a) + tail;
    assert EncodedOperation(b)[4..] == OperationBytes(b) + [];
    OperationDetermines(a, tail, b, []);
  }

  lemma BatchesArePrefixFree(a: seq<Operation>, b: seq<Operation>, tail: Bytes)
    requires AllEncodable(a) && AllEncodable(b) && |a| <= MAX_U32 && |b| <= MAX_U32
    requires EncodedBatch(a) + tail == EncodedBatch(b)
    ensures a == b && tail == []
  {
    hide CountedBytes;
    assert (EncodedBatch(a) + tail)[4..] == CountedBytes(a) + tail;
    assert EncodedBatch(b)[4..] == CountedBytes(b) + [];
    CountedDetermines(a, tail, b, []);
  }

  /** A record body is a kind, an epoch and a payload. */
  function Payload(record: LogRecord): Bytes {
    match record
    case Fence(_, holder) => StringBytes(holder)
    case Operations(_, ops) => CountedBytes(ops)
  }

  lemma BodyParts(record: LogRecord, tail: Bytes)
    ensures (RecordBody(record) + tail)[0] == if record.Fence? then 1 else 2
    ensures (RecordBody(record) + tail)[1..] == LE(8, record.epoch) + (Payload(record) + tail)
  {
    hide CountedBytes, StringBytes, LE;
  }

  lemma BodyDetermines(a: LogRecord, s: Bytes, b: LogRecord, t: Bytes)
    requires RecordEncodable(a) && RecordEncodable(b) && RecordBody(a) + s == RecordBody(b) + t
    ensures a == b && s == t
  {
    hide CountedBytes, StringBytes, LE, AllEncodable, RecordBody;
    Widths();
    BodyParts(a, s);
    BodyParts(b, t);
    LEDetermines(8, a.epoch, Payload(a) + s, b.epoch, Payload(b) + t);
    if a.Fence? {
      StringDetermines(a.holder, s, b.holder, t);
    } else {
      CountedDetermines(a.operations, s, b.operations, t);
    }
  }

  lemma RecordsArePrefixFree(a: LogRecord, b: LogRecord, tail: Bytes)
    requires RecordEncodable(a) && RecordEncodable(b) && EncodedLog(a) + tail == EncodedLog(b)
    ensures a == b && tail == []
  {
    hide RecordBody;
    assert (EncodedLog(a) + tail)[4..] == RecordBody(a) + tail;
    assert EncodedLog(b)[4..] == RecordBody(b) + [];
    BodyDetermines(a, tail, b, []);
  }

  // ----- The encoder -----

  /** A `Vec<u8>` being appended to. */
  class Buffer {
    var data: Bytes

    constructor ()
      ensures data == []
    {
      data := [];
    }

    method Push(bytes: Bytes)
      modifies this
      ensures data == old(data) + bytes
    {
      data := data + bytes;
    }

    /** put_u32: refuses what does not fit. */
    method PutU32(value: nat) returns (ok: bool)
      modifies this
      ensures ok <==> value <= MAX_U32
      ensures ok ==> data == old(data) + LE(4, value)
    {
      if value > MAX_U32 { return false; }
      Push(LE(4, value));
      ok := true;
    }

    /** put_string: refuses strings longer than a u16 can count. */
    method PutString(value: Text) returns (ok: bool)
      modifies this
      ensures ok <==> Short(value)
      ensures ok ==> data == old(data) + StringBytes(value)
    {
      if |value| > MAX_U16 { return false; }
      Push(LE(2, |value|));
      Push(value);
      ok := true;
    }

    /** put_operation. */
    method PutOperation(op: Operation) returns (ok: bool)
      modifies this
      ensures ok <==> Encodable(op)
      ensures ok ==> data == old(data) + OperationBytes(op)
    {
      hide StringBytes, LE;
      ok := PutString(op.id);
      if !ok { return; }
      ok := PutString(op.owner);
      if !ok { return; }
      ok := PutString(op.sku);
      if !ok { return; }
      Push(LE(8, ToUnsigned(op.delta)));
      Push(LE(8, op.version));
    }

    /** The count and the loop that batches and log records share. */
    method PutOperations(ops: seq<Operation>) returns (ok: bool)
      modifies this
      ensures ok <==> |ops| <= 0xFFFF_FFFF && AllEncodable(ops)
      ensures ok ==> data == old(data) + CountedBytes(ops)
    {
      hide OperationBytes, LE;
      ok := PutU32(|ops|);
      if !ok { return; }
      ghost var start := data;
      for i := 0 to |ops|
        invariant data == start + OperationsBytes(ops[..i])
        invariant AllEncodable(ops[..i])
      {
        var put := PutOperation(ops[i]);
        if !put { return false; }
        assert ops[..i + 1][..i] == ops[..i];
      }
      assert ops[..|ops|] == ops;
    }
  }

  method EncodeOperation(op: Operation) returns (r: Result<Bytes>)
    ensures r.Ok? <==> Encodable(op)
    ensures r.Ok? ==> r.value == EncodedOperation(op) && OperationLaidOut(r.value, op)
  {
    hide OperationBytes, OperationAt;
    if Encodable(op) { OperationLayout(op); }
    var out := new Buffer();
    out.Push(OP_MAGIC);
    var ok := out.PutOperation(op);
    r := if ok then Ok(out.data) else Err;
  }

  method EncodeBatch(ops: seq<Operation>) returns (r: Result<Bytes>)
    ensures r.Ok? <==> |ops| <= 0xFFFF_FFFF && AllEncodable(ops)
    ensures r.Ok? ==> r.value == EncodedBatch(ops) && BatchLaidOut(r.value, ops)
  {
    hide CountedBytes, BatchLaidOut;
    if AllEncodable(ops) && |ops| <= MAX_U32 { BatchLayout(ops); }
    var out := new Buffer();
    out.Push(BATCH_MAGIC);
    var ok := out.PutOperations(ops);
    r := if ok then Ok(out.data) else Err;
  }

  method EncodeLogOperations(epoch: U64, ops: seq<Operation>) returns (r: Result<Bytes>)
    ensures r.Ok? <==> RecordEncodable(Operations(epoch, ops))
    ensures r.Ok? ==> r.value == EncodedLog(Operations(epoch, ops)) && RecordLaidOut(r.value, Operations(epoch, ops))
  {
    hide CountedBytes, LE, AllEncodable, RecordLaidOut;
    if AllEncodable(ops) && |ops| <= MAX_U32 { RecordLayout(Operations(epoch, ops)); }
    var out := new Buffer();
    out.Push(LOG_MAGIC);
    out.Push([2]);
    out.Push(LE(8, epoch));
    var ok := out.PutOperations(ops);
    Assoc4(LOG_MAGIC, [2], LE(8, epoch), CountedBytes(ops));
    r := if ok then Ok(out.data) else Err;
  }

  method EncodeLogFence(epoch: U64, holder: Text) returns (r: Result<Bytes>)
    ensures r.Ok? <==> Short(holder)
    ensures r.Ok? ==> r.value == EncodedLog(Fence(epoch, holder)) && RecordLaidOut(r.value, Fence(epoch, holder))
  {
    hide StringBytes, LE, RecordLaidOut;
    if Short(holder) { RecordLayout(Fence(epoch, holder)); }
    var out := new Buffer();
    out.Push(LOG_MAGIC);
    out.Push([1]);
    out.Push(LE(8, epoch));
    var ok := out.PutString(holder);
    Assoc4(LOG_MAGIC, [1], LE(8, epoch), StringBytes(holder));
    r := if ok then Ok(out.data) else Err;
  }

  // ----- The reader -----

  ghost predicate NoString(b: Bytes) {
    forall v: Text, t: Bytes :: Short(v) ==> b != StringBytes(v) + t
  }

  ghost predicate NoOperation(b: Bytes) {
    forall v: Operation, t: Bytes :: Encodable(v) ==> b != OperationBytes(v) + t
  }

  ghost predicate NoOperations(b: Bytes) {
    forall v: seq<Operation>, t: Bytes :: AllEncodable(v) && |v| <= MAX_COUNT ==> b != CountedBytes(v) + t
  }

  /** Whatever fails first, no operation starts here. */
  lemma NoFirstString(b: Bytes)
    requires NoString(b)
    ensures NoOperation(b)
  {
    hide StringBytes, NumbersBytes;
    forall v: Operation, t: Bytes | Encodable(v) ensures b != OperationBytes(v) + t {
      Regroup(StringBytes(v.id), StringBytes(v.owner), StringBytes(v.sku), NumbersBytes(v), t);
    }
  }

  lemma NoSecondString(id: Text, b: Bytes)
    requires Short(id) && NoString(b)
    ensures NoOperation(StringBytes(id) + b)
  {
    hide StringBytes, NumbersBytes;
    forall v: Operation, t: Bytes | Encodable(v) ensures StringBytes(id) + b != OperationBytes(v) + t {
      Regroup(StringBytes(v.id), StringBytes(v.owner), StringBytes(v.sku), NumbersBytes(v), t);
      if StringBytes(id) + b == OperationBytes(v) + t {
        StringDetermines(id, b, v.id, StringBytes(v.owner) + (StringBytes(v.sku) + (NumbersBytes(v) + t)));
      }
    }
  }

  lemma NoThirdString(id: Text, owner: Text, b: Bytes)
    requires Short(id) && Short(owner) && NoString(b)
    ensures NoOperation(StringBytes(id) + (StringBytes(owner) + b))
  {
    hide StringBytes, NumbersBytes;
    var rest := StringBytes(owner) + b;
    forall v: Operation, t: Bytes | Encodable(v) ensures StringBytes(id) + rest != OperationBytes(v) + t {
      Regroup(StringBytes(v.id), StringBytes(v.owner), StringBytes(v.sku), NumbersBytes(v), t);
      if StringBytes(id) + rest == OperationBytes(v) + t {
        var behind := StringBytes(v.sku) + (NumbersBytes(v) + t);
        StringDetermines(id, rest, v.id, StringBytes(v.owner) + behind);
        StringDetermines(owner, b, v.owner, behind);
      }
    }
  }

  lemma NoNumbers(id: Text, owner: Text, sku: Text, b: Bytes)
    requires Short(id) && Short(owner) && Short(sku) && |b| < 16
    ensures NoOperation(StringBytes(id) + (StringBytes(owner) + (StringBytes(sku) + b)))
  {
    hide StringBytes;
    var mid := StringBytes(sku) + b;
    var rest := StringBytes(owner) + mid;
    forall v: Operation, t: Bytes | Encodable(v) ensures StringBytes(id) + rest != OperationBytes(v) + t {
      Regroup(StringBytes(v.id), StringBytes(v.owner), StringBytes(v.sku), NumbersBytes(v), t);
      var last := NumbersBytes(v) + t;
      assert |last| >= 16;
      if StringBytes(id) + rest == OperationBytes(v) + t {
        StringDetermines(id, rest, v.id, StringBytes(v.owner) + (StringBytes(v.sku) + last));
        StringDetermines(owner, mid, v.owner, StringBytes(v.sku) + last);
        StringDetermines(sku, b, v.sku, last);
      }
    }
  }

  lemma OperationAssembles(op: Operation, rest: Bytes)
    ensures StringBytes(op.id) + (StringBytes(op.owner) + (StringBytes(op.sku)
            + (LE(8, ToUnsigned(op.delta)) + (LE(8, op.version) + rest)))) == OperationBytes(op) + rest
  {
    hide StringBytes, LE;
    Regroup(StringBytes(op.id), StringBytes(op.owner), StringBytes(op.sku), NumbersBytes(op), rest);
    assert NumbersBytes(op) + rest == LE(8, ToUnsigned(op.delta)) + (LE(8, op.version) + rest);
  }

  class Reader {
    const data: Bytes
    var cursor: nat

    constructor (data: Bytes)
      ensures this.data == data && cursor == 0
    {
      this.data, cursor := data, 0;
    }

    ghost predicate Valid()
      reads this
    {
      cursor <= |data|
    }

    /** What is still to be read. */
    ghost function Rest(): Bytes
      requires Valid()
      reads this
    {
      data[cursor..]
    }

    method Take(n: nat) returns (r: Result<Bytes>)
      requires Valid()
      modifies this`cursor
      ensures Valid()
      ensures if n <= |old(Rest())| then r.Ok? && |r.value| == n && old(Rest()) == r.value + Rest()
              else r.Err? && cursor == old(cursor)
    {
      var end := cursor + n;
      if end > |data| { return Err; }
      r := Ok(data[cursor..end]);
      cursor := end;
    }

    /** from_le_bytes on the next `n` bytes. */
    method Number(n: nat) returns (r: Result<nat>)
      requires Valid()
      modifies this`cursor
      ensures Valid()
      ensures if n <= |old(Rest())| then r.Ok? && r.value < Pow256(n) && old(Rest()) == LE(n, r.value) + Rest()
              else r.Err?
    {
      var taken := Take(n);
      match taken {
        case Err => return Err;
        case Ok(bytes) =>
          FromLERoundTrip(bytes);
          return Ok(FromLE(bytes));
      }
    }

    method ReadU64() returns (r: Result<U64>)
      requires Valid()
      modifies this`cursor
      ensures Valid()
      ensures if 8 <= |old(Rest())| then r.Ok? && old(Rest()) == LE(8, r.value) + Rest() else r.Err?
    {
      Widths();
      var n := Number(8);
      r := if n.Ok? then Ok(n.value) else Err;
    }

    method ReadI64() returns (r: Result<I64>)
      requires Valid()
      modifies this`cursor
      ensures Valid()
      ensures if 8 <= |old(Rest())| then r.Ok? && old(Rest()) == LE(8, ToUnsigned(r.value)) + Rest() else r.Err?
    {
      var n := ReadU64();
      r := if n.Ok? then Ok(ToSigned(n.value)) else Err;
    }

    /** A count, refused above 100,000. */
    method ReadCount() returns (r: Result<nat>)
      requires Valid()
      modifies this`cursor
      ensures Valid()
      ensures r.Ok? ==> r.value <= MAX_COUNT && old(Rest()) == LE(4, r.value) + Rest()
      ensures r.Err? ==> forall n: nat, t: Bytes :: n <= MAX_COUNT ==> old(Rest()) != LE(4, n) + t
    {
      Widths();
      var n := Number(4);
      if n.Ok? && n.value <= MAX_COUNT { return n; }
      r := Err;
      ghost var before := old(Rest());
      forall m: nat, t: Bytes | m <= MAX_COUNT ensures before != LE(4, m) + t {
        if before == LE(4, m) + t {
          LEDetermines(4, n.value, Rest(), m, t);
        }
      }
    }

    method ReadString() returns (r: Result<Text>)
      requires Valid()
      modifies this`cursor
      ensures Valid()
      ensures r.Ok? ==> Short(r.value) && old(Rest()) == StringBytes(r.value) + Rest()
      ensures r.Err? ==> NoString(old(Rest()))
    {
      Widths();
      var n := Number(2);
      if n.Err? {
        return Err;
      }
      ghost var behind := Rest();
      var taken := Take(n.value);
      if taken.Ok? && Utf8(taken.value) {
        return Ok(taken.value);
      }
      r := Err;
      forall v: Text, t: Bytes | Short(v) ensures old(Rest()) != StringBytes(v) + t {
        if old(Rest()) == StringBytes(v) + t {
          StringStarts(n.value, behind, v, t);
        }
      }
    }

    method ReadOperation() returns (r: Result<Operation>)
      requires Valid()
      modifies this`cursor
      ensures Valid()
      ensures r.Ok? ==> Encodable(r.value) && old(Rest()) == OperationBytes(r.value) + Rest()
      ensures r.Err? ==> NoOperation(old(Rest()))
    {
      hide StringBytes, LE, OperationBytes, NoOperation, NoString, Utf8;
      ghost var b0 := Rest();
      var id := ReadString();
      ghost var b1 := Rest();
      if id.Err? {
        NoFirstString(b0);
        return Err;
      }
      var owner := ReadString();
      ghost var b2 := Rest();
      if owner.Err? {
        NoSecondString(id.value, b1);
        return Err;
      }
      var sku := ReadString();
      ghost var b3 := Rest();
      if sku.Err? {
        NoThirdString(id.value, owner.value, b2);
        return Err;
      }
      var delta := ReadI64();
      ghost var b4 := Rest();
      if delta.Err? {
        NoNumbers(id.value, owner.value, sku.value, b3);
        return Err;
      }
      var version := ReadU64();
      if version.Err? {
        NoNumbers(id.value, owner.value, sku.value, b3);
        return Err;
      }
      r := Ok(Operation(id.value, owner.value, sku.value, delta.value, version.value));
      OperationAssembles(r.value, Rest());
    }

    /** The count and the loop that batches and log records share. */
    method ReadOperations() returns (r: Result<seq<Operation>>)
      requires Valid()
      modifies this`cursor
      ensures Valid()
      ensures r.Ok? ==> |r.value| <= 100_000 && AllEncodable(r.value) && old(Rest()) == CountedBytes(r.value) + Rest()
      ensures r.Err? ==> NoOperations(old(Rest()))
    {
      hide OperationBytes, NoOperation, NoOperations, LE;
      ghost var b0 := Rest();
      var count := ReadCount();
      if count.Err? {
        NoCount(b0);
        return Err;
      }
      ghost var b1 := Rest();
      var result := [];
      for i := 0 to count.value
        invariant Valid() && |result| == i
        invariant AllEncodable(result)
        invariant b1 == OperationsBytes(result) + Rest()
      {
        ghost var before := Rest();
        var op := ReadOperation();
        if op.Err? {
          NoLaterOperation(count.value, result, before);
          return Err;
        }
        OperationsGrow(result, op.value, Rest());
        result := result + [op.value];
      }
      r := Ok(result);
      Assoc(LE(4, count.value), OperationsBytes(result), Rest());
    }

    /** done: nothing may be left. */
    method Done() returns (ok: bool)
      requires Valid()
      ensures ok <==> Rest() == []
    {
      ok := cursor == |data|;
    }
  }

  lemma OperationsGrow(ops: seq<Operation>, op: Operation, rest: Bytes)
    ensures OperationsBytes(ops) + (OperationBytes(op) + rest) == OperationsBytes(ops + [op]) + rest
  {
    hide OperationBytes;
    assert (ops + [op])[..|ops|] == ops;
  }

  lemma NoCount(b: Bytes)
    requires forall n: nat, t: Bytes :: n <= MAX_COUNT ==> b != LE(4, n) + t
    ensures NoOperations(b)
  {
    hide OperationsBytes, LE;
    forall v: seq<Operation>, t: Bytes | AllEncodable(v) && |v| <= MAX_COUNT ensures b != CountedBytes(v) + t {
      Assoc(LE(4, |v|), OperationsBytes(v), t);
    }
  }

  lemma NoLaterOperation(count: nat, read: seq<Operation>, b: Bytes)
    requires |read| < count <= MAX_COUNT && AllEncodable(read) && NoOperation(b)
    ensures NoOperations(LE(4, count) + (OperationsBytes(read) + b))
  {
    hide OperationBytes, OperationsBytes, LE;
    Widths();
    var all := OperationsBytes(read) + b;
    forall v: seq<Operation>, t: Bytes | AllEncodable(v) && |v| <= MAX_COUNT && LE(4, count) + all == CountedBytes(v) + t
      ensures false
    {
      Assoc(LE(4, |v|), OperationsBytes(v), t);
      LEDetermines(4, count, all, |v|, OperationsBytes(v) + t);
      var i := |read|;
      NextOperation(v, i);
      var behind := OperationBytes(v[i]) + (OperationsBytes(v[i + 1..]) + t);
      Assoc(OperationsBytes(v[..i]), OperationBytes(v[i]) + OperationsBytes(v[i + 1..]), t);
      Assoc(OperationBytes(v[i]), OperationsBytes(v[i + 1..]), t);
      OperationsDetermine(read, b, v[..i], behind);
    }
  }

  // ----- The decoders -----

  predicate StartsWith(data: Bytes, magic: Bytes) { magic <= data }

  /** decode_operation: succeeds on encodings and on nothing else. */
  method DecodeOperation(data: Bytes) returns (r: Result<Operation>)
    ensures r.Ok? ==> Encodable(r.value) && data == EncodedOperation(r.value) && OperationLaidOut(data, r.value)
    ensures r.Err? ==> forall op :: Encodable(op) ==> data != EncodedOperation(op)
  {
    hide OperationBytes, NoOperation, Encodable, OperationLaidOut;
    if !StartsWith(data, OP_MAGIC) { return Err; }
    var reader := new Reader(data[4..]);
    assert data == OP_MAGIC + data[4..] && reader.Rest() == data[4..];
    var op := reader.ReadOperation();
    if op.Err? {
      NotThisOperation(data);
      return Err;
    }
    var done := reader.Done();
    if done {
      assert OperationBytes(op.value) + [] == OperationBytes(op.value);
      OperationLayout(op.value);
      return op;
    }
    TrailingBytes(op.value, reader.Rest());
    r := Err;
  }

  lemma TrailingBytes(op: Operation, rest: Bytes)
    requires Encodable(op) && rest != []
    ensures forall other :: Encodable(other) ==> OP_MAGIC + (OperationBytes(op) + rest) != EncodedOperation(other)
  {
    hide OperationBytes, Encodable;
    Assoc(OP_MAGIC, OperationBytes(op), rest);
    forall other | Encodable(other) ensures EncodedOperation(op) + rest != EncodedOperation(other) {
      if EncodedOperation(op) + rest == EncodedOperation(other) { EncodingsArePrefixFree(op, other, rest); }
    }
  }

  lemma NotThisOperation(data: Bytes)
    requires |data| >= 4 && NoOperation(data[4..])
    ensures forall op :: Encodable(op) ==> data != EncodedOperation(op)
  {
    hide OperationBytes;
    forall op | Encodable(op) ensures data != EncodedOperation(op) {
      assert EncodedOperation(op)[4..] == OperationBytes(op) + [];
    }
  }

  /** decode_batch. */
  method DecodeBatch(data: Bytes) returns (r: Result<seq<Operation>>)
    ensures r.Ok? ==> AllEncodable(r.value) && |r.value| <= 100_000 && data == EncodedBatch(r.value) && BatchLaidOut(data, r.value)
    ensures r.Err? ==> forall ops :: AllEncodable(ops) && |ops| <= 100_000 ==> data != EncodedBatch(ops)
  {
    hide CountedBytes, NoOperations, AllEncodable, BatchLaidOut;
    if !StartsWith(data, BATCH_MAGIC) { return Err; }
    var reader := new Reader(data[4..]);
    assert data == BATCH_MAGIC + data[4..] && reader.Rest() == data[4..];
    r := reader.ReadOperations();
    if r.Err? {
      NotThisBatch(data);
      return;
    }
    var done := reader.Done();
    if done {
      assert CountedBytes(r.value) + [] == CountedBytes(r.value);
      BatchLayout(r.value);
      return;
    }
    ghost var read, rest := r.value, reader.Rest();
    Assoc(BATCH_MAGIC, CountedBytes(read), rest);
    forall other | AllEncodable(other) && |other| <= MAX_COUNT ensures data != EncodedBatch(other) {
      if data == EncodedBatch(other) { BatchesArePrefixFree(read, other, rest); }
    }
    r := Err;
  }

  lemma NotThisBatch(data: Bytes)
    requires |data| >= 4 && NoOperations(data[4..])
    ensures forall ops :: AllEncodable(ops) && |ops| <= MAX_COUNT ==> data != EncodedBatch(ops)
  {
    hide CountedBytes, AllEncodable;
    forall ops | AllEncodable(ops) && |ops| <= MAX_COUNT ensures data != EncodedBatch(ops) {
      assert EncodedBatch(ops)[4..] == CountedBytes(ops) + [];
    }
  }

  ghost predicate NoRecord(b: Bytes) {
    forall v: LogRecord, t: Bytes :: RecordDecodable(v) ==> b != RecordBody(v) + t
  }

  /** Kind, epoch and payload of a record body cannot be read. */
  lemma NoRecordHere(b: Bytes)
    requires |b| < 9 || (b[0] == 1 && NoString(b[9..])) || (b[0] == 2 && NoOperations(b[9..])) || !(1 <= b[0] <= 2)
    ensures NoRecord(b)
  {
    hide StringBytes, CountedBytes, AllEncodable;
    forall v: LogRecord, t: Bytes | RecordDecodable(v) ensures b != RecordBody(v) + t {
      hide LE, RecordBody;
      PayloadStarts(v, t);
    }
  }

  lemma PayloadStarts(record: LogRecord, tail: Bytes)
    ensures var b := RecordBody(record) + tail;
            |b| >= 9 && b[0] == (if record.Fence? then 1 else 2) && b[9..] == Payload(record) + tail
  {
    hide StringBytes, CountedBytes, LE;
    BodyParts(record, tail);
    var b := RecordBody(record) + tail;
    assert b[9..] == b[1..][8..];
  }

  lemma BodyAssembles(record: LogRecord, rest: Bytes)
    ensures [if record.Fence? then 1 else 2] + (LE(8, record.epoch) + (Payload(record) + rest)) == RecordBody(record) + rest
  {
    hide StringBytes, CountedBytes, LE;
  }

  /** decode_log behind the magic. */
  method ReadRecord(reader: Reader) returns (r: Result<LogRecord>)
    requires reader.Valid()
    modifies reader`cursor
    ensures reader.Valid()
    ensures r.Ok? ==> RecordDecodable(r.value) && old(reader.Rest()) == RecordBody(r.value) + reader.Rest()
    ensures r.Err? ==> NoRecord(old(reader.Rest()))
  {
    hide StringBytes, CountedBytes, LE, AllEncodable, NoString, NoOperations, NoRecord;
    ghost var b := reader.Rest();
    var kind := reader.Take(1);
    if kind.Err? {
      NoRecordHere(b);
      return Err;
    }
    var epoch := reader.ReadU64();
    if epoch.Err? {
      NoRecordHere(b);
      return Err;
    }
    assert b[9..] == reader.Rest();
    if kind.value[0] == 1 {
      var holder := reader.ReadString();
      if holder.Err? {
        NoRecordHere(b);
        return Err;
      }
      r := Ok(Fence(epoch.value, holder.value));
    } else if kind.value[0] == 2 {
      var ops := reader.ReadOperations();
      if ops.Err? {
        NoRecordHere(b);
        return Err;
      }
      r := Ok(Operations(epoch.value, ops.value));
    } else {
      NoRecordHere(b);
      return Err;
    }
    BodyAssembles(r.value, reader.Rest());
    assert kind.value == [kind.value[0]];
  }

  method DecodeLog(data: Bytes) returns (r: Result<LogRecord>)
    ensures r.Ok? ==> RecordDecodable(r.value) && data == EncodedLog(r.value) && RecordLaidOut(data, r.value)
    ensures r.Err? ==> forall record :: RecordDecodable(record) ==> data != EncodedLog(record)
  {
    hide RecordBody, NoRecord, AllEncodable, RecordLaidOut;
    if !StartsWith(data, LOG_MAGIC) { return Err; }
    var reader := new Reader(data[4..]);
    assert data == LOG_MAGIC + data[4..] && reader.Rest() == data[4..];
    r := ReadRecord(reader);
    if r.Err? {
      NotThisRecord(data);
      return;
    }
    var done := reader.Done();
    if done {
      assert RecordBody(r.value) + [] == RecordBody(r.value);
      RecordLayout(r.value);
      return;
    }
    ghost var read, rest := r.value, reader.Rest();
    Assoc(LOG_MAGIC, RecordBody(read), rest);
    forall other | RecordDecodable(other) ensures data != EncodedLog(other) {
      if data == EncodedLog(other) { RecordsArePrefixFree(read, other, rest); }
    }
    r := Err;
  }

  lemma NotThisRecord(data: Bytes)
    requires |data| >= 4 && NoRecord(data[4..])
    ensures forall record :: RecordDecodable(record) ==> data != EncodedLog(record)
  {
    hide RecordBody, RecordDecodable;
    forall record | RecordDecodable(record) ensures data != EncodedLog(record) {
      assert EncodedLog(record)[4..] == RecordBody(record) + [];
    }
  }

  // ----- Decoding as a function of the bytes -----

  /** What decode_operation returns, stated without the reader: the operation these bytes
      encode, if there is one. */
  ghost function Decoded(data: Bytes): (r: Result<Operation>)
  {
    if exists op :: Encodable(op) && data == EncodedOperation(op)
    then var op :| Encodable(op) && data == EncodedOperation(op); Ok(op)
    else Err
  }

  lemma DecodedIsUnique(op: Operation)
    requires Encodable(op)
    ensures Decoded(EncodedOperation(op)) == Ok(op)
  {
    hide OperationBytes;
    var other := Decoded(EncodedOperation(op)).value;
    assert EncodedOperation(op) + [] == EncodedOperation(op);
    EncodingsArePrefixFree(op, other, []);
  }

  ghost function DecodedBatch(data: Bytes): Result<seq<Operation>> {
    if exists ops :: AllEncodable(ops) && |ops| <= MAX_COUNT && data == EncodedBatch(ops)
    then var ops :| AllEncodable(ops) && |ops| <= MAX_COUNT && data == EncodedBatch(ops); Ok(ops)
    else Err
  }

  ghost function DecodedLog(data: Bytes): Result<LogRecord> {
    if exists record :: RecordDecodable(record) && data == EncodedLog(record)
    then var record :| RecordDecodable(record) && data == EncodedLog(record); Ok(record)
    else Err
  }

  /** decode(encode(x)) == x exactly up to the count the decoder accepts: the encoder
      writes longer batches too, and none of them can be read back. */
  lemma BatchRoundTripIff(ops: seq<Operation>)
    requires AllEncodable(ops) && |ops| <= MAX_U32
    ensures DecodedBatch(EncodedBatch(ops)) == (if |ops| <= 100_000 then Ok(ops) else Err)
  {
    hide CountedBytes, AllEncodable;
    assert EncodedBatch(ops) + [] == EncodedBatch(ops);
    forall other | AllEncodable(other) && |other| <= MAX_COUNT && EncodedBatch(ops) == EncodedBatch(other)
      ensures other == ops
    {
      BatchesArePrefixFree(ops, other, []);
    }
  }

  lemma LogRoundTripIff(record: LogRecord)
    requires RecordEncodable(record)
    ensures DecodedLog(EncodedLog(record)) == (if RecordDecodable(record) then Ok(record) else Err)
  {
    hide RecordBody, AllEncodable;
    assert EncodedLog(record) + [] == EncodedLog(record);
    forall other | RecordDecodable(other) && EncodedLog(record) == EncodedLog(other)
      ensures other == record
    {
      RecordsArePrefixFree(record, other, []);
    }
  }

  // ----- What the fingerprint digests -----

  /** hash_field: a length and the bytes. */
  function Field(b: Bytes): Bytes { LE(8, |b|) + b }

  function FingerprintInput(c: Content): Bytes {
    Field(c.owner) + (Field(c.sku) + (Field(LE(8, ToUnsigned(c.delta))) + Field(LE(8, c.version))))
  }

  /** The digested bytes of an operation: owner, SKU, delta and version, each behind its
      length. */
  lemma FingerprintLayout(op: Operation)
    requires |op.owner| <= MAX_U64 && |op.sku| <= MAX_U64
    ensures var b := FingerprintInput(Fingerprint(op));
            var sku := 8 + |op.owner|;
            var numbers := sku + 8 + |op.sku|;
            && |b| == numbers + 32
            && Number8(b, 0) == |op.owner| && b[8..sku] == op.owner
            && Number8(b, sku) == |op.sku| && b[sku + 8..numbers] == op.sku
            && Number8(b, numbers) == 8 && (Number8(b, numbers + 8) - op.delta) % 0x1_0000_0000_0000_0000 == 0
            && Number8(b, numbers + 16) == 8 && Number8(b, numbers + 24) == op.version
  {
    hide LE, Number8, Utf8, Field;
    Widths();
    var d, v := LE(8, ToUnsigned(op.delta)), LE(8, op.version);
    FourFieldsAt(op.owner, op.sku, d, v);
    var b, numbers := FingerprintInput(Fingerprint(op)), 16 + |op.owner| + |op.sku|;
    NumberInSlice(b, numbers + 8, ToUnsigned(op.delta));
    NumberInSlice(b, numbers + 24, op.version);
  }

  lemma FourFieldsAt(a: Bytes, b: Bytes, c: Bytes, d: Bytes)
    requires |a| <= MAX_U64 && |b| <= MAX_U64 && |c| <= MAX_U64 && |d| <= MAX_U64
    ensures var all := Field(a) + (Field(b) + (Field(c) + Field(d)));
            var i := 8 + |a|; var j := i + 8 + |b|; var k := j + 8 + |c|;
            && |all| == k + 8 + |d|
            && Number8(all, 0) == |a| && Number8(all, i) == |b| && Number8(all, j) == |c| && Number8(all, k) == |d|
            && all[8..i] == a && all[i + 8..j] == b && all[j + 8..k] == c && all[k + 8..k + 8 + |d|] == d
  {
    hide Number8, Field;
    var x, y, z, w := Field(a), Field(b), Field(c), Field(d);
    FieldIsAt([], a, y + (z + w));
    FieldIsAt(x, b, z + w);
    FieldIsAt(x + y, c, w);
    FieldIsAt((x + y) + z, d, []);
    assert [] + (x + (y + (z + w))) == x + (y + (z + w));
    assert w + [] == w;
    Assoc(x, y, z + w);
    Assoc(x + y, z, w);
  }

  lemma NumberInSlice(b: Bytes, at: nat, n: nat)
    requires n < 0x1_0000_0000_0000_0000 && at + 8 <= |b| && b[at..at + 8] == LE(8, n)
    ensures Number8(b, at) == n
  {
    hide LE, Number8;
    NumberOf8(b[..at], n, b[at + 8..]);
    assert b == b[..at] + (b[at..at + 8] + b[at + 8..]);
  }

  lemma FieldIsAt(pre: Bytes, f: Bytes, post: Bytes)
    requires |f| <= MAX_U64
    ensures var b := pre + (Field(f) + post);
            && |Field(f)| == 8 + |f| && Number8(b, |pre|) == |f| && b[|pre| + 8..|pre| + 8 + |f|] == f
  {
    hide LE, Number8;
    Widths();
    var b := pre + (Field(f) + post);
    NumberOf8(pre, |f|, f + post);
    assert b == pre + (LE(8, |f|) + (f + post));
    assert b == (pre + LE(8, |f|)) + (f + post);
  }

  lemma FieldDetermines(a: Bytes, s: Bytes, b: Bytes, t: Bytes)
    requires |a| <= MAX_U64 && |b| <= MAX_U64 && Field(a) + s == Field(b) + t
    ensures a == b && s == t
  {
    hide LE;
    Widths();
    Assoc(LE(8, |a|), a, s);
    Assoc(LE(8, |b|), b, t);
    LEDetermines(8, |a|, a + s, |b|, b + t);
    SameCut(a, s, b, t);
  }

  /** The framing of the digested fields is injective: equal inputs mean equal contents,
      so taking the digest as a free constructor loses nothing but hash collisions. */
  lemma FingerprintInputIsInjective(a: Content, b: Content)
    requires |a.owner| <= MAX_U64 && |a.sku| <= MAX_U64 && |b.owner| <= MAX_U64 && |b.sku| <= MAX_U64
    requires FingerprintInput(a) == FingerprintInput(b)
    ensures a == b
  {
    hide Field, LE;
    Widths();
    var da, va, db, vb := LE(8, ToUnsigned(a.delta)), LE(8, a.version), LE(8, ToUnsigned(b.delta)), LE(8, b.version);
    FieldDetermines(a.owner, Field(a.sku) + (Field(da) + Field(va)), b.owner, Field(b.sku) + (Field(db) + Field(vb)));
    FieldDetermines(a.sku, Field(da) + Field(va), b.sku, Field(db) + Field(vb));
    FieldDetermines(da, Field(va), db, Field(vb));
    assert Field(va) + [] == Field(vb) + [];
    FieldDetermines(va, [], vb, []);
    assert da + [] == db + [] && va + [] == vb + [];
    LEDetermines(8, ToUnsigned(a.delta), [], ToUnsigned(b.delta), []);
    LEDetermines(8, a.version, [], b.version, []);
  }
}
