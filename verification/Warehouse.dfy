/** Where the components meet: what one of them assumes is what another proves. */
module Warehouse {
  import opened Model
  import opened ReplicatedLog
  import B = Binary
  import D = DiskIndex
  import H = History
  import K = Keyspaces
  import L = Lease
  import N = Node
  import P = Protocol
  import Q = NodeProof
  import R = Replay
  import W = Wal

  // ----- Lease and node -----

  /** A client request may apply its new operations on a node: what the node demands of the
      record behind them is what the lease guarantees after the second check. */
  lemma LeaseLetsTheNodeApply(delay: nat, steps: seq<L.Step>, end: L.State, lr: nat, s: N.Node, r: nat)
    requires delay <= 3500 && L.Reaches(L.Start(delay, false), steps, end)
    requires lr in end.reqs && end.reqs[lr].stage.Passed?
    requires s.log == end.log && r in s.p.reqs && r in s.origin
    requires s.origin[r] == N.Replicated(end.reqs[lr].stage.at) && N.NewOps(s.p.reqs[r]) == end.reqs[lr].operations
    ensures N.MayApply(s, r)
  {
    hide L.Reaches, N.NewOps, ActiveFrom;
    L.LeaseImpliesAcceptance(delay, steps, end, lr);
  }

  // ----- Codec and log -----

  /** The log as a sequence of records is what replicas really read: a validated record of
      at most 100,000 operations comes back from its bytes unchanged. */
  lemma RecordsReadBack(legacy: R.Legacy, record: LogRecord)
    requires R.AllValid(record)
    requires match record
             case Fence(_, holder) => B.Short(holder)
             case Operations(_, ops) => |ops| <= B.MAX_COUNT
    ensures R.AsRead(legacy, B.EncodedLog(record)) == record
  {
    hide Validates, B.RecordBody;
    if record.Operations? {
      forall i | 0 <= i < |record.operations| ensures B.Encodable(record.operations[i]) {
        H.ValidatedIsEncodable(record.operations[i]);
      }
    }
    B.LogRoundTripIff(record);
  }

  // ----- WAL file and node -----

  /** A crash while `more` is being written leaves, whatever the cut, a WAL that recovers
      to everything before it and a prefix of `more`: the node's crash step. */
  lemma CrashLeavesAPrefix(crc: W.Checksum, legacy: W.Legacy, wal: seq<Operation>, more: seq<Operation>, cut: nat) returns (n: nat)
    requires B.AllEncodable(wal) && B.AllEncodable(more)
    requires |W.Frames(crc, wal)| <= cut <= |W.Frames(crc, wal + more)|
    ensures n <= |more|
    ensures W.Recovers(crc, legacy, W.Frames(crc, wal + more)[..cut], wal + more[..n], |W.Frames(crc, wal + more[..n])|)
  {
    hide W.Frames, W.Recovers, B.Encodable;
    var all := wal + more;
    var m := W.TornTailRecovers(crc, legacy, all, cut);
    assert all[..|wal|] == wal;
    if m < |wal| {
      W.FramesMonotone(crc, all, m + 1, |wal|);
    }
    n := m - |wal|;
    assert all[..m] == wal + more[..n];
  }

  // ----- Log consumer and node -----

  /** catch_up moves an honest checkpoint to an honest checkpoint: the saved epoch is the
      fold of the log, and everything accepted up to it has been handed to the store. */
  lemma CatchUpKeepsHonest(log: Log, mark: N.Mark, counted: seq<Operation>, upTo: nat, saved: N.Mark,
                           restored: seq<Operation>, refused: seq<nat>)
    requires N.Honest(log, mark, counted)
    requires R.Dealt(log, mark.sequence, mark.epoch, upTo, [], restored, [], refused)
    requires saved.sequence <= upTo && R.InEpoch(log, mark.sequence, mark.epoch, saved.sequence, saved.epoch)
    ensures N.Honest(log, saved, counted + restored)
  {
    hide AcceptedFrom, ActiveFrom, R.RefusedFrom;
    R.SavedEpochsAreFolds(log, mark.sequence, saved.sequence, saved.epoch);
    R.SegmentIsAccepted(log, mark.sequence, upTo);
    R.AcceptedGrows(log, saved.sequence, upTo);
  }

  // ----- History and balances -----

  /** Once tail and history have both reached the end of the log, every balance is the sum
      of the deltas that a full scan of the history lists for its owner and SKU. */
  lemma HistoryExplainsBalances(s: N.Node, table: H.Table, epoch: U64, rows: seq<Operation>, owner: Text, sku: Text)
    requires N.Inv(s) && s.tail.Following? && s.tail.next == |s.log|
    requires R.HistoryFollows(s.log, table, |s.log|, epoch)
    requires H.Lists(rows, table, H.Everything())
    ensures Balance(s.balances, Position(owner, sku))
            == SumOver((set i: nat | i < |rows| && rows[i].owner == owner && rows[i].sku == sku), DeltaAt(rows))
  {
    hide N.Inv, R.HistoryFollows, H.Lists, SumOver;
    Q.CaughtUp(s, Position(owner, sku));
    assert ConsistentIds(Accepted(s.log)) by { LogIsConsistent(s); }
    RowsAreAccepted(s.log, table, epoch, rows);
    TotalDependsOnMembers(rows, FirstPerId(Accepted(s.log)), Position(owner, sku));
    TotalIsSum(rows, owner, sku);
  }

  lemma LogIsConsistent(s: N.Node)
    requires N.Inv(s)
    ensures ConsistentIds(Accepted(s.log))
  {
    hide P.Inv, N.Sums, N.Accounted, N.OnDisk, N.Walled, N.Honest, N.TailOk, N.OriginsOk, N.ShownOk, ConsistentIds;
  }

  lemma RowsAreAccepted(log: Log, table: H.Table, epoch: U64, rows: seq<Operation>)
    requires R.HistoryFollows(log, table, |log|, epoch) && H.Lists(rows, table, H.Everything()) && ConsistentIds(Accepted(log))
    ensures DistinctIds(rows) && DistinctIds(FirstPerId(Accepted(log)))
    ensures forall op :: op in rows <==> op in FirstPerId(Accepted(log))
  {
    hide K.Less, FirstPerId, AcceptedFrom;
    var ops := Accepted(log);
    assert log[..|log|] == log;
    FirstPerIdFacts(ops);
    R.HistoryReadsFailClosed(log, table, |log|, epoch, |log|, |log|);
    forall i, j | 0 <= i < j < |rows| ensures rows[i].id != rows[j].id {
      K.LessIsAsymmetric(rows[i].id, rows[j].id);
    }
    forall op ensures op in rows <==> op in FirstPerId(ops) {
      if op in ops {
        R.MemberHasId(ops, op);
        assert HasId(FirstPerId(ops), op.id);
        var i :| 0 <= i < |FirstPerId(ops)| && FirstPerId(ops)[i].id == op.id;
        assert FirstPerId(ops)[i] in FirstPerId(ops);
      }
    }
  }

  // ----- Disk index and protocol -----

  /** How the digests of ids place them: dedup shard and Bloom positions. */
  function PlacementOf(hash: P.Key -> D.Digest, bits: nat): P.Placement
    requires bits > 0
  {
    P.Placement(k => D.MemoryShard(hash(k)), k => D.Positions(hash(k), bits))
  }

  ghost function BitsSet(bloom: seq<bv8>): set<nat> { set b: nat | b < 8 * |bloom| && D.Bit(bloom, b) }

  /** The protocol's index is the byte array of the filter: shards are in range, and a key
      may be skipped in the one exactly if the other answers no. */
  lemma ProtocolSeesTheFilter(hash: P.Key -> D.Digest, bloom: seq<bv8>, index: P.Index, k: P.Key)
    requires |bloom| > 0 && index.bloom == BitsSet(bloom)
    ensures var place := PlacementOf(hash, 8 * |bloom|);
            && P.ShardsBounded(place)
            && (P.MayContain(place, index, k) <==> (index.ready ==> D.Maybe(bloom, hash(k))))
  {
    hide B.FromLE;
    var bits := 8 * |bloom|;
    forall j ensures D.MemoryShard(hash(j)) < P.DEDUP_SHARDS { D.MemoryShardIsLsmShard(hash(j)); }
    forall i: nat | i < 4 ensures D.BitPosition(hash(k), i, bits) in D.Positions(hash(k), bits) { }
    assert D.Maybe(bloom, hash(k)) <==> D.Positions(hash(k), bits) <= BitsSet(bloom);
  }
}
