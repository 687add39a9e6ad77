/** What the background work achieves once nothing holds it up: the persist worker empties
    its queue, the Bloom rebuild ends, the log tail counts what others wrote, and a write
    whose outcome was unclear comes back (src/state.rs, src/dedup_disk.rs, src/main.rs). */
module Progress {
  import opened Model
  import opened ReplicatedLog
  import opened Node
  import opened CompactionRuns
  import P = Protocol
  import Q = ProtocolProof
  import N = NodeProof

  // ----- The persist worker -----

  /** No request is inside a critical section. */
  ghost predicate NoLocks(p: P.State) {
    forall r :: r in p.reqs ==> !p.reqs[r].phase.Probed?
  }

  ghost predicate Queued(pairs: P.Pairs, k: P.Key) {
    exists j :: 0 <= j < |pairs| && pairs[j].0 == k
  }

  /** One protocol step that concerns nobody else. */
  lemma Moves(s0: Node, s: Node, step: P.Step)
    requires Leads(s0, s) && Inv(s) && InnerKind(step) && P.Enabled(s.p, step)
    ensures Leads(s0, s.(p := P.Apply(s.p, step))) && Inv(s.(p := P.Apply(s.p, step)))
  {
    hide Inv, Leads, P.Enabled, P.Apply;
    ExtendsInner(s0, s, step);
    N.StepKeepsInv(s, Inner(step));
  }

  /** The worker drops its batch from memory, entry by entry. */
  lemma {:induction false} ForgetsBatch(s0: Node, s: Node) returns (end: Node)
    requires Leads(s0, s) && Inv(s) && NoLocks(s.p) && s.p.worker.Removing?
    requires P.PairsCommitted(s.p.committed, s.p.worker.batch)
    ensures Leads(s0, end) && Inv(end)
    ensures end == s.(p := s.p.(worker := P.Idle, memory := end.p.memory))
    ensures forall k :: P.InMemory(end.p.memory, k) ==> P.InMemory(s.p.memory, k)
    ensures forall k :: Queued(s.p.worker.batch, k) ==> !P.InMemory(end.p.memory, k)
    ensures forall k :: !Queued(s.p.worker.batch, k) ==> Same(s.p.memory, end.p.memory, k)
    decreases |s.p.worker.batch|
  {
    hide Inv, Leads, P.Inv, P.InMemory;
    var batch := s.p.worker.batch;
    ProtocolIsGood(s);
    WorkerForgets(s.p);
    ForgetSpares(s.p);
    Moves(s0, s, P.Forget);
    var s1 := s.(p := P.Apply(s.p, P.Forget));
    if batch == [] {
      end := s1;
    } else {
      assert NoLocks(s1.p) && s1.p.reqs == s.p.reqs;
      assert forall j :: 0 <= j < |batch| - 1 ==> batch[1..][j] == batch[j + 1];
      end := ForgetsBatch(s0, s1);
      forall k ensures Queued(batch, k) <==> k == batch[0].0 || Queued(batch[1..], k) { QueuedInTail(batch, k); }
    }
  }

  ghost predicate Same(a: P.Memory, b: P.Memory, k: P.Key) {
    (k in a <==> k in b) && (k in a ==> a[k] == b[k])
  }

  lemma QueuedInTail(batch: P.Pairs, k: P.Key)
    requires batch != []
    ensures Queued(batch, k) <==> k == batch[0].0 || Queued(batch[1..], k)
  {
    if j :| 0 <= j < |batch| && batch[j].0 == k {
      assert j > 0 ==> batch[1..][j - 1].0 == k;
    }
    if j :| 0 <= j < |batch[1..]| && batch[1..][j].0 == k {
      assert batch[j + 1].0 == k;
    }
  }

  lemma ForgetSpares(p: P.State)
    requires P.Enabled(p, P.Forget)
    ensures var p' := P.Apply(p, P.Forget);
            && p' == p.(worker := p'.worker, memory := p'.memory)
            && forall k :: (p.worker.batch == [] || k != p.worker.batch[0].0) ==> Same(p.memory, p'.memory, k)
  {
    hide P.Unlocked, Utf8;
  }

  /** Whatever is queued gets to disk: the worker can take the queue, and when it is done
      every queued id is on disk with its content, in the Bloom filter and out of memory,
      and everything else is as it was. */
  lemma QueueReachesDisk(s: Node) returns (end: Node)
    requires Inv(s) && NoLocks(s.p) && s.p.worker.Idle? && s.p.queue != []
    ensures Leads(s, end) && Inv(end)
    ensures end == s.(p := s.p.(queue := [], memory := end.p.memory, index := end.p.index))
    ensures end.p.index == s.p.index.(stored := end.p.index.stored, bloom := end.p.index.bloom)
    ensures forall j :: 0 <= j < |s.p.queue| ==>
              var (k, content) := s.p.queue[j];
              && k in end.p.index.stored && end.p.index.stored[k] == content
              && s.p.place.bits(k) <= end.p.index.bloom
              && !(k in end.p.memory && end.p.memory[k].Committed?)
    ensures forall k :: !Queued(s.p.queue, k) ==>
              && (k in end.p.index.stored <==> k in s.p.index.stored)
              && (k in s.p.index.stored ==> end.p.index.stored[k] == s.p.index.stored[k])
              && (k in end.p.memory <==> k in s.p.memory) && (k in s.p.memory ==> end.p.memory[k] == s.p.memory[k])
    ensures forall b :: b in end.p.index.bloom <==>
              b in s.p.index.bloom || exists j :: 0 <= j < |s.p.queue| && b in s.p.place.bits(s.p.queue[j].0)
  {
    hide Inv, Leads, P.Inv, P.Apply, P.Enabled, P.StoredWith, P.BitsOf, P.KeysOf, P.PairsCommitted;
    var queue := s.p.queue;
    QueueIsCommitted(s);
    var s3 := WorkerWrites(s);
    end := ForgetsBatch(s, s3);
    StoredHolds(s, queue);
    BitsOfBatch(s.p.place, queue);
    forall j | 0 <= j < |queue| ensures Queued(queue, queue[j].0) && !P.InMemory(end.p.memory, queue[j].0) { }
    forall k | !Queued(queue, k) ensures Same(s.p.memory, end.p.memory, k) { }
  }

  /** The queue as one batch, up to the point where memory may let go of it. */
  ghost function Written(p: P.State): P.State {
    p.(queue := [], worker := P.Removing(p.queue),
       index := p.index.(stored := P.StoredWith(p.index.stored, p.queue),
                         bloom := p.index.bloom + P.BitsOf(p.place, P.KeysOf(p.queue))))
  }

  lemma WorkerWrites(s: Node) returns (end: Node)
    requires Inv(s) && s.p.worker.Idle? && s.p.queue != []
    ensures Leads(s, end) && Inv(end) && end == s.(p := Written(s.p))
  {
    hide Inv, Leads, P.StoredWith, P.BitsOf, P.KeysOf;
    var queue := s.p.queue;
    assert queue[..|queue|] == queue && queue[|queue|..] == [];
    LeadsNowhere(s);
    Moves(s, s, P.Take(|queue|));
    var s1 := s.(p := P.Apply(s.p, P.Take(|queue|)));
    Moves(s, s1, P.StoreBatch);
    var s2 := s1.(p := P.Apply(s1.p, P.StoreBatch));
    Moves(s, s2, P.AddBits);
    end := s2.(p := P.Apply(s2.p, P.AddBits));
  }

  lemma QueueIsCommitted(s: Node)
    requires Inv(s)
    ensures P.PairsCommitted(s.p.committed, s.p.queue)
    ensures forall k :: k in s.p.index.stored ==> k in s.p.committed && s.p.committed[k] == s.p.index.stored[k]
  {
    hide Durable, Sums, Accounted, OnDisk, Walled, Honest, TailOk, OriginsOk, ShownOk, P.RequestsOk, P.Ownership, P.Probes,
         P.Decisions, P.WakeUps, P.PairsCommitted, P.BloomSafe, P.InMemory;
  }

  lemma StoredHolds(s: Node, queue: P.Pairs)
    requires Inv(s) && P.PairsCommitted(s.p.committed, queue)
    ensures var stored := P.StoredWith(s.p.index.stored, queue);
            && (forall j :: 0 <= j < |queue| ==> queue[j].0 in stored && stored[queue[j].0] == queue[j].1)
            && forall k :: !Queued(queue, k) ==>
                 (k in stored <==> k in s.p.index.stored) && (k in stored ==> stored[k] == s.p.index.stored[k])
  {
    hide Inv, P.StoredWith;
    QueueIsCommitted(s);
    Q.StoredWithFacts(s.p.index.stored, queue, s.p.committed);
  }

  lemma BitsOfBatch(place: P.Placement, batch: P.Pairs)
    ensures forall b :: b in P.BitsOf(place, P.KeysOf(batch)) <==> exists j :: 0 <= j < |batch| && b in place.bits(batch[j].0)
    ensures forall j :: 0 <= j < |batch| ==> place.bits(batch[j].0) <= P.BitsOf(place, P.KeysOf(batch))
  {
    forall b ensures b in P.BitsOf(place, P.KeysOf(batch)) <==> exists j :: 0 <= j < |batch| && b in place.bits(batch[j].0) {
      if j :| 0 <= j < |batch| && b in place.bits(batch[j].0) {
        assert batch[j].0 in P.KeysOf(batch);
      }
    }
    forall j | 0 <= j < |batch| ensures place.bits(batch[j].0) <= P.BitsOf(place, P.KeysOf(batch)) {
      assert batch[j].0 in P.KeysOf(batch);
    }
  }

  /** A batch that the disk refuses is given up: nothing is stored, and its ids stay in
      memory, where every preflight still finds them. */
  lemma RefusedBatchStaysInMemory(s: Node, n: nat) returns (end: Node)
    requires Inv(s) && s.p.worker.Idle? && 0 < n <= |s.p.queue|
    ensures Leads(s, end) && Inv(end) && end == s.(p := s.p.(queue := s.p.queue[n..]))
  {
    hide Inv, Leads;
    LeadsNowhere(s);
    Moves(s, s, P.Take(n));
    var s1 := s.(p := P.Apply(s.p, P.Take(n)));
    Moves(s, s1, P.PersistFailed);
    end := s1.(p := P.Apply(s1.p, P.PersistFailed));
  }

  // ----- The Bloom rebuild -----

  /** The rebuild still has to visit stored keys only. */
  lemma LeftIsStored(p: P.State, step: P.Step)
    requires P.Enabled(p, step) && p.index.left <= p.index.stored.Keys
    ensures P.Apply(p, step).index.left <= P.Apply(p, step).index.stored.Keys
  {
    hide P.Decide, P.Released, P.Finished, P.NewlyCommitted, P.PairsOf, P.Group, P.AnyMark, P.Unlocked, P.Touches, P.DiskSees, P.BitsOf,
         P.KeysOf, P.StoredWith, P.BatchAgrees;
    if step.StoreBatch? { StoredGrows(p.index.stored, p.worker.batch); }
  }

  lemma {:induction false} StoredGrows(stored: map<P.Key, Content>, batch: P.Pairs)
    ensures stored.Keys <= P.StoredWith(stored, batch).Keys
  {
    if batch != [] { StoredGrows(stored, batch[..|batch| - 1]); }
  }

  /** The rebuild can always finish, and then the filter is trusted and lets every stored
      key through: it holds the bits of those keys besides what was there. */
  lemma RebuildEnds(s: Node) returns (end: Node)
    requires Inv(s) && !s.p.index.ready && s.p.index.left <= s.p.index.stored.Keys
    ensures Leads(s, end) && Inv(end)
    ensures end == s.(p := s.p.(index := end.p.index)) && end.p.index.ready && end.p.index.stored == s.p.index.stored
    ensures forall b :: b in end.p.index.bloom <==>
              b in s.p.index.bloom || b in s.p.index.image || exists k :: k in s.p.index.stored && b in s.p.place.bits(k)
  {
    hide Inv, Leads;
    LeadsNowhere(s);
    var keys := s.p.index.stored.Keys;
    Moves(s, s, P.Visit(keys));
    var s1 := s.(p := P.Apply(s.p, P.Visit(keys)));
    assert s1.p.index.left == {};
    Moves(s, s1, P.Merge);
    end := s1.(p := P.Apply(s1.p, P.Merge));
  }

  // ----- The log tail -----

  ghost predicate AllEnded(p: P.State) {
    forall r :: r in p.reqs ==> P.Ended(p.reqs[r].phase)
  }

  /** An operation that another node appends under the current epoch is counted here: the
      tail takes its record, the operation goes through preflight, WAL, balances and
      publication, and the tail is behind the record. */
  lemma ForeignRecordIsCounted(s: Node, r: nat, op: Operation) returns (end: Node)
    requires Inv(s) && AllEnded(s.p) && r !in s.p.reqs
    requires s.tail.Following? && s.tail == Following(|s.log|, s.tail.epoch, None)
    requires op.id !in s.p.memory && op.id !in s.p.index.stored
    requires ConsistentIds(Accepted(s.log + [Operations(s.tail.epoch, [op])]))
    ensures Leads(s, end) && Inv(end)
    ensures end.log == s.log + [Operations(s.tail.epoch, [op])] && end.tail == Following(|end.log|, s.tail.epoch, None)
    ensures end.wal == s.wal + [op] && end.journal == s.journal + [op] && end.balances == Add(s.balances, op)
    ensures op in end.shown && end.p.queue == s.p.queue + [(op.id, Fingerprint(op))]
    ensures op.id in end.p.memory && end.p.memory[op.id] == P.Committed(Fingerprint(op))
  {
    hide Inv, Leads, P.Enabled, P.Apply, MayApply, Accepted, ConsistentIds, Pended, Settled, Fingerprint;
    var e := s.tail.epoch;
    PlaceIsBounded(s);
    var s2 := TailTakesForeign(s, r, op);
    UnknownIdIsReserved(s, s2, r, op);
    var s3 := s2.(p := Reserved(s2.p, r, op));
    assert MayApply(s3, r) by { ReplayedMayApply(s3, r); }
    var s4 := AppliesAlone(s, s3, r, op);
    PendedMemory(s2.p, r, op);
    var s5 := CompletesAlone(s, s4, r, op);
    SettledMemory(s4.p, op);
    Extends(s, s5, TailDone);
    end := s5.(tail := Following(|s.log| + 1, e, None));
    LeadingKeepsInv(s, end);
    DoneIsShown(end, r, op);
  }

  lemma PendedMemory(p: P.State, r: nat, op: Operation)
    ensures var m := Pended(p, r, op); m == p.(memory := m.memory) && op.id in m.memory && m.memory[op.id] == P.Pending(Fingerprint(op), P.Token(r, 0))
  {
  }

  lemma SettledMemory(p: P.State, op: Operation)
    ensures var m := Settled(p, op); m == p.(memory := m.memory, committed := m.committed)
    ensures op.id in Settled(p, op).memory && Settled(p, op).memory[op.id] == P.Committed(Fingerprint(op))
  {
  }

  lemma TailTakesForeign(s: Node, r: nat, op: Operation) returns (end: Node)
    requires AllEnded(s.p) && r !in s.p.reqs
    requires s.tail.Following? && s.tail == Following(|s.log|, s.tail.epoch, None)
    requires ConsistentIds(Accepted(s.log + [Operations(s.tail.epoch, [op])]))
    ensures Leads(s, end) && OthersEnded(end.p, r)
    ensures end == s.(log := s.log + [Operations(s.tail.epoch, [op])], p := With(s.p, r, Alone(op, false, P.Preflight(0), {})),
                      origin := s.origin[r := Replayed(|s.log|)], tail := Following(|s.log|, s.tail.epoch, Some(r)))
  {
    hide Leads, P.Enabled, P.Apply, Accepted, ConsistentIds;
    var record := Operations(s.tail.epoch, [op]);
    LeadsNowhere(s);
    Extends(s, s, Foreign(record));
    var s1 := s.(log := s.log + [record]);
    BeginAlone(s1.p, r, op);
    Extends(s, s1, TailRead(r));
    end := Apply(s1, TailRead(r));
  }

  lemma PlaceIsBounded(s: Node)
    requires Inv(s)
    ensures P.ShardsBounded(s.p.place)
  {
    ProtocolIsGood(s);
    hide Inv, P.SureIsStored, P.RequestsOk, P.Ownership, P.Visibility, P.Pipeline, P.Probes, P.Decisions, P.WakeUps;
  }

  lemma LeadingKeepsInv(s: Node, end: Node)
    requires Inv(s) && Leads(s, end)
    ensures Inv(end)
  {
    hide Inv, Walk;
    var steps :| Walk(s, steps, end);
    WalkKeepsInv(s, steps, end);
  }

  lemma DoneIsShown(s: Node, r: nat, op: Operation)
    requires Inv(s) && r in s.p.reqs && s.p.reqs[r] == Alone(op, true, P.Done, {0})
    ensures op in s.shown
  {
    hide Inv;
    N.PublicationIsAtomic(s, r);
    assert s.p.reqs[r].marks[0] && s.p.reqs[r].ops[0] == op;
  }

  // ----- Appends whose outcome is unclear -----

  /** A retry that finds its record in the log already uses it: the operation is counted
      and the log stays as it is. */
  lemma IdenticalRecordServes(s: Node, r: nat, op: Operation, at: nat) returns (end: Node)
    requires Inv(s) && r in s.p.reqs && s.p.reqs[r] == Alone(op, true, P.Reserved, {}) && r in s.origin && s.origin[r].Client?
    requires at < |s.log| && s.log[at].Operations? && s.log[at].operations == [op] && Accepts(s.log, at)
    ensures Leads(s, end) && Inv(end) && end.log == s.log
    ensures end.wal == s.wal + [op] && end.journal == s.journal + [op] && end.balances == Add(s.balances, op)
  {
    hide Inv, Leads, P.Enabled, P.Apply, Accepts;
    LeadsNowhere(s);
    OneMarked(op);
    Extends(s, s, ReplicateAgain(r, at));
    var s1 := s.(origin := s.origin[r := Replicated(at)]);
    end := AppliesAlone(s, s1, r, op);
    LeadingKeepsInv(s, end);
  }

  /** An append to the WAL that reported an error may have reached the file: the request is
      refused and its reservation goes, and after a crash the operation is counted. */
  lemma UnsureComesBack(s: Node, r: nat, op: Operation) returns (refused: Node, end: Node)
    requires Inv(s) && r in s.p.reqs && s.p.reqs[r] == Alone(op, true, P.Reserved, {}) && r in s.origin && MayApply(s, r)
    requires forall j :: 0 <= j < |s.wal| ==> s.wal[j].id != op.id
    ensures refused == s.(p := With(s.p, r, Alone(op, true, P.Finishing(0, false), {})), wal := s.wal + [op])
    ensures Leads(s, refused) && Leads(s, end) && Inv(end)
    ensures end.log == s.log && end.journal == s.settled + FirstPerId(s.wal) + [op]
    ensures end.balances == Add(AddAll(s.snapshot.balances, FirstPerId(s.wal)), op)
  {
    hide Inv, Leads, Starting, FirstPerId, AddAll, Enabled, Apply;
    LeadsNowhere(s);
    refused := RefusesUnsure(s, r, op);
    Extends(s, s, WalUnsure(r));
    SyncedIsStored(s);
    CrashesNow(refused);
    Extends(s, refused, CrashAndStart(None, s.synced));
    end := Starting(refused, refused.wal, s.synced);
    LeadingKeepsInv(s, end);
    StartsWithLast(refused, s.wal, op, s.synced);
  }

  lemma RefusesUnsure(s: Node, r: nat, op: Operation) returns (end: Node)
    requires r in s.p.reqs && s.p.reqs[r] == Alone(op, true, P.Reserved, {}) && r in s.origin && MayApply(s, r)
    ensures Enabled(s, WalUnsure(r)) && end == Apply(s, WalUnsure(r))
    ensures end == s.(p := With(s.p, r, Alone(op, true, P.Finishing(0, false), {})), wal := s.wal + [op])
  {
    hide MayApply;
    OneMarked(op);
    end := Apply(s, WalUnsure(r));
  }

  lemma CrashesNow(s: Node)
    requires forall k :: k in s.synced ==> k in s.p.index.stored && s.p.index.stored[k] == s.synced[k]
    ensures Enabled(s, CrashAndStart(None, s.synced))
    ensures Apply(s, CrashAndStart(None, s.synced)) == Starting(s, s.wal, s.synced)
  {
    hide Starting;
    assert s.wal + [] == s.wal;
  }

  lemma StartsWithLast(s: Node, wal: seq<Operation>, op: Operation, found: map<P.Key, Content>)
    requires forall j :: 0 <= j < |wal| ==> wal[j].id != op.id
    ensures var end := Starting(s, wal + [op], found);
            && end.log == s.log && end.journal == s.settled + FirstPerId(wal) + [op]
            && end.balances == Add(AddAll(s.snapshot.balances, FirstPerId(wal)), op)
  {
    hide P.StoredWith, AllPairs, FirstPerId, P.Started;
    LastIsFirst(wal, op);
    assert (FirstPerId(wal) + [op])[..|FirstPerId(wal)|] == FirstPerId(wal);
  }

  lemma SyncedIsStored(s: Node)
    requires Inv(s)
    ensures forall k :: k in s.synced ==> k in s.p.index.stored && s.p.index.stored[k] == s.synced[k]
  {
    hide P.Inv, Durable, Sums, Accounted, Walled, Honest, TailOk, OriginsOk, ShownOk;
  }

  lemma LastIsFirst(wal: seq<Operation>, op: Operation)
    requires forall j :: 0 <= j < |wal| ==> wal[j].id != op.id
    ensures FirstPerId(wal + [op]) == FirstPerId(wal) + [op]
  {
    assert (wal + [op])[..|wal|] == wal;
    FirstPerIdFacts(wal);
  }
}
