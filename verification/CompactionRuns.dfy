/** Start-up compaction while the persist queue drains, or torn by a crash: runs that count
    an operation twice, and exactly when there are none (src/main.rs, src/state.rs). */
module CompactionRuns {
  import opened Model
  import opened ReplicatedLog
  import opened Node
  import P = Protocol
  import Q = ProtocolProof
  import N = NodeProof
  import R = Replay

  // ----- Walks of one node -----

  ghost predicate Walk(s: Node, steps: seq<Step>, end: Node)
    decreases |steps|
  {
    if steps == [] then end == s
    else Enabled(s, steps[0]) && Walk(Apply(s, steps[0]), steps[1..], end)
  }

  ghost predicate Leads(s: Node, end: Node) {
    exists steps :: Walk(s, steps, end)
  }

  lemma LeadsNowhere(s: Node)
    ensures Leads(s, s)
  {
    assert Walk(s, [], s);
  }

  lemma {:induction false} WalkExtends(s: Node, steps: seq<Step>, middle: Node, step: Step)
    requires Walk(s, steps, middle) && Enabled(middle, step)
    ensures Walk(s, steps + [step], Apply(middle, step))
    decreases |steps|
  {
    hide Enabled, Apply;
    if steps == [] {
      assert steps + [step] == [step];
      assert Walk(Apply(middle, step), [step][1..], Apply(middle, step));
    } else {
      assert (steps + [step])[1..] == steps[1..] + [step];
      WalkExtends(Apply(s, steps[0]), steps[1..], middle, step);
    }
  }

  lemma Extends(s: Node, middle: Node, step: Step)
    requires Leads(s, middle) && Enabled(middle, step)
    ensures Leads(s, Apply(middle, step))
  {
    hide Enabled, Apply, Walk;
    var steps :| Walk(s, steps, middle);
    WalkExtends(s, steps, middle, step);
  }

  /** A step of the protocol that concerns nobody else. */
  lemma ExtendsInner(s: Node, middle: Node, step: P.Step)
    requires Leads(s, middle) && InnerKind(step) && P.Enabled(middle.p, step)
    ensures Leads(s, middle.(p := P.Apply(middle.p, step)))
  {
    hide Leads, P.Enabled, P.Apply;
    Extends(s, middle, Inner(step));
  }

  lemma {:induction false} WalkKeepsInv(s: Node, steps: seq<Step>, end: Node)
    requires Inv(s) && Walk(s, steps, end)
    ensures Inv(end)
    decreases |steps|
  {
    hide Inv, Enabled, Apply;
    if steps != [] {
      N.StepKeepsInv(s, steps[0]);
      WalkKeepsInv(Apply(s, steps[0]), steps[1..], end);
    }
  }

  // ----- One request on its own -----

  function Alone(op: Operation, marked: bool, phase: P.Phase, applied: set<nat>): P.Request {
    P.Request([op], 0, [marked], phase, applied)
  }

  /** Every other request has ended, so no shard lock is taken. */
  ghost predicate OthersEnded(p: P.State, r: nat) {
    forall q :: q in p.reqs && q != r ==> P.Ended(p.reqs[q].phase)
  }

  /** The protocol state with another entry for request `r`. */
  function With(p: P.State, r: nat, q: P.Request): P.State { P.SetReq(p, r, q) }

  lemma WithTwice(p: P.State, r: nat, a: P.Request, b: P.Request)
    ensures With(With(p, r, a), r, b) == With(p, r, b)
    ensures r in p.reqs && p.reqs[r] == a ==> With(p, r, a) == p
  {
    assert p.reqs[r := a][r := b] == p.reqs[r := b];
    assert r in p.reqs && p.reqs[r] == a ==> p.reqs[r := a] == p.reqs;
  }

  lemma GroupOfOne(shardOf: P.Key -> nat, op: Operation, shard: nat)
    ensures P.Group(shardOf, [op], shard, 1) == if shardOf(op.id) == shard then [0] else []
  {
    assert P.Group(shardOf, [op], shard, 0) == [];
  }

  lemma ProbeElsewhere(p: P.State, r: nat, op: Operation, marked: bool, shard: nat)
    requires r in p.reqs && p.reqs[r] == Alone(op, marked, P.Preflight(shard), {})
    requires shard < P.DEDUP_SHARDS && p.place.shard(op.id) != shard
    ensures P.Enabled(p, P.Probe(r)) && P.Apply(p, P.Probe(r)) == With(p, r, Alone(op, marked, P.Preflight(shard + 1), {}))
  {
    hide P.Group, P.Unlocked;
    GroupOfOne(p.place.shard, op, shard);
  }

  function Sure(p: P.State): set<P.Key> { set x | x in p.index.stored && P.DiskSees(p.place, p.index, x) }

  lemma ProbeHere(p: P.State, r: nat, op: Operation, shard: nat)
    requires r in p.reqs && p.reqs[r] == Alone(op, false, P.Preflight(shard), {}) && OthersEnded(p, r)
    requires shard < P.DEDUP_SHARDS && p.place.shard(op.id) == shard
    ensures P.Enabled(p, P.Probe(r)) && P.Apply(p, P.Probe(r)) == With(p, r, Alone(op, false, P.Probed(shard, Sure(p)), {}))
  {
    hide P.Group, P.DiskSees;
    GroupOfOne(p.place.shard, op, shard);
  }

  lemma ProbeLast(p: P.State, r: nat, op: Operation)
    requires r in p.reqs && p.reqs[r] == Alone(op, true, P.Preflight(P.DEDUP_SHARDS), {})
    ensures P.Enabled(p, P.Probe(r)) && P.Apply(p, P.Probe(r)) == With(p, r, Alone(op, true, P.Reserved, {}))
  {
    hide P.Group, P.Unlocked;
  }

  function Pended(p: P.State, r: nat, op: Operation): P.State {
    p.(memory := p.memory[op.id := P.Pending(Fingerprint(op), P.Token(r, 0))])
  }

  lemma ReserveHere(p: P.State, r: nat, op: Operation, shard: nat, sure: set<P.Key>, seen: map<P.Key, Content>)
    requires r in p.reqs && p.reqs[r] == Alone(op, false, P.Probed(shard, sure), {}) && p.place.shard(op.id) == shard
    requires op.id !in p.memory && op.id !in p.index.stored && sure <= seen.Keys
    requires forall x :: x in seen ==> x in p.index.stored && seen[x] == p.index.stored[x]
    ensures P.Enabled(p, P.Reserve(r, seen))
    ensures P.Apply(p, P.Reserve(r, seen)) == With(Pended(p, r, op), r, Alone(op, true, P.Preflight(shard + 1), {}))
  {
    hide P.Group, P.Decide;
    GroupOfOne(p.place.shard, op, shard);
    DecidesToReserve(p.memory, seen, op, P.Token(r, 0));
  }

  lemma DecidesToReserve(memory: P.Memory, seen: map<P.Key, Content>, op: Operation, token: P.Token)
    requires op.id !in memory && op.id !in seen
    ensures P.Decide(memory, seen, [op], [0], token, [false])
            == P.Decision(memory[op.id := P.Pending(Fingerprint(op), token)], [true], P.Continue)
  {
    assert [0][1..] == [] && [false][0 := true] == [true];
    var memory' := memory[op.id := P.Pending(Fingerprint(op), token)];
    assert P.Decide(memory', seen, [op], [0][1..], token, [true]) == P.Decision(memory', [true], P.Continue);
  }

  /** Shards without the id are passed over. */
  lemma {:induction false} SkipsShards(s0: Node, s: Node, r: nat, op: Operation, marked: bool, from: nat, to: nat)
    requires Leads(s0, s) && r in s.p.reqs && s.p.reqs[r] == Alone(op, marked, P.Preflight(from), {})
    requires from <= to <= P.DEDUP_SHARDS && !(from <= s.p.place.shard(op.id) < to)
    ensures Leads(s0, s.(p := With(s.p, r, Alone(op, marked, P.Preflight(to), {}))))
    decreases P.DEDUP_SHARDS - from
  {
    hide Leads, P.Enabled, P.Apply;
    var target := Alone(op, marked, P.Preflight(to), {});
    if from == to {
      WithTwice(s.p, r, target, target);
      assert s.(p := s.p) == s;
    } else {
      ProbeElsewhere(s.p, r, op, marked, from);
      ExtendsInner(s0, s, P.Probe(r));
      var passed := Alone(op, marked, P.Preflight(from + 1), {});
      var next := s.(p := With(s.p, r, passed));
      SkipsShards(s0, next, r, op, marked, from + 1, to);
      WithTwice(s.p, r, passed, target);
    }
  }

  /** The protocol after request `r` has reserved the only id it asks for. */
  function Reserved(p: P.State, r: nat, op: Operation): P.State {
    With(Pended(p, r, op), r, Alone(op, true, P.Reserved, {}))
  }

  lemma UpToReserve(s0: Node, s: Node, r: nat, op: Operation)
    requires Leads(s0, s) && P.ShardsBounded(s.p.place)
    requires r in s.p.reqs && s.p.reqs[r] == Alone(op, false, P.Preflight(0), {}) && OthersEnded(s.p, r)
    requires op.id !in s.p.memory && op.id !in s.p.index.stored
    ensures Leads(s0, s.(p := With(Pended(s.p, r, op), r, Alone(op, true, P.Preflight(s.p.place.shard(op.id) + 1), {}))))
  {
    hide Leads, P.Enabled, P.Apply, P.DiskSees;
    var p, k := s.p, s.p.place.shard(op.id);
    SkipsShards(s0, s, r, op, false, 0, k);
    var q1, q2 := Alone(op, false, P.Preflight(k), {}), Alone(op, false, P.Probed(k, Sure(p)), {});
    var p1 := With(p, r, q1);
    ProbeHere(p1, r, op, k);
    ExtendsInner(s0, s.(p := p1), P.Probe(r));
    WithTwice(p, r, q1, q2);
    var p2 := With(p, r, q2);
    var seen := map x | x in Sure(p) :: p.index.stored[x];
    ReserveHere(p2, r, op, k, Sure(p), seen);
    ExtendsInner(s0, s.(p := p2), P.Reserve(r, seen));
    PendedWith(p, r, op, q2, Alone(op, true, P.Preflight(k + 1), {}));
  }

  lemma PendedWith(p: P.State, r: nat, op: Operation, a: P.Request, b: P.Request)
    ensures With(Pended(With(p, r, a), r, op), r, b) == With(Pended(p, r, op), r, b)
  {
    assert p.reqs[r := a][r := b] == p.reqs[r := b];
  }

  /** An id that neither memory nor disk knows passes preflight as new. */
  lemma UnknownIdIsReserved(s0: Node, s: Node, r: nat, op: Operation)
    requires Leads(s0, s) && P.ShardsBounded(s.p.place)
    requires r in s.p.reqs && s.p.reqs[r] == Alone(op, false, P.Preflight(0), {}) && OthersEnded(s.p, r)
    requires op.id !in s.p.memory && op.id !in s.p.index.stored
    ensures Leads(s0, s.(p := Reserved(s.p, r, op)))
  {
    hide Leads, P.Enabled, P.Apply;
    var k := s.p.place.shard(op.id);
    UpToReserve(s0, s, r, op);
    var p := Pended(s.p, r, op);
    var q3, q4 := Alone(op, true, P.Preflight(k + 1), {}), Alone(op, true, P.Preflight(P.DEDUP_SHARDS), {});
    var q5 := Alone(op, true, P.Reserved, {});
    SkipsShards(s0, s.(p := With(p, r, q3)), r, op, true, k + 1, P.DEDUP_SHARDS);
    WithTwice(p, r, q3, q4);
    var p4 := With(p, r, q4);
    ProbeLast(p4, r, op);
    ExtendsInner(s0, s.(p := p4), P.Probe(r));
    WithTwice(p, r, q4, q5);
  }

  // ----- The id that compaction forgot -----

  lemma OneMarked(op: Operation)
    ensures MarkedOps([op], [true]) == [op] && P.PairsOf([op], [true]) == [(op.id, Fingerprint(op))]
  {
    assert [op][..0] == [] && [true][..0] == [];
    assert MarkedOps([op][..0], [true][..0]) == [] && P.PairsOf([op][..0], [true][..0]) == [];
  }

  lemma CommitAlone(p: P.State, r: nat, op: Operation)
    requires r in p.reqs && p.reqs[r] == Alone(op, true, P.Reserved, {})
    ensures P.Enabled(p, P.Commit(r)) && P.Apply(p, P.Commit(r)) == With(p, r, Alone(op, true, P.Applying, {}))
  {
  }

  lemma ApplyAlone(p: P.State, r: nat, op: Operation)
    requires r in p.reqs && p.reqs[r] == Alone(op, true, P.Applying, {})
    ensures P.Enabled(p, P.ApplyOne(r, 0)) && P.Apply(p, P.ApplyOne(r, 0)) == With(p, r, Alone(op, true, P.Applying, {0}))
  {
    var none: set<nat> := {};
    assert none + {0} == {0};
  }

  /** The node after the append of request `r`'s only operation to the WAL and its
      application. */
  lemma AppliesAlone(s0: Node, s: Node, r: nat, op: Operation) returns (end: Node)
    requires Leads(s0, s) && r in s.p.reqs && s.p.reqs[r] == Alone(op, true, P.Reserved, {}) && r in s.origin && MayApply(s, r)
    ensures Leads(s0, end)
    ensures end == s.(p := With(s.p, r, Alone(op, true, P.Applying, {0})), wal := s.wal + [op],
                      balances := Add(s.balances, op), journal := s.journal + [op])
  {
    hide Leads, MayApply, P.Enabled, P.Apply;
    OneMarked(op);
    CommitAlone(s.p, r, op);
    Extends(s0, s, WalAppend(r));
    var q1, q2 := Alone(op, true, P.Applying, {}), Alone(op, true, P.Applying, {0});
    var s1 := s.(p := With(s.p, r, q1), wal := s.wal + [op]);
    ApplyAlone(s1.p, r, op);
    Extends(s0, s1, ApplyOne(r, 0));
    WithTwice(s.p, r, q1, q2);
    end := Apply(s1, ApplyOne(r, 0));
  }

  lemma BeginAlone(p: P.State, r: nat, op: Operation)
    requires r !in p.reqs
    ensures P.Enabled(p, P.Begin(r, [op])) && P.Apply(p, P.Begin(r, [op])) == With(p, r, Alone(op, false, P.Preflight(0), {}))
  {
    assert P.Unmarked(1) == [false];
    assert P.BatchAgrees([op]);
  }

  /** The state in which the node comes back from a crash right after compaction. */
  ghost function Reborn(s: Node): Node { Starting(N.Compacted(s), [], s.p.index.stored) }

  lemma RebornFacts(s: Node)
    ensures var b := Reborn(s);
            && b.journal == s.journal && b.balances == s.balances && b.log == s.log && b.p == P.Started(s.p.place, s.p.index.stored)
            && !b.serving && b.tail == Resting && b.wal == []
  {
    assert FirstPerId([]) == [] && AllPairs([]) == [] && P.StoredWith(s.p.index.stored, []) == s.p.index.stored;
    assert s.journal + [] == s.journal;
  }

  /** A counted id that had not reached the disk index is counted again on a retry: the
      retry passes preflight, its record is accepted by everyone, and the balance exceeds
      the sum over the distinct ids of the log by the operation once more. */
  lemma LostIdIsCountedAgain(s: Node, op: Operation) returns (end: Node)
    requires Inv(s) && op in s.journal && op.id !in s.p.index.stored
    ensures Leads(Reborn(s), end)
    ensures end.journal == s.journal + [op]
    ensures end.balances == Add(s.balances, op)
    ensures Accepted(end.log) == Accepted(s.log) + [op]
  {
    hide Inv, Leads, Accepted, FirstPerId, Starting;
    RebornFacts(s);
    CountedIsAccepted(s, op);
    var b := Reborn(s);
    LeadsNowhere(b);
    Extends(b, b, Serve);
    var s1 := b.(serving := true);
    end := RetriesAlone(b, s1, op);
  }

  lemma CountedIsAccepted(s: Node, op: Operation)
    requires Inv(s) && op in s.journal
    ensures op in Accepted(s.log) && ConsistentIds(Accepted(s.log)) && P.ShardsBounded(s.p.place)
  {
    hide Sums, Accounted, OnDisk, Walled, Honest, TailOk, OriginsOk, ShownOk, ConsistentIds, P.RequestsOk, P.Ownership,
         P.Visibility, P.Pipeline, P.Probes, P.Decisions, P.WakeUps;
  }

  lemma RetriesAlone(b: Node, s: Node, op: Operation) returns (end: Node)
    requires Leads(b, s) && s.serving && P.ShardsBounded(s.p.place)
    requires s.p.reqs == map[] && s.p.memory == map[] && op.id !in s.p.index.stored
    requires op in Accepted(s.log) && ConsistentIds(Accepted(s.log))
    ensures Leads(b, end) && end.journal == s.journal + [op] && end.balances == Add(s.balances, op)
    ensures Accepted(end.log) == Accepted(s.log) + [op]
  {
    hide Leads, Accepted, Active, ConsistentIds, Accepts, P.Enabled, P.Apply;
    var q0, q1 := Alone(op, false, P.Preflight(0), {}), Alone(op, true, P.Reserved, {});
    BeginAlone(s.p, 0, op);
    Extends(b, s, ClientBegins(0, [op]));
    var s1 := s.(p := With(s.p, 0, q0), origin := s.origin[0 := Client]);
    UnknownIdIsReserved(b, s1, 0, op);
    var s2 := s1.(p := Reserved(s1.p, 0, op));
    end := ReplicatesAlone(b, s2, op);
  }

  lemma ReplicatesAlone(b: Node, s: Node, op: Operation) returns (end: Node)
    requires Leads(b, s) && 0 in s.p.reqs && s.p.reqs[0] == Alone(op, true, P.Reserved, {}) && 0 in s.origin && s.origin[0] == Client
    requires op in Accepted(s.log) && ConsistentIds(Accepted(s.log))
    ensures Leads(b, end) && end.journal == s.journal + [op] && end.balances == Add(s.balances, op)
    ensures Accepted(end.log) == Accepted(s.log) + [op]
  {
    hide Leads, Accepted, Active, ConsistentIds, Accepts;
    var e := Active(s.log);
    OneMarked(op);
    RecordIsAccepted(s.log, e, op);
    Extends(b, s, Replicate(0, e));
    var s3 := Apply(s, Replicate(0, e));
    end := AppliesAlone(b, s3, 0, op);
  }

  lemma RecordIsAccepted(log: Log, e: U64, op: Operation)
    requires e == Active(log) && op in Accepted(log) && ConsistentIds(Accepted(log))
    ensures var more := log + [Operations(e, [op])];
            Accepts(more, |log|) && Accepted(more) == Accepted(log) + [op] && ConsistentIds(Accepted(more))
  {
    AppendFold(log, Operations(e, [op]));
    assert (log + [Operations(e, [op])])[..|log|] == log;
  }

  // ----- Exactly when compaction is safe -----

  ghost predicate CountsOnce(s: Node) { DistinctIds(s.journal) && Sums(s.balances, s.journal) }

  ghost predicate Quiescent(s: Node) {
    !s.serving && s.tail.Resting? && forall r :: r in s.p.reqs ==> P.Ended(s.p.reqs[r].phase)
  }

  /** No run after a crash behind start-up compaction ever counts an id twice if and only if
      every committed id had reached the disk index when the snapshot was taken. */
  lemma CompactionIsSafeIff(s: Node)
    requires Inv(s) && Quiescent(s)
    ensures N.AllPersisted(s) <==> forall end :: Leads(Reborn(s), end) ==> CountsOnce(end)
  {
    hide Inv, CountsOnce, Starting, N.Compacted;
    if N.AllPersisted(s) {
      RebornIsGood(s);
      forall end | Leads(Reborn(s), end) ensures CountsOnce(end) {
        var steps :| Walk(Reborn(s), steps, end);
        WalkKeepsInv(Reborn(s), steps, end);
        GoodCountsOnce(end);
      }
    } else {
      var k :| k in s.p.committed && k !in s.p.index.stored;
      var op := CommittedIsCounted(s, k);
      var end := LostIdIsCountedAgain(s, op);
      RepeatedIsNotOnce(s, op, end);
    }
  }

  lemma RebornIsGood(s: Node)
    requires Inv(s) && Quiescent(s) && N.AllPersisted(s)
    ensures Inv(Reborn(s))
  {
    hide Inv, Starting, Drained;
    assert Drained(s) by { QuiescentIsDrained(s); }
    N.CompactKeeps(s);
    var s1 := Apply(s, Compact);
    assert s1 == N.Compacted(s);
    N.CrashKeeps(s1, None, s.p.index.stored);
    assert s1.wal + [] == [];
  }

  lemma QuiescentIsDrained(s: Node)
    requires Quiescent(s) && N.AllPersisted(s)
    ensures Drained(s)
  {
  }

  lemma GoodCountsOnce(s: Node)
    requires Inv(s)
    ensures CountsOnce(s)
  {
    hide P.Inv, Accounted, OnDisk, Walled, Honest, TailOk, OriginsOk, ShownOk, ConsistentIds, Apart;
  }

  lemma CommittedIsCounted(s: Node, k: P.Key) returns (op: Operation)
    requires Inv(s) && k in s.p.committed
    ensures op in s.journal && op.id == k
  {
    hide P.Inv, Durable, Sums, OnDisk, Walled, Honest, TailOk, OriginsOk, ShownOk;
    assert Listed(s.journal, k, s.p.committed[k]);
    op :| op in s.journal && op.id == k && Fingerprint(op) == s.p.committed[k];
  }

  lemma RepeatedIsNotOnce(s: Node, op: Operation, end: Node)
    requires op in s.journal && end.journal == s.journal + [op]
    ensures !CountsOnce(end)
  {
    var i :| 0 <= i < |s.journal| && s.journal[i] == op;
    assert end.journal[i] == op && end.journal[|s.journal|] == op;
  }

  // ----- What start-up can test -----

  /** The worker is between its disk write and the removal of this key from memory. */
  predicate BeingForgotten(worker: P.Worker, k: P.Key) {
    (worker.Adding? || worker.Removing?) && exists j :: 0 <= j < |worker.batch| && worker.batch[j].0 == k
  }

  /** A committed entry that is still in memory is not on disk yet, unless the worker is
      about to remove it; and what the worker carries is committed as it says. */
  ghost predicate Tidy(p: P.State) {
    && (forall k :: P.InMemory(p.memory, k) && k in p.index.stored ==> BeingForgotten(p.worker, k))
    && (p.worker.Adding? || p.worker.Removing? ==> P.PairsCommitted(p.committed, p.worker.batch))
  }

  /** Without worker steps and commits nothing changes that Tidy looks at. */
  lemma TidyElsewhere(p: P.State, p': P.State)
    requires Tidy(p) && p'.index.stored == p.index.stored && p'.worker == p.worker
    requires forall k :: P.InMemory(p'.memory, k) ==> P.InMemory(p.memory, k) || k !in p.index.stored
    requires forall k :: k in p.committed ==> k in p'.committed && p'.committed[k] == p.committed[k]
    ensures Tidy(p')
  {
  }

  lemma RequestStepIsTidy(p: P.State, step: P.Step, r: nat)
    requires P.Inv(p) && Tidy(p) && P.Enabled(p, step) && (Q.OwnStep(step, r) || step.Begin? || step.Abort?)
    ensures Tidy(P.Apply(p, step))
  {
    hide P.Inv, P.Enabled, P.Apply, Tidy, P.InMemory, Q.OwnStep;
    var p' := P.Apply(p, step);
    StepLeavesWorker(p, step, r);
    NewInMemory(p, step, r);
    CommittedStays(p, step, r);
    TidyElsewhere(p, p');
  }

  lemma StepLeavesWorker(p: P.State, step: P.Step, r: nat)
    requires P.Enabled(p, step) && (Q.OwnStep(step, r) || step.Begin? || step.Abort?)
    ensures P.Apply(p, step).index == p.index && P.Apply(p, step).worker == p.worker
  {
    hide P.Decide, P.Released, P.Finished, P.NewlyCommitted, P.PairsOf, P.Group, P.AnyMark, P.Unlocked, P.Touches, P.DiskSees,
         P.BatchAgrees;
  }

  /** What becomes a committed entry of memory was pending, hence not on disk. */
  lemma NewInMemory(p: P.State, step: P.Step, r: nat)
    requires P.Inv(p) && P.Enabled(p, step) && (Q.OwnStep(step, r) || step.Begin? || step.Abort?)
    ensures forall k :: P.InMemory(P.Apply(p, step).memory, k) ==> P.InMemory(p.memory, k) || k !in p.index.stored
  {
    hide P.Inv, P.Enabled, P.Apply;
    match step
    case Begin(_, _) => MemoryStays(p, step);
    case Abort(_) => MemoryStays(p, step);
    case Reserve(_, seen) => ReservedArePending(p, r, seen);
    case Unreserve(_) => ReleasedAreGone(p, r);
    case FinishShard(_) => FinishedWerePending(p, r);
    case _ => Q.OtherFrames(p, step, r);
  }

  lemma MemoryStays(p: P.State, step: P.Step)
    requires P.Enabled(p, step) && (step.Begin? || step.Abort?)
    ensures P.Apply(p, step).memory == p.memory && P.Apply(p, step).committed == p.committed
  {
    hide P.BatchAgrees;
  }

  lemma ReservedArePending(p: P.State, r: nat, seen: map<P.Key, Content>)
    requires P.Inv(p) && P.Enabled(p, P.Reserve(r, seen))
    ensures forall k :: P.InMemory(P.Apply(p, P.Reserve(r, seen)).memory, k) ==> P.InMemory(p.memory, k)
  {
    hide P.Decide, P.Fresh, P.Visibility, P.Ownership, P.Pipeline, P.Probes, P.Decisions, P.WakeUps, P.IsFirst;
    Q.RequestFacts(p, r);
    Q.GroupIsFresh(p.place, p.reqs[r]);
    var q := p.reqs[r];
    P.DecideFrame(p.memory, seen, q.ops, P.GroupOf(p, r, q.phase.shard), P.TokenOf(p, r), q.marks);
    P.DecideReserves(p.memory, seen, q.ops, P.GroupOf(p, r, q.phase.shard), P.TokenOf(p, r), q.marks);
  }

  lemma ReleasedAreGone(p: P.State, r: nat)
    requires P.Enabled(p, P.Unreserve(r))
    ensures forall k :: P.InMemory(P.Apply(p, P.Unreserve(r)).memory, k) ==> P.InMemory(p.memory, k)
  {
    hide P.MarkedIn;
  }

  lemma FinishedWerePending(p: P.State, r: nat)
    requires P.Inv(p) && P.Enabled(p, P.FinishShard(r))
    ensures forall k :: P.InMemory(P.Apply(p, P.FinishShard(r)).memory, k) ==> P.InMemory(p.memory, k) || k !in p.index.stored
  {
    hide P.RequestsOk, P.Ownership, P.Pipeline, P.Probes, P.Decisions, P.WakeUps, P.MarkedIn, P.BloomSafe, P.NewlyCommitted;
  }

  lemma CommittedStays(p: P.State, step: P.Step, r: nat)
    requires P.Inv(p) && P.Enabled(p, step) && (Q.OwnStep(step, r) || step.Begin? || step.Abort?)
    ensures var p' := P.Apply(p, step); forall k :: k in p.committed ==> k in p'.committed && p'.committed[k] == p.committed[k]
  {
    hide P.Inv, P.Enabled, P.Apply;
    if Q.QuietKind(step) {
      Q.QuietSteps(p, step);
    } else {
      LoudStepsCommitNothing(p, step);
    }
  }

  lemma LoudStepsCommitNothing(p: P.State, step: P.Step)
    requires P.Enabled(p, step) && (step.Commit? || step.ApplyOne? || step.Published?)
    ensures P.Apply(p, step).committed == p.committed
  {
  }

  lemma WorkerStepIsTidy(p: P.State, step: P.Step)
    requires P.Inv(p) && Tidy(p) && P.Enabled(p, step)
    requires step.Take? || step.StoreBatch? || step.AddBits? || step.Forget? || step.PersistFailed? || step.Visit? || step.Merge?
    ensures Tidy(P.Apply(p, step))
  {
    hide P.Enabled, P.Apply;
    match step
    case StoreBatch => StoringIsTidy(p);
    case Forget => ForgettingIsTidy(p);
    case _ => OtherWorkerSteps(p, step);
  }

  lemma StoringIsTidy(p: P.State)
    requires P.Inv(p) && Tidy(p) && P.Enabled(p, P.StoreBatch)
    ensures Tidy(P.Apply(p, P.StoreBatch))
  {
    hide P.RequestsOk, P.Ownership, P.Visibility, P.Probes, P.Decisions, P.WakeUps, P.StoredWith;
    forall k { StoredKeys(p.index.stored, p.worker.batch, k); }
  }

  lemma {:induction false} StoredKeys(stored: map<P.Key, Content>, batch: P.Pairs, k: P.Key)
    ensures k in P.StoredWith(stored, batch) ==> k in stored || exists j :: 0 <= j < |batch| && batch[j].0 == k
  {
    if batch != [] && k in P.StoredWith(stored, batch) {
      var m := |batch| - 1;
      StoredKeys(stored, batch[..m], k);
      if batch[m].0 != k && k !in stored {
        var j :| 0 <= j < m && batch[..m][j].0 == k;
        assert batch[j].0 == k;
      }
    }
  }

  lemma ForgettingIsTidy(p: P.State)
    requires P.Inv(p) && Tidy(p) && P.Enabled(p, P.Forget)
    ensures Tidy(P.Apply(p, P.Forget))
  {
    hide P.Inv, P.Apply, P.InMemory;
    var p', batch := P.Apply(p, P.Forget), p.worker.batch;
    WorkerForgets(p);
    forall k | P.InMemory(p'.memory, k) && k in p'.index.stored ensures BeingForgotten(p'.worker, k) {
      assert BeingForgotten(p.worker, k);
      var j :| 0 <= j < |batch| && batch[j].0 == k;
      if j > 0 { assert batch[1..][j - 1].0 == k; }
    }
  }

  /** The worker drops the entry of its first pair, which is committed with that content. */
  lemma WorkerForgets(p: P.State)
    requires P.Inv(p) && P.Enabled(p, P.Forget) && P.PairsCommitted(p.committed, p.worker.batch)
    ensures var p', batch := P.Apply(p, P.Forget), p.worker.batch;
            && p'.index == p.index && p'.committed == p.committed
            && p'.worker == (if batch == [] then P.Idle else P.Removing(batch[1..]))
            && (forall k :: P.InMemory(p'.memory, k) ==> P.InMemory(p.memory, k))
            && (batch != [] ==> !P.InMemory(p'.memory, batch[0].0))
  {
    if p.worker.batch != [] { assert p.worker.batch[0].0 in p.committed; }
    hide P.RequestsOk, P.Ownership, P.Probes, P.Decisions, P.WakeUps, P.BloomSafe, P.Unlocked;
  }

  lemma OtherWorkerSteps(p: P.State, step: P.Step)
    requires P.Inv(p) && Tidy(p) && P.Enabled(p, step)
    requires step.Take? || step.AddBits? || step.PersistFailed? || step.Visit? || step.Merge?
    ensures Tidy(P.Apply(p, step))
  {
    hide P.RequestsOk, P.Ownership, P.Visibility, P.Probes, P.Decisions, P.WakeUps, P.BitsOf, P.KeysOf;
    forall k ensures BeingForgotten(P.Apply(p, step).worker, k) <==> BeingForgotten(p.worker, k) { }
  }

  lemma StartedIsTidy(place: P.Placement, found: map<P.Key, Content>)
    ensures Tidy(P.Started(place, found))
  {
  }

  lemma ProtocolStepIsTidy(p: P.State, step: P.Step)
    requires P.Inv(p) && Tidy(p) && P.Enabled(p, step)
    ensures Tidy(P.Apply(p, step))
  {
    hide P.Inv, P.Enabled, Tidy, P.Apply;
    match step
    case Begin(r, _) => RequestStepIsTidy(p, step, r);
    case Abort(r) => RequestStepIsTidy(p, step, r);
    case Probe(r) => RequestStepIsTidy(p, step, r);
    case Reserve(r, _) => RequestStepIsTidy(p, step, r);
    case Unreserve(r) => RequestStepIsTidy(p, step, r);
    case Wake(r) => RequestStepIsTidy(p, step, r);
    case Commit(r) => RequestStepIsTidy(p, step, r);
    case ApplyOne(r, _) => RequestStepIsTidy(p, step, r);
    case Finish(r) => RequestStepIsTidy(p, step, r);
    case FinishShard(r) => RequestStepIsTidy(p, step, r);
    case Published(r) => RequestStepIsTidy(p, step, r);
    case Enqueue(r) => RequestStepIsTidy(p, step, r);
    case Notify(r) => RequestStepIsTidy(p, step, r);
    case Restart(found) => RestartIsTidy(p, found);
    case _ => WorkerStepIsTidy(p, step);
  }

  lemma RestartIsTidy(p: P.State, found: map<P.Key, Content>)
    ensures Tidy(P.Apply(p, P.Restart(found)))
  {
    StartedIsTidy(p.place, found);
  }

  /** What a step of the node does to the protocol: one protocol step, a start, or nothing. */
  lemma NodeStepIsTidy(s: Node, step: Step)
    requires Inv(s) && Tidy(s.p) && Enabled(s, step)
    ensures Tidy(Apply(s, step).p)
  {
    hide Inv, Tidy, P.Enabled, P.Apply, P.Inv;
    assert P.Inv(s.p) by { ProtocolIsGood(s); }
    match step
    case ClientBegins(r, ops) => ProtocolStepIsTidy(s.p, P.Begin(r, ops)) by { BeginIsEnabled(s.p, r, ops); }
    case Inner(inner) => ProtocolStepIsTidy(s.p, inner);
    case WalAppend(r) => ProtocolStepIsTidy(s.p, P.Commit(r)) by { CommitIsEnabled(s.p, r); }
    case WalUnsure(r) => ProtocolStepIsTidy(s.p, P.Abort(r)) by { CommitIsEnabled(s.p, r); }
    case ApplyOne(r, i) => ProtocolStepIsTidy(s.p, P.ApplyOne(r, i));
    case Publish(r) => ProtocolStepIsTidy(s.p, P.Published(r));
    case TailRead(r) => ReadingIsTidy(s, r);
    case CrashAndStart(torn, found) =>
      StartedIsTidy(s.p.place, Apply(s, step).p.index.stored);
    case _ =>
  }

  lemma ReadingIsTidy(s: Node, r: nat)
    requires P.Inv(s.p) && Tidy(s.p) && Enabled(s, TailRead(r))
    ensures Tidy(Apply(s, TailRead(r)).p)
  {
    hide Tidy, P.Enabled, P.Apply, P.Inv;
    var record := s.log[s.tail.next];
    if record.Operations? {
      BeginIsEnabled(s.p, r, record.operations);
      ProtocolStepIsTidy(s.p, P.Begin(r, record.operations));
    }
  }

  lemma BeginIsEnabled(p: P.State, r: nat, ops: seq<Operation>)
    requires r !in p.reqs
    ensures P.Enabled(p, P.Begin(r, ops))
  {
  }

  lemma CommitIsEnabled(p: P.State, r: nat)
    requires r in p.reqs && p.reqs[r].phase.Reserved?
    ensures P.Enabled(p, P.Commit(r)) && P.Enabled(p, P.Abort(r))
  {
  }

  lemma ProtocolIsGood(s: Node)
    requires Inv(s)
    ensures P.Inv(s.p)
  {
    hide P.Inv, Durable, Sums, Accounted, OnDisk, Walled, Honest, TailOk, OriginsOk, ShownOk;
  }

  /** In every run, memory keeps a committed id only until it is on disk. */
  lemma {:induction false} RunsAreTidy(place: P.Placement, log: Log, steps: seq<Step>, states: seq<Node>, n: nat)
    requires N.IsRun(place, log, steps, states) && n < |states|
    ensures Tidy(states[n].p)
  {
    hide Inv, Tidy, Enabled, Apply;
    if n == 0 {
      BornIsTidy(place, log);
    } else {
      RunsAreTidy(place, log, steps, states, n - 1);
      N.RunsAreGood(place, log, steps, states, n - 1);
      NodeStepIsTidy(states[n - 1], steps[n - 1]);
    }
  }

  lemma BornIsTidy(place: P.Placement, log: Log)
    ensures Tidy(Born(place, log).p)
  {
  }

  /** At start-up the condition can be read off the node: with the persist queue empty and
      the worker idle, every committed id is on disk exactly if memory holds no committed
      entry, which is what the entry counter of the store reports. */
  lemma PersistedIffForgotten(s: Node)
    requires Inv(s) && Tidy(s.p) && s.p.queue == [] && s.p.worker == P.Idle
    ensures N.AllPersisted(s) <==> forall k :: k in s.p.memory ==> s.p.memory[k].Pending?
  {
    hide Durable, Sums, Accounted, OnDisk, Walled, Honest, TailOk, OriginsOk, ShownOk, P.RequestsOk, P.Ownership, P.Pipeline, P.Probes,
         P.Decisions, P.WakeUps, P.BloomSafe;
    assert forall k :: !BeingForgotten(s.p.worker, k);
    if N.AllPersisted(s) {
      forall k | k in s.p.memory ensures P.InMemory(s.p.memory, k) ==> k in s.p.index.stored { }
    }
  }

  // ----- A run that gets there -----

  lemma FinishElsewhere(p: P.State, r: nat, op: Operation, shard: nat)
    requires r in p.reqs && p.reqs[r] == Alone(op, true, P.Finishing(shard, true), {0})
    requires shard < P.DEDUP_SHARDS && p.place.shard(op.id) != shard && OthersEnded(p, r)
    ensures P.Enabled(p, P.FinishShard(r))
    ensures P.Apply(p, P.FinishShard(r)) == With(p, r, Alone(op, true, P.Finishing(shard + 1, true), {0}))
  {
    var q := p.reqs[r];
    assert forall k :: !P.MarkedIn(p.place, q, shard, k);
    assert P.Finished(p.place, p.memory, q, shard, true) == p.memory;
    assert P.NewlyCommitted(p.place, p.memory, q, shard) == map[];
    assert p.committed + map[] == p.committed;
  }

  /** The protocol once the only id of request `r` is committed in memory. */
  function Settled(p: P.State, op: Operation): P.State {
    p.(memory := p.memory[op.id := P.Committed(Fingerprint(op))], committed := p.committed[op.id := Fingerprint(op)])
  }

  lemma FinishHere(p: P.State, r: nat, op: Operation, shard: nat)
    requires r in p.reqs && p.reqs[r] == Alone(op, true, P.Finishing(shard, true), {0}) && OthersEnded(p, r)
    requires shard < P.DEDUP_SHARDS && p.place.shard(op.id) == shard
    requires op.id in p.memory && p.memory[op.id] == P.Pending(Fingerprint(op), P.Token(r, 0))
    ensures P.Enabled(p, P.FinishShard(r))
    ensures P.Apply(p, P.FinishShard(r)) == With(Settled(p, op), r, Alone(op, true, P.Finishing(shard + 1, true), {0}))
  {
    hide P.Finished, P.NewlyCommitted;
    FinishedAlone(p, r, op, shard);
  }

  lemma FinishedAlone(p: P.State, r: nat, op: Operation, shard: nat)
    requires r in p.reqs && p.reqs[r] == Alone(op, true, P.Finishing(shard, true), {0}) && p.place.shard(op.id) == shard
    requires op.id in p.memory && p.memory[op.id] == P.Pending(Fingerprint(op), P.Token(r, 0))
    ensures P.Finished(p.place, p.memory, p.reqs[r], shard, true) == p.memory[op.id := P.Committed(Fingerprint(op))]
    ensures p.committed + P.NewlyCommitted(p.place, p.memory, p.reqs[r], shard) == p.committed[op.id := Fingerprint(op)]
  {
    assert P.Marked(p.reqs[r], 0);
    assert forall k :: P.MarkedIn(p.place, p.reqs[r], shard, k) <==> k == op.id;
  }

  lemma FinishLast(p: P.State, r: nat, op: Operation)
    requires r in p.reqs && p.reqs[r] == Alone(op, true, P.Finishing(P.DEDUP_SHARDS, true), {0})
    ensures P.Enabled(p, P.FinishShard(r)) && P.Apply(p, P.FinishShard(r)) == With(p, r, Alone(op, true, P.Publishing, {0}))
  {
  }

  lemma FinishStarts(p: P.State, r: nat, op: Operation)
    requires r in p.reqs && p.reqs[r] == Alone(op, true, P.Applying, {0})
    ensures P.Enabled(p, P.Finish(r)) && P.Apply(p, P.Finish(r)) == With(p, r, Alone(op, true, P.Finishing(0, true), {0}))
  {
  }

  lemma {:induction false} FinishSkips(s0: Node, s: Node, r: nat, op: Operation, from: nat, to: nat)
    requires Leads(s0, s) && r in s.p.reqs && s.p.reqs[r] == Alone(op, true, P.Finishing(from, true), {0}) && OthersEnded(s.p, r)
    requires from <= to <= P.DEDUP_SHARDS && !(from <= s.p.place.shard(op.id) < to)
    ensures Leads(s0, s.(p := With(s.p, r, Alone(op, true, P.Finishing(to, true), {0}))))
    decreases P.DEDUP_SHARDS - from
  {
    hide Leads, P.Enabled, P.Apply;
    var target := Alone(op, true, P.Finishing(to, true), {0});
    if from == to {
      WithTwice(s.p, r, target, target);
      assert s.(p := s.p) == s;
    } else {
      FinishElsewhere(s.p, r, op, from);
      ExtendsInner(s0, s, P.FinishShard(r));
      var passed := Alone(op, true, P.Finishing(from + 1, true), {0});
      FinishSkips(s0, s.(p := With(s.p, r, passed)), r, op, from + 1, to);
      WithTwice(s.p, r, passed, target);
    }
  }

  /** All shards of finish, for a request that is alone. */
  lemma FinishesAlone(s0: Node, s: Node, r: nat, op: Operation)
    requires Leads(s0, s) && P.ShardsBounded(s.p.place) && OthersEnded(s.p, r)
    requires r in s.p.reqs && s.p.reqs[r] == Alone(op, true, P.Applying, {0})
    requires op.id in s.p.memory && s.p.memory[op.id] == P.Pending(Fingerprint(op), P.Token(r, 0))
    ensures Leads(s0, s.(p := With(Settled(s.p, op), r, Alone(op, true, P.Publishing, {0}))))
  {
    hide Leads, P.Enabled, P.Apply;
    var p, k := s.p, s.p.place.shard(op.id);
    var q0, q1, q2, q3 := Alone(op, true, P.Finishing(0, true), {0}), Alone(op, true, P.Finishing(k, true), {0}),
                          Alone(op, true, P.Finishing(k + 1, true), {0}), Alone(op, true, P.Finishing(P.DEDUP_SHARDS, true), {0});
    FinishStarts(p, r, op);
    ExtendsInner(s0, s, P.Finish(r));
    FinishSkips(s0, s.(p := With(p, r, q0)), r, op, 0, k);
    WithTwice(p, r, q0, q1);
    FinishHere(With(p, r, q1), r, op, k);
    ExtendsInner(s0, s.(p := With(p, r, q1)), P.FinishShard(r));
    SettledWith(p, r, op, q1, q2);
    var p2 := Settled(p, op);
    FinishSkips(s0, s.(p := With(p2, r, q2)), r, op, k + 1, P.DEDUP_SHARDS);
    WithTwice(p2, r, q2, q3);
    FinishLast(With(p2, r, q3), r, op);
    ExtendsInner(s0, s.(p := With(p2, r, q3)), P.FinishShard(r));
    WithTwice(p2, r, q3, Alone(op, true, P.Publishing, {0}));
  }

  lemma SettledWith(p: P.State, r: nat, op: Operation, a: P.Request, b: P.Request)
    ensures With(Settled(With(p, r, a), op), r, b) == With(Settled(p, op), r, b)
  {
    assert p.reqs[r := a][r := b] == p.reqs[r := b];
  }

  lemma EnqueueAlone(p: P.State, r: nat, op: Operation)
    requires r in p.reqs && p.reqs[r] == Alone(op, true, P.Enqueuing, {0})
    ensures P.Enabled(p, P.Enqueue(r))
    ensures P.Apply(p, P.Enqueue(r))
            == With(p.(queue := p.queue + [(op.id, Fingerprint(op))]), r, Alone(op, true, P.Notifying(true), {0}))
  {
    OneMarked(op);
  }

  lemma PublishAlone(p: P.State, r: nat, op: Operation)
    requires r in p.reqs && p.reqs[r] == Alone(op, true, P.Publishing, {0})
    ensures P.Enabled(p, P.Published(r)) && P.Apply(p, P.Published(r)) == With(p, r, Alone(op, true, P.Enqueuing, {0}))
  {
  }

  lemma NotifyAlone(p: P.State, r: nat, op: Operation)
    requires r in p.reqs && p.reqs[r] == Alone(op, true, P.Notifying(true), {0})
    ensures P.Enabled(p, P.Notify(r))
    ensures var p' := P.Apply(p, P.Notify(r));
            p' == With(p, r, Alone(op, true, P.Done, {0})).(notified := p'.notified)
  {
  }

  /** From applied to done: the id is committed in memory and waits for the disk worker. */
  lemma CompletesAlone(s0: Node, s: Node, r: nat, op: Operation) returns (end: Node)
    requires Leads(s0, s) && P.ShardsBounded(s.p.place) && OthersEnded(s.p, r)
    requires r in s.p.reqs && s.p.reqs[r] == Alone(op, true, P.Applying, {0})
    requires op.id in s.p.memory && s.p.memory[op.id] == P.Pending(Fingerprint(op), P.Token(r, 0))
    ensures Leads(s0, end) && r in end.p.reqs && end.p.reqs[r] == Alone(op, true, P.Done, {0})
    ensures end == s.(p := end.p, published := end.published, shown := end.shown)
    ensures end.p == Settled(s.p, op).(reqs := s.p.reqs[r := end.p.reqs[r]], queue := s.p.queue + [(op.id, Fingerprint(op))],
                                       notified := end.p.notified)
  {
    hide Leads, P.Enabled, P.Apply, AddAll, NewOps;
    FinishesAlone(s0, s, r, op);
    var p := Settled(s.p, op);
    var q1, q2, q3, q4 := Alone(op, true, P.Publishing, {0}), Alone(op, true, P.Enqueuing, {0}),
                          Alone(op, true, P.Notifying(true), {0}), Alone(op, true, P.Done, {0});
    var s1 := s.(p := With(p, r, q1));
    PublishAlone(s1.p, r, op);
    Extends(s0, s1, Publish(r));
    WithTwice(p, r, q1, q2);
    var s2 := Apply(s1, Publish(r));
    EnqueueAlone(s2.p, r, op);
    ExtendsInner(s0, s2, P.Enqueue(r));
    var s3 := s2.(p := P.Apply(s2.p, P.Enqueue(r)));
    NotifyAlone(s3.p, r, op);
    ExtendsInner(s0, s3, P.Notify(r));
    end := s3.(p := P.Apply(s3.p, P.Notify(r)));
    assert end.p.reqs == s.p.reqs[r := q4];
  }

  /** A walk from the first start of a node is a run of it. */
  lemma {:induction false} WalkIsRun(s: Node, steps: seq<Step>, end: Node) returns (states: seq<Node>)
    requires Walk(s, steps, end)
    ensures |states| == |steps| + 1 && states[0] == s && states[|steps|] == end
    ensures forall n :: 0 <= n < |steps| ==> Enabled(states[n], steps[n]) && states[n + 1] == Apply(states[n], steps[n])
    decreases |steps|
  {
    hide Enabled, Apply;
    if steps == [] {
      states := [s];
    } else {
      var rest := WalkIsRun(Apply(s, steps[0]), steps[1..], end);
      states := [s] + rest;
      forall n | 0 <= n < |steps| ensures Enabled(states[n], steps[n]) && states[n + 1] == Apply(states[n], steps[n]) {
        if n > 0 { assert steps[n] == steps[1..][n - 1] && states[n] == rest[n - 1]; }
      }
    }
  }

  /** A log with one writer and one operation. */
  function OneRecord(op: Operation): Log { [Fence(1, []), Operations(1, [op])] }

  lemma OneRecordFacts(op: Operation)
    ensures Accepted(OneRecord(op)) == [op] && Active(OneRecord(op)) == 1
  {
    var log := OneRecord(op);
    var fence: Log := [Fence(1, [])];
    assert fence[..|fence| - 1] == [] && log[..|log| - 1] == fence;
    assert Active([]) == 0 && Accepted([]) == [] && Active(fence) == 1;
    assert Accepted(fence) == [] + [];
  }

  /** catch_up reads the fence and hands the operation to the store. */
  lemma TailTakesRecord(place: P.Placement, op: Operation) returns (s: Node)
    ensures Leads(Born(place, OneRecord(op)), s)
    ensures var b := Born(place, OneRecord(op));
            s == b.(p := With(b.p, 0, Alone(op, false, P.Preflight(0), {})), origin := map[0 := Replayed(1)],
                    tail := Following(1, 1, Some(0)))
  {
    hide Leads, P.Enabled, P.Apply;
    var b := Born(place, OneRecord(op));
    LeadsNowhere(b);
    Extends(b, b, TailStart);
    var s1 := b.(tail := Following(0, 0, None));
    Extends(b, s1, TailRead(0));
    var s2 := b.(tail := Following(1, 1, None));
    BeginAlone(s2.p, 0, op);
    Extends(b, s2, TailRead(0));
    s := Apply(s2, TailRead(0));
  }

  /** A node catches up on one operation at start-up and is ready to compact while the disk
      worker has not yet taken the id from its queue. */
  lemma DrainingRun(place: P.Placement, op: Operation) returns (s: Node)
    requires P.ShardsBounded(place)
    ensures Leads(Born(place, OneRecord(op)), s) && Quiescent(s) && s.log == OneRecord(op)
    ensures s.journal == [op] && s.wal == [op] && s.balances == Add(map[], op)
    ensures s.checkpoint == Mark(2, 1)
    ensures s.p.queue == [(op.id, Fingerprint(op))] && s.p.index.stored == map[]
  {
    hide Leads, P.Enabled, P.Apply, MayApply;
    var b := Born(place, OneRecord(op));
    var s1 := TailTakesRecord(place, op);
    UnknownIdIsReserved(b, s1, 0, op);
    var s2 := s1.(p := Reserved(s1.p, 0, op));
    assert MayApply(s2, 0) by { ReplayedMayApply(s2, 0); }
    var s3 := AppliesAlone(b, s2, 0, op);
    var s4 := CompletesAlone(b, s3, 0, op);
    s := TailEnds(b, s4);
  }

  /** catch_up moves on, saves the checkpoint and is through. */
  lemma TailEnds(b: Node, s: Node) returns (end: Node)
    requires Leads(b, s) && s.tail == Following(1, 1, Some(0)) && s.checkpoint.sequence < 2
    requires 0 in s.p.reqs && s.p.reqs[0].phase.Done?
    ensures Leads(b, end) && end == s.(checkpoint := Mark(2, 1), tail := Resting)
  {
    hide Leads, P.Enabled, P.Apply;
    Extends(b, s, TailDone);
    var s1 := s.(tail := Following(2, 1, None));
    Extends(b, s1, TailSave);
    var s2 := s1.(checkpoint := Mark(2, 1));
    Extends(b, s2, TailStop);
    end := s2.(tail := Resting);
  }

  lemma ReplayedMayApply(s: Node, r: nat)
    requires r in s.p.reqs && r in s.origin && s.origin[r].Replayed?
    ensures MayApply(s, r)
  {
  }

  lemma DrainingIsGood(place: P.Placement, op: Operation, s: Node)
    requires P.ShardsBounded(place) && Leads(Born(place, OneRecord(op)), s)
    ensures Inv(s)
  {
    hide Inv, Walk;
    OneRecordFacts(op);
    N.BornIsGood(place, OneRecord(op));
    var steps :| Walk(Born(place, OneRecord(op)), steps, s);
    WalkKeepsInv(Born(place, OneRecord(op)), steps, s);
  }

  lemma CountedTwice(op: Operation)
    ensures Balance(Add(Add(map[], op), op), Position(op.owner, op.sku)) == 2 * op.delta
    ensures Total(FirstPerId([op]), Position(op.owner, op.sku)) == op.delta && Total(FirstPerId([op] + [op]), Position(op.owner, op.sku)) == op.delta
  {
    assert [op][..0] == [] && ([op] + [op])[..1] == [op];
    assert FirstPerId([op]) == [op];
    assert HasId([op], op.id) by { assert [op][0].id == op.id; }
    assert FirstPerId([op] + [op]) == [op] + [];
  }

  /** Start-up compaction while the persist queue drains, then a crash and a retry: the
      balance counts the operation twice, the log contains it once. */
  lemma DrainingCompactionCountsTwice(place: P.Placement, op: Operation) returns (s: Node, end: Node)
    requires P.ShardsBounded(place)
    ensures Leads(Born(place, OneRecord(op)), s) && Inv(s) && Quiescent(s) && s.p.queue != [] && !N.AllPersisted(s)
    ensures Leads(Reborn(s), end)
    ensures Balance(end.balances, Position(op.owner, op.sku)) == 2 * op.delta
    ensures Total(FirstPerId(Accepted(end.log)), Position(op.owner, op.sku)) == op.delta
  {
    hide Leads, Inv, Quiescent, Accepted, FirstPerId, Total, Add;
    s := DrainingRun(place, op);
    DrainingIsGood(place, op, s);
    OneRecordFacts(op);
    end := LostIdIsCountedAgain(s, op);
    CountedTwice(op);
    assert op.id in s.p.committed by { CountedIsCommitted(s, op); }
  }

  lemma CountedIsCommitted(s: Node, op: Operation)
    requires Inv(s) && Quiescent(s) && op in s.journal
    ensures op.id in s.p.committed
  {
    hide P.Inv, Durable, Sums, OnDisk, Walled, Honest, TailOk, OriginsOk, ShownOk, Q.AppliedHeld;
    N.EndedHoldsNothing(s.p.place, s.p.reqs, op);
    assert P.Settled(s.p.committed, op);
  }

  /** The node that comes back when the crash falls between saving the snapshot and
      resetting the WAL. */
  ghost function RebornTorn(s: Node): Node { Starting(N.Compacted(s).(wal := s.wal), s.wal, s.p.index.stored) }

  /** Such a crash at the same moment counts the operation twice at once. */
  lemma TornCompactionCountsTwice(place: P.Placement, op: Operation) returns (s: Node)
    requires P.ShardsBounded(place)
    ensures Leads(Born(place, OneRecord(op)), s) && Inv(s) && Quiescent(s)
    ensures Balance(RebornTorn(s).balances, Position(op.owner, op.sku)) == 2 * op.delta
    ensures Total(FirstPerId(Accepted(RebornTorn(s).log)), Position(op.owner, op.sku)) == op.delta
  {
    hide Leads, Inv, Quiescent, Accepted, FirstPerId, Total, Add;
    s := DrainingRun(place, op);
    DrainingIsGood(place, op, s);
    OneRecordFacts(op);
    CountedTwice(op);
    OneIsFirst(op);
    AddOne(s.balances, op);
  }

  lemma OneIsFirst(op: Operation)
    ensures FirstPerId([op]) == [op]
  {
    assert [op][..0] == [] && FirstPerId([op]) == [] + [op];
  }

  lemma AddOne(b: Balances, op: Operation)
    ensures AddAll(b, [op]) == Add(b, op)
  {
    assert [op][..0] == [] && AddAll(b, [op][..0]) == b;
  }

  /** A torn compaction counts nothing twice exactly if no record of the WAL has an id that
      was already committed when the snapshot was taken. */
  lemma TornCompactionIsSafeIff(s: Node)
    requires Inv(s) && Quiescent(s)
    ensures CountsOnce(RebornTorn(s)) <==> forall op :: op in s.wal ==> op.id !in s.p.committed
  {
    hide P.Inv, Accounted, OnDisk, Walled, Honest, TailOk, OriginsOk, ShownOk, FirstPerId, AddAll, Durable, DistinctIds;
    var recovered := FirstPerId(s.wal);
    N.SumsApplyAll(s.balances, s.journal, recovered);
    assert RebornTorn(s).journal == s.journal + recovered;
    FirstPerIdFacts(s.wal);
    if forall op :: op in s.wal ==> op.id !in s.p.committed {
      NoneRepeats(s, recovered);
    } else {
      var op :| op in s.wal && op.id in s.p.committed;
      SomeRepeats(s, op, recovered);
    }
  }

  lemma NoneRepeats(s: Node, recovered: seq<Operation>)
    requires Inv(s) && Quiescent(s) && DistinctIds(recovered)
    requires forall op :: op in recovered ==> op.id !in s.p.committed
    ensures DistinctIds(s.journal + recovered)
  {
    hide Inv, Quiescent;
    assert DistinctIds(s.journal) by { GoodCountsOnce(s); }
    var all := s.journal + recovered;
    forall i, j | 0 <= i < j < |all| ensures all[i].id != all[j].id {
      if i < |s.journal| <= j {
        CountedIsCommitted(s, s.journal[i]);
        assert all[j] in recovered;
      }
    }
  }

  lemma SomeRepeats(s: Node, op: Operation, recovered: seq<Operation>)
    requires Inv(s) && op in s.wal && op.id in s.p.committed
    requires forall id :: HasId(recovered, id) <==> HasId(s.wal, id)
    ensures !DistinctIds(s.journal + recovered)
  {
    hide Inv;
    R.MemberHasId(s.wal, op);
    var j :| 0 <= j < |recovered| && recovered[j].id == op.id;
    var counted := CommittedIsCounted(s, op.id);
    var i :| 0 <= i < |s.journal| && s.journal[i] == counted;
    var all := s.journal + recovered;
    assert all[i].id == all[|s.journal| + j].id;
  }
}
