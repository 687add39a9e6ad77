/** Exactly-once effect: the invariant of the node and what it means for balances. */
module NodeProof {
  import opened Model
  import opened ReplicatedLog
  import opened Node
  import P = Protocol
  import Q = ProtocolProof

  // ----- Protocol steps without a ledger effect -----

  lemma AccountedQuiet(p: P.State, p': P.State, journal: seq<Operation>)
    requires Q.Quiet(p, p') && Accounted(p.place, p.reqs, p.committed, journal)
    ensures Accounted(p'.place, p'.reqs, p'.committed, journal)
  {
    hide Q.AppliedHeld;
    forall op | op in journal ensures P.Settled(p'.committed, op) || Q.AppliedHeld(p'.place, p'.reqs, op) {
      assert P.Settled(p.committed, op) || Q.AppliedHeld(p.place, p.reqs, op);
    }
    forall k | k in p'.committed ensures Listed(journal, k, p'.committed[k]) {
      if k in p.committed {
        assert Listed(journal, k, p.committed[k]);
      } else {
        assert Q.AppliedBy(p.reqs, k, p'.committed[k]);
        var r, i: nat :| r in p.reqs && i in p.reqs[r].applied && i < |p.reqs[r].ops|
                         && p.reqs[r].ops[i].id == k && Fingerprint(p.reqs[r].ops[i]) == p'.committed[k];
        assert AppliedAt(p.reqs[r], i);
      }
    }
    WorkIsOld(p, p');
  }

  /** Whatever is applied after a quiet step was applied before it, by the same request. */
  lemma WorkIsOld(p: P.State, p': P.State)
    requires Q.Quiet(p, p')
    ensures forall r, i: nat :: r in p'.reqs && AppliedAt(p'.reqs[r], i) ==>
              r in p.reqs && AppliedAt(p.reqs[r], i) && p.reqs[r].ops[i] == p'.reqs[r].ops[i]
              && (Q.Unpublished(p'.reqs[r].phase) <==> Q.Unpublished(p.reqs[r].phase))
  {
    hide Q.AppliedHeld, Q.AppliedBy, Q.Unpublished;
    forall r, i: nat | r in p'.reqs && AppliedAt(p'.reqs[r], i)
      ensures r in p.reqs && AppliedAt(p.reqs[r], i) && p.reqs[r].ops[i] == p'.reqs[r].ops[i]
              && (Q.Unpublished(p'.reqs[r].phase) <==> Q.Unpublished(p.reqs[r].phase))
    {
      assert r in p.reqs;
      assert Q.SameWork(p.reqs[r], p'.reqs[r]);
    }
  }

  lemma WorkIsKept(p: P.State, p': P.State)
    requires Q.Quiet(p, p')
    ensures forall r, i: nat :: r in p.reqs && AppliedAt(p.reqs[r], i) ==>
              r in p'.reqs && AppliedAt(p'.reqs[r], i) && p.reqs[r].ops[i] == p'.reqs[r].ops[i]
              && (Q.Unpublished(p'.reqs[r].phase) <==> Q.Unpublished(p.reqs[r].phase))
  {
    hide Q.AppliedHeld, Q.AppliedBy, Q.Unpublished;
    forall r, i: nat | r in p.reqs && AppliedAt(p.reqs[r], i)
      ensures r in p'.reqs && AppliedAt(p'.reqs[r], i) && p.reqs[r].ops[i] == p'.reqs[r].ops[i]
              && (Q.Unpublished(p'.reqs[r].phase) <==> Q.Unpublished(p.reqs[r].phase))
    {
      assert Q.SameWork(p.reqs[r], p'.reqs[r]);
    }
  }

  lemma ShownQuiet(p: P.State, p': P.State, journal: seq<Operation>, shown: seq<Operation>)
    requires Q.Quiet(p, p') && ShownOk(p.reqs, journal, shown)
    ensures ShownOk(p'.reqs, journal, shown)
  {
    hide Q.Quiet, Q.Unpublished, DistinctIds;
    WorkIsOld(p, p');
    WorkIsKept(p, p');
    forall op | op in journal ensures UnpublishedOp(p'.reqs, op) <==> UnpublishedOp(p.reqs, op) {
      if UnpublishedOp(p.reqs, op) {
        var r, i: nat :| r in p.reqs && Q.Unpublished(p.reqs[r].phase) && AppliedAt(p.reqs[r], i) && p.reqs[r].ops[i] == op;
        assert AppliedAt(p'.reqs[r], i);
      }
      if UnpublishedOp(p'.reqs, op) {
        var r, i: nat :| r in p'.reqs && Q.Unpublished(p'.reqs[r].phase) && AppliedAt(p'.reqs[r], i) && p'.reqs[r].ops[i] == op;
        assert AppliedAt(p.reqs[r], i);
      }
    }
  }

  lemma WalledQuiet(p: P.State, p': P.State, wal: seq<Operation>)
    requires Q.Quiet(p, p') && Walled(p.reqs, wal)
    ensures Walled(p'.reqs, wal)
  {
    hide Q.AppliedHeld, Q.AppliedBy;
    forall r, i: nat | r in p'.reqs && p'.reqs[r].phase.Applying? && P.Marked(p'.reqs[r], i)
      ensures p'.reqs[r].ops[i] in wal
    {
      assert r in p.reqs;
      assert Q.SameWork(p.reqs[r], p'.reqs[r]);
      assert P.Marked(p.reqs[r], i);
    }
  }

  /** The parts of the invariant that a quiet step of the protocol leaves in place. */
  lemma QuietPart(s: Node, p': P.State)
    requires Inv(s) && Q.Quiet(s.p, p')
    ensures Accounted(p'.place, p'.reqs, p'.committed, s.journal)
    ensures OnDisk(s.synced, p'.index.stored, s.settled) && Walled(p'.reqs, s.wal)
    ensures ShownOk(p'.reqs, s.journal, s.shown)
    ensures TailOk(s.log, s.tail, s.journal, p'.reqs, s.origin)
    ensures forall r :: r in s.p.reqs ==> r in p'.reqs && p'.reqs[r].ops == s.p.reqs[r].ops
  {
    hide P.Inv, Durable, Sums, Accounted, Walled, Honest, OriginsOk, ShownOk, Q.AppliedHeld, Q.AppliedBy;
    AccountedQuiet(s.p, p', s.journal);
    ShownQuiet(s.p, p', s.journal, s.shown);
    WalledQuiet(s.p, p', s.wal);
    forall r | r in s.p.reqs ensures r in p'.reqs && p'.reqs[r].ops == s.p.reqs[r].ops {
      assert Q.SameWork(s.p.reqs[r], p'.reqs[r]);
    }
  }

  lemma InnerKeeps(s: Node, step: P.Step)
    requires Inv(s) && Enabled(s, Inner(step))
    ensures Inv(Apply(s, Inner(step)))
  {
    hide P.Inv, Durable, Sums, Accounted, OnDisk, Walled, Honest, TailOk, ShownOk, P.Enabled, P.Apply, Q.Quiet;
    Q.QuietSteps(s.p, step);
    Q.StepKeepsInv(s.p, step);
    Q.RequestsStay(s.p, step);
    QuietPart(s, P.Apply(s.p, step));
  }

  // ----- A request begins -----

  lemma ClientKeeps(s: Node, r: nat, ops: seq<Operation>)
    requires Inv(s) && Enabled(s, ClientBegins(r, ops))
    ensures Inv(Apply(s, ClientBegins(r, ops)))
  {
    hide P.Inv, Durable, Sums, Accounted, OnDisk, Walled, Honest, ShownOk, Q.Quiet, P.BatchAgrees;
    var p' := P.Apply(s.p, P.Begin(r, ops));
    Q.BeginIsQuiet(s.p, r, ops);
    Q.BeginKeeps(s.p, r, ops);
    QuietPart(s, p');
  }

  // ----- The log grows -----

  lemma HonestGrows(log: Log, record: LogRecord, mark: Mark, counted: seq<Operation>)
    requires Honest(log, mark, counted)
    ensures Honest(log + [record], mark, counted)
  {
    assert (log + [record])[..mark.sequence] == log[..mark.sequence];
  }

  lemma DurableGrows(log: Log, record: LogRecord, wal: seq<Operation>, settled: seq<Operation>, journal: seq<Operation>)
    requires Durable(log, wal, settled, journal) && ConsistentIds(Accepted(log + [record]))
    ensures Durable(log + [record], wal, settled, journal)
  {
    hide DistinctIds, ConsistentIds, Apart;
    AppendFold(log, record);
  }

  lemma OriginsGrow(log: Log, record: LogRecord, reqs: P.Requests, origin: map<nat, Origin>)
    requires OriginsOk(log, reqs, origin)
    ensures OriginsOk(log + [record], reqs, origin)
  {
    hide Active;
    forall at: nat | Accepts(log, at) ensures Accepts(log + [record], at) {
      AcceptanceIsStable(log, [record], at);
    }
  }

  lemma LogGrows(s: Node, record: LogRecord)
    requires Inv(s) && ConsistentIds(Accepted(s.log + [record]))
    ensures Inv(s.(log := s.log + [record]))
  {
    hide P.Inv, Durable, Sums, Accounted, OnDisk, Walled, Honest, OriginsOk, ShownOk;
    DurableGrows(s.log, record, s.wal, s.settled, s.journal);
    HonestGrows(s.log, record, s.checkpoint, s.journal);
    HonestGrows(s.log, record, Mark(s.snapshot.sequence, s.snapshot.epoch), s.settled);
    OriginsGrow(s.log, record, s.p.reqs, s.origin);
    if s.tail.Following? { HonestGrows(s.log, record, Mark(s.tail.next, s.tail.epoch), s.journal); }
  }

  lemma OriginChanges(s: Node, r: nat, at: nat)
    requires Inv(s) && r in s.p.reqs && r in s.origin && !s.origin[r].Replayed?
    ensures Inv(s.(origin := s.origin[r := Replicated(at)]))
  {
    hide P.Inv, Durable, Sums, Accounted, OnDisk, Walled, Honest, ShownOk, Accepts;
  }

  lemma ReplicateKeeps(s: Node, step: Step)
    requires Inv(s) && Enabled(s, step) && (step.Replicate? || step.ReplicateAgain? || step.Foreign?)
    ensures Inv(Apply(s, step))
  {
    hide Inv, Accepted, ConsistentIds, NewOps;
    match step
    case Replicate(r, epoch) =>
      LogGrows(s, Operations(epoch, NewOps(s.p.reqs[r])));
      OriginChanges(s.(log := s.log + [Operations(epoch, NewOps(s.p.reqs[r]))]), r, |s.log|);
    case ReplicateAgain(r, at) => OriginChanges(s, r, at);
    case Foreign(record) => LogGrows(s, record);
  }

  // ----- The new operations of a request -----

  lemma {:induction false} MarkedOpsMembers(ops: seq<Operation>, marks: seq<bool>)
    requires |marks| == |ops|
    ensures forall op :: op in MarkedOps(ops, marks) <==> exists i: nat :: i < |ops| && marks[i] && ops[i] == op
  {
    if ops != [] {
      var m := |ops| - 1;
      MarkedOpsMembers(ops[..m], marks[..m]);
      forall op ensures op in MarkedOps(ops, marks) <==> exists i: nat :: i < |ops| && marks[i] && ops[i] == op {
        if op in MarkedOps(ops[..m], marks[..m]) {
          var i: nat :| i < |ops[..m]| && marks[..m][i] && ops[..m][i] == op;
          assert marks[i] && ops[i] == op;
        }
        if i: nat :| i < |ops| && marks[i] && ops[i] == op {
          if i < m { assert marks[..m][i] && ops[..m][i] == op; }
        }
      }
    }
  }

  lemma {:induction false} MarkedOpsDistinct(ops: seq<Operation>, marks: seq<bool>)
    requires |marks| == |ops|
    requires forall i: nat :: i < |ops| && marks[i] ==> P.IsFirst(ops, i)
    ensures DistinctIds(MarkedOps(ops, marks))
  {
    if ops != [] {
      var m := |ops| - 1;
      var before := MarkedOps(ops[..m], marks[..m]);
      forall i: nat | i < |ops[..m]| && marks[..m][i] ensures P.IsFirst(ops[..m], i) {
        assert P.IsFirst(ops, i);
      }
      MarkedOpsDistinct(ops[..m], marks[..m]);
      if marks[m] {
        MarkedOpsMembers(ops[..m], marks[..m]);
        forall j | 0 <= j < |before| ensures before[j].id != ops[m].id {
          assert before[j] in before;
          var i: nat :| i < |ops[..m]| && marks[..m][i] && ops[..m][i] == before[j];
          assert P.IsFirst(ops, m) && ops[i].id != ops[m].id;
        }
      }
    }
  }

  lemma NewOpsFacts(place: P.Placement, q: P.Request)
    requires P.RequestOk(place, q)
    ensures |q.marks| == |q.ops| && DistinctIds(NewOps(q))
    ensures forall op :: op in NewOps(q) <==> exists i: nat :: P.Marked(q, i) && q.ops[i] == op
  {
    hide DistinctIds, P.IsFirst, P.BatchAgrees;
    MarkedOpsMembers(q.ops, q.marks);
    assert forall i: nat :: i < |q.ops| && q.marks[i] ==> P.Marked(q, i);
    MarkedOpsDistinct(q.ops, q.marks);
    forall op ensures op in NewOps(q) <==> exists i: nat :: P.Marked(q, i) && q.ops[i] == op {
      if op in NewOps(q) {
        var i: nat :| i < |q.ops| && q.marks[i] && q.ops[i] == op;
        assert P.Marked(q, i);
      }
    }
  }

  lemma NewOpsUncommitted(p: P.State, r: nat)
    requires P.Inv(p) && r in p.reqs && p.reqs[r].phase.Reserved?
    ensures forall op :: op in NewOps(p.reqs[r]) ==> op.id !in p.committed
  {
    hide P.Inv, P.IsFirst, NewOps, P.BatchAgrees;
    Q.RequestFacts(p, r);
    NewOpsFacts(p.place, p.reqs[r]);
    Q.SuccessfulPreflight(p, r);
  }

  lemma NewOpsAccepted(s: Node, r: nat)
    requires P.Inv(s.p) && OriginsOk(s.log, s.p.reqs, s.origin) && r in s.p.reqs && r in s.origin && MayApply(s, r)
    ensures Includes(Accepted(s.log), NewOps(s.p.reqs[r]))
  {
    hide P.Inv, NewOps, Accepted;
    var q := s.p.reqs[r];
    if NewOps(q) != [] {
      if s.origin[r].Replicated? {
        AcceptedRecordCounts(s.log, s.origin[r].at);
      } else {
        Q.RequestFacts(s.p, r);
        NewOpsFacts(s.p.place, q);
        AcceptedRecordCounts(s.log, s.origin[r].at);
      }
    }
  }

  lemma SettledAreCommitted(s: Node)
    requires P.Inv(s.p) && OnDisk(s.synced, s.p.index.stored, s.settled)
    ensures forall op :: op in s.settled ==> op.id in s.p.committed
  {
    StoredAreCommitted(s.p);
    forall op | op in s.settled ensures op.id in s.p.committed {
      assert P.Settled(s.synced, op);
    }
  }

  lemma StoredAreCommitted(p: P.State)
    requires P.Inv(p)
    ensures forall k :: k in p.index.stored ==> k in p.committed && p.committed[k] == p.index.stored[k]
  {
  }

  // ----- The WAL -----

  lemma WalGrows(log: Log, wal: seq<Operation>, settled: seq<Operation>, journal: seq<Operation>, more: seq<Operation>)
    requires Durable(log, wal, settled, journal) && Includes(Accepted(log), more) && Apart(settled, more)
    ensures Durable(log, wal + more, settled, journal)
  {
    hide ConsistentIds, DistinctIds, Accepted;
  }

  lemma WalledGrows(reqs: P.Requests, wal: seq<Operation>, more: seq<Operation>)
    requires Walled(reqs, wal)
    ensures Walled(reqs, wal + more)
  {
  }

  /** Any prefix of a request's new operations may end up in the WAL. */
  lemma WalMayGrow(s: Node, r: nat, n: nat)
    requires Inv(s) && r in s.p.reqs && r in s.origin && s.p.reqs[r].phase.Reserved? && MayApply(s, r)
    requires n <= |NewOps(s.p.reqs[r])|
    ensures Durable(s.log, s.wal + NewOps(s.p.reqs[r])[..n], s.settled, s.journal)
  {
    hide P.Inv, Durable, Sums, Accounted, Walled, Honest, TailOk, ShownOk, NewOps, Accepted, MayApply;
    var more := NewOps(s.p.reqs[r]);
    NewOpsUncommitted(s.p, r);
    NewOpsAccepted(s, r);
    SettledAreCommitted(s);
    assert forall op :: op in more[..n] ==> op in more;
    WalGrows(s.log, s.wal, s.settled, s.journal, more[..n]);
  }

  /** A request that has applied nothing changes phase: the ledger does not notice. */
  lemma PhaseUnnoticed(place: P.Placement, reqs: P.Requests, r: nat, q: P.Request, committed: map<P.Key, Content>,
                       journal: seq<Operation>, shown: seq<Operation>)
    requires Accounted(place, reqs, committed, journal) && ShownOk(reqs, journal, shown)
    requires r in reqs && reqs[r].applied == {} && q.applied == {}
    ensures Accounted(place, reqs[r := q], committed, journal) && ShownOk(reqs[r := q], journal, shown)
  {
    hide DistinctIds, P.Holds, Q.AppliedHeld, Q.Unpublished;
    Q.AppliedStaysHeld(place, reqs, r, q);
    var reqs' := reqs[r := q];
    assert forall p, i: nat :: p in reqs' && AppliedAt(reqs'[p], i) ==> p != r;
    forall op ensures UnpublishedOp(reqs', op) <==> UnpublishedOp(reqs, op) {
      if UnpublishedOp(reqs, op) {
        var p, i: nat :| p in reqs && Q.Unpublished(reqs[p].phase) && AppliedAt(reqs[p], i) && reqs[p].ops[i] == op;
        assert p != r && AppliedAt(reqs'[p], i);
      }
      if UnpublishedOp(reqs', op) {
        var p, i: nat :| p in reqs' && Q.Unpublished(reqs'[p].phase) && AppliedAt(reqs'[p], i) && reqs'[p].ops[i] == op;
        assert p != r && AppliedAt(reqs[p], i);
      }
    }
  }

  lemma ReservedIsIdle(place: P.Placement, q: P.Request)
    requires P.RequestOk(place, q) && q.phase.Reserved?
    ensures q.applied == {}
  {
  }

  lemma WalledCommits(place: P.Placement, reqs: P.Requests, r: nat, wal: seq<Operation>)
    requires Walled(reqs, wal) && r in reqs && P.RequestOk(place, reqs[r])
    ensures Walled(reqs[r := reqs[r].(phase := P.Applying)], wal + NewOps(reqs[r]))
  {
    hide P.RequestOk, NewOps;
    var q := reqs[r];
    NewOpsFacts(place, q);
    assert forall i: nat :: P.Marked(q.(phase := P.Applying), i) ==> P.Marked(q, i);
  }

  lemma WalAppendKeeps(s: Node, r: nat)
    requires Inv(s) && Enabled(s, WalAppend(r))
    ensures Inv(Apply(s, WalAppend(r)))
  {
    hide P.Inv, Durable, Sums, Accounted, OnDisk, Walled, Honest, ShownOk, NewOps, MayApply, P.RequestOk;
    var q := s.p.reqs[r];
    Q.RequestFacts(s.p, r);
    Q.PhaseStepsKeep(s.p, P.Commit(r));
    ReservedIsIdle(s.p.place, q);
    PhaseUnnoticed(s.p.place, s.p.reqs, r, q.(phase := P.Applying), s.p.committed, s.journal, s.shown);
    WalledCommits(s.p.place, s.p.reqs, r, s.wal);
    assert NewOps(q)[..|NewOps(q)|] == NewOps(q);
    WalMayGrow(s, r, |NewOps(q)|);
  }

  lemma WalUnsureKeeps(s: Node, r: nat)
    requires Inv(s) && Enabled(s, WalUnsure(r))
    ensures Inv(Apply(s, WalUnsure(r)))
  {
    hide P.Inv, Durable, Sums, Accounted, OnDisk, Walled, Honest, ShownOk, NewOps, MayApply, Q.Quiet;
    var q := s.p.reqs[r];
    Q.PhaseStepsKeep(s.p, P.Abort(r));
    Q.QuietSteps(s.p, P.Abort(r));
    QuietPart(s, P.Apply(s.p, P.Abort(r)));
    WalledGrows(P.Apply(s.p, P.Abort(r)).reqs, s.wal, NewOps(q));
    assert NewOps(q)[..|NewOps(q)|] == NewOps(q);
    WalMayGrow(s, r, |NewOps(q)|);
  }

  // ----- Applying one operation to the balances -----

  /** An operation about to be applied has an id the journal does not know. */
  lemma IdIsFresh(p: P.State, r: nat, i: nat, journal: seq<Operation>)
    requires P.Inv(p) && Accounted(p.place, p.reqs, p.committed, journal) && P.Enabled(p, P.ApplyOne(r, i))
    ensures forall op :: op in journal ==> op.id != p.reqs[r].ops[i].id
  {
    hide P.RequestsOk, P.Visibility, P.Pipeline, P.Probes, P.Decisions, P.WakeUps, P.Ownership;
    var q := p.reqs[r];
    assert P.Holds(p.place, q, i);
    Q.OneHolder(p.place, p.memory, p.reqs, r, i, r, i);
    Q.PendingIsUncommitted(p.place, p.memory, p.index, p.committed, q.ops[i].id);
    forall op | op in journal ensures op.id != q.ops[i].id {
      if !P.Settled(p.committed, op) {
        assert Q.AppliedHeld(p.place, p.reqs, op);
        var r', j: nat :| r' in p.reqs && j in p.reqs[r'].applied && j < |p.reqs[r'].ops| && P.Holds(p.place, p.reqs[r'], j)
                          && p.reqs[r'].ops[j] == op;
        if op.id == q.ops[i].id { Q.SingleReservation(p, r, i, r', j); }
      }
    }
  }

  lemma AccountedApply(place: P.Placement, reqs: P.Requests, r: nat, i: nat, committed: map<P.Key, Content>,
                       journal: seq<Operation>)
    requires Accounted(place, reqs, committed, journal) && r in reqs && reqs[r].phase.Applying? && P.Marked(reqs[r], i)
    requires forall op :: op in journal ==> op.id != reqs[r].ops[i].id
    ensures Accounted(place, reqs[r := reqs[r].(applied := reqs[r].applied + {i})], committed, journal + [reqs[r].ops[i]])
  {
    hide Q.AppliedHeld;
    var q := reqs[r];
    var q' := q.(applied := q.applied + {i});
    var reqs', journal' := reqs[r := q'], journal + [q.ops[i]];
    assert forall j: nat :: P.Holds(place, q, j) ==> P.Holds(place, q', j);
    Q.AppliedStaysHeld(place, reqs, r, q');
    assert Q.AppliedHeld(place, reqs', q.ops[i]) by {
      assert P.Marked(q', i) && P.Holds(place, q', i) && reqs'[r] == q' && i in reqs'[r].applied;
      HeldHere(place, reqs', r, i);
    }
    forall k | k in committed ensures Listed(journal', k, committed[k]) {
      assert Listed(journal, k, committed[k]);
      var op :| op in journal && op.id == k && Fingerprint(op) == committed[k];
      assert op in journal';
    }
    forall p, j: nat | p in reqs' && AppliedAt(reqs'[p], j) ensures reqs'[p].ops[j] in journal' {
      if !(p == r && j == i) { assert AppliedAt(reqs[p], j); }
    }
    forall r1: nat, r2: nat, a: nat, b: nat | r1 in reqs' && r2 in reqs' && r1 != r2 && AppliedAt(reqs'[r1], a) && AppliedAt(reqs'[r2], b)
      ensures reqs'[r1].ops[a].id != reqs'[r2].ops[b].id
    {
      if !(r1 == r && a == i) { assert AppliedAt(reqs[r1], a); }
      if !(r2 == r && b == i) { assert AppliedAt(reqs[r2], b); }
    }
  }

  lemma HeldHere(place: P.Placement, reqs: P.Requests, r: nat, i: nat)
    requires r in reqs && i in reqs[r].applied && i < |reqs[r].ops| && P.Holds(place, reqs[r], i)
    ensures Q.AppliedHeld(place, reqs, reqs[r].ops[i])
  {
  }

  lemma ShownApply(reqs: P.Requests, r: nat, i: nat, journal: seq<Operation>, shown: seq<Operation>)
    requires ShownOk(reqs, journal, shown) && r in reqs && reqs[r].phase.Applying? && P.Marked(reqs[r], i)
    requires forall op :: op in journal ==> op.id != reqs[r].ops[i].id
    ensures ShownOk(reqs[r := reqs[r].(applied := reqs[r].applied + {i})], journal + [reqs[r].ops[i]], shown)
  {
    hide DistinctIds;
    var q := reqs[r];
    var q' := q.(applied := q.applied + {i});
    var reqs', journal' := reqs[r := q'], journal + [q.ops[i]];
    assert AppliedAt(q', i) && UnpublishedOp(reqs', q.ops[i]) by { assert reqs'[r] == q' && AppliedAt(reqs'[r], i); }
    forall op | op in journal ensures UnpublishedOp(reqs', op) <==> UnpublishedOp(reqs, op) {
      if UnpublishedOp(reqs, op) {
        var p, j: nat :| p in reqs && Q.Unpublished(reqs[p].phase) && AppliedAt(reqs[p], j) && reqs[p].ops[j] == op;
        assert AppliedAt(reqs'[p], j);
      }
      if UnpublishedOp(reqs', op) {
        var p, j: nat :| p in reqs' && Q.Unpublished(reqs'[p].phase) && AppliedAt(reqs'[p], j) && reqs'[p].ops[j] == op;
        assert AppliedAt(reqs[p], j);
      }
    }
  }

  lemma SumsApply(b: Balances, ops: seq<Operation>, op: Operation)
    requires Sums(b, ops)
    ensures Sums(Add(b, op), ops + [op])
  {
    assert (ops + [op])[..|ops|] == ops;
  }

  lemma {:induction false} SumsApplyAll(b: Balances, ops: seq<Operation>, more: seq<Operation>)
    requires Sums(b, ops)
    ensures Sums(AddAll(b, more), ops + more)
  {
    if more == [] {
      assert ops + more == ops;
    } else {
      var m := |more| - 1;
      SumsApplyAll(b, ops, more[..m]);
      SumsApply(AddAll(b, more[..m]), ops + more[..m], more[m]);
      assert ops + more == ops + more[..m] + [more[m]];
    }
  }

  lemma DurableApply(log: Log, wal: seq<Operation>, settled: seq<Operation>, journal: seq<Operation>, op: Operation)
    requires Durable(log, wal, settled, journal) && op in wal
    requires forall x :: x in journal ==> x.id != op.id
    ensures Durable(log, wal, settled, journal + [op])
  {
    hide ConsistentIds, Accepted, Apart;
    forall j | 0 <= j < |journal| ensures journal[j].id != op.id { assert journal[j] in journal; }
  }

  lemma HonestStays(log: Log, mark: Mark, counted: seq<Operation>, more: seq<Operation>)
    requires Honest(log, mark, counted)
    ensures Honest(log, mark, counted + more)
  {
  }

  lemma ApplyOneKeeps(s: Node, r: nat, i: nat)
    requires Inv(s) && Enabled(s, ApplyOne(r, i))
    ensures Inv(Apply(s, ApplyOne(r, i)))
  {
    hide P.Inv, Durable, Sums, Accounted, OnDisk, Honest, ShownOk, Add;
    var op := s.p.reqs[r].ops[i];
    Q.PhaseStepsKeep(s.p, P.ApplyOne(r, i));
    IdIsFresh(s.p, r, i, s.journal);
    AccountedApply(s.p.place, s.p.reqs, r, i, s.p.committed, s.journal);
    ShownApply(s.p.reqs, r, i, s.journal, s.shown);
    SumsApply(s.balances, s.journal, op);
    assert op in s.wal;
    DurableApply(s.log, s.wal, s.settled, s.journal, op);
    WalledApplies(s.p.reqs, r, i, s.wal);
    HonestStays(s.log, s.checkpoint, s.journal, [op]);
    if s.tail.Following? { HonestStays(s.log, Mark(s.tail.next, s.tail.epoch), s.journal, [op]); }
  }

  lemma WalledApplies(reqs: P.Requests, r: nat, i: nat, wal: seq<Operation>)
    requires Walled(reqs, wal) && r in reqs
    ensures Walled(reqs[r := reqs[r].(applied := reqs[r].applied + {i})], wal)
  {
    var reqs' := reqs[r := reqs[r].(applied := reqs[r].applied + {i})];
    assert forall p, j: nat :: p in reqs' && P.Marked(reqs'[p], j) ==> P.Marked(reqs[p], j);
  }

  // ----- Publication -----

  lemma PublishingApplied(place: P.Placement, q: P.Request)
    requires P.RequestOk(place, q) && q.phase.Publishing?
    ensures forall op :: op in NewOps(q) <==> exists i: nat :: AppliedAt(q, i) && q.ops[i] == op
  {
    hide P.BatchAgrees, P.IsFirst, NewOps;
    NewOpsFacts(place, q);
    forall op ensures op in NewOps(q) <==> exists i: nat :: AppliedAt(q, i) && q.ops[i] == op {
      if op in NewOps(q) {
        var i: nat :| P.Marked(q, i) && q.ops[i] == op;
        assert AppliedAt(q, i);
      }
      if i: nat :| AppliedAt(q, i) && q.ops[i] == op { assert P.Marked(q, i); }
    }
  }

  /** Publishing moves one request's operations, all of them, from unpublished to shown. */
  lemma ShownPublish(place: P.Placement, reqs: P.Requests, r: nat, committed: map<P.Key, Content>,
                     journal: seq<Operation>, shown: seq<Operation>, batch: seq<Operation>)
    requires ShownOk(reqs, journal, shown) && Accounted(place, reqs, committed, journal)
    requires r in reqs && reqs[r].phase.Publishing? && DistinctIds(batch)
    requires forall a, b :: a in journal && b in journal && a.id == b.id ==> a == b
    requires forall op :: op in batch <==> exists i: nat :: AppliedAt(reqs[r], i) && reqs[r].ops[i] == op
    ensures ShownOk(reqs[r := reqs[r].(phase := P.Enqueuing)], journal, shown + batch)
  {
    hide Q.AppliedHeld, P.Settled, Listed;
    var q := reqs[r];
    var reqs' := reqs[r := q.(phase := P.Enqueuing)];
    forall op | op in batch ensures op in journal && op !in shown && UnpublishedOp(reqs, op) {
      var i: nat :| AppliedAt(q, i) && q.ops[i] == op;
      assert UnpublishedOp(reqs, op) by { assert reqs[r] == q && AppliedAt(reqs[r], i); }
    }
    BatchIsNew(journal, shown, batch);
    forall op | op in journal ensures op in shown + batch <==> !UnpublishedOp(reqs', op) {
      if UnpublishedOp(reqs, op) && op !in batch {
        var p, j: nat :| p in reqs && Q.Unpublished(reqs[p].phase) && AppliedAt(reqs[p], j) && reqs[p].ops[j] == op;
        assert p != r && AppliedAt(reqs'[p], j) && UnpublishedOp(reqs', op);
      }
      if UnpublishedOp(reqs', op) {
        var p, j: nat :| p in reqs' && Q.Unpublished(reqs'[p].phase) && AppliedAt(reqs'[p], j) && reqs'[p].ops[j] == op;
        assert p != r && AppliedAt(reqs[p], j) && UnpublishedOp(reqs, op);
      }
    }
  }

  /** Distinct sequences inside one journal of distinct ids, without a common member. */
  lemma BatchIsNew(journal: seq<Operation>, shown: seq<Operation>, batch: seq<Operation>)
    requires DistinctIds(shown) && DistinctIds(batch) && Includes(journal, shown)
    requires forall op :: op in batch ==> op in journal && op !in shown
    requires forall a, b :: a in journal && b in journal && a.id == b.id ==> a == b
    ensures DistinctIds(shown + batch) && Includes(journal, shown + batch)
  {
    var all := shown + batch;
    forall i, j | 0 <= i < j < |all| ensures all[i].id != all[j].id {
      if i < |shown| <= j {
        assert shown[i] in shown && batch[j - |shown|] in batch;
      }
    }
  }

  lemma DistinctAreConsistent(ops: seq<Operation>)
    requires DistinctIds(ops)
    ensures forall a, b :: a in ops && b in ops && a.id == b.id ==> a == b
  {
  }

  lemma DurableIsDistinct(log: Log, wal: seq<Operation>, settled: seq<Operation>, journal: seq<Operation>)
    requires Durable(log, wal, settled, journal)
    ensures DistinctIds(journal) && DistinctIds(settled) && ConsistentIds(Accepted(log)) && Apart(settled, wal)
    ensures Includes(Accepted(log), wal) && Includes(Accepted(log), journal) && Includes(journal, settled)
    ensures forall op :: op in journal ==> op in settled || op in wal
  {
  }

  lemma AccountedAdvance(place: P.Placement, reqs: P.Requests, r: nat, phase: P.Phase, committed: map<P.Key, Content>,
                         journal: seq<Operation>)
    requires Accounted(place, reqs, committed, journal) && r in reqs && reqs[r].phase.Publishing?
    ensures Accounted(place, reqs[r := reqs[r].(phase := phase)], committed, journal)
  {
    hide Q.AppliedHeld;
    Q.AppliedStaysHeld(place, reqs, r, reqs[r].(phase := phase));
    var reqs' := reqs[r := reqs[r].(phase := phase)];
    assert forall p, i: nat :: p in reqs' && AppliedAt(reqs'[p], i) ==> AppliedAt(reqs[p], i) && reqs'[p].ops == reqs[p].ops;
  }

  lemma WalledAdvance(reqs: P.Requests, r: nat, phase: P.Phase, wal: seq<Operation>)
    requires Walled(reqs, wal) && r in reqs && !phase.Applying?
    ensures Walled(reqs[r := reqs[r].(phase := phase)], wal)
  {
  }

  lemma PublishKeeps(s: Node, r: nat)
    requires Inv(s) && Enabled(s, Publish(r))
    ensures Inv(Apply(s, Publish(r)))
  {
    hide P.Inv, Durable, Sums, Accounted, OnDisk, Walled, Honest, ShownOk, NewOps, AddAll, DistinctIds;
    var batch := NewOps(s.p.reqs[r]);
    Q.PhaseStepsKeep(s.p, P.Published(r));
    Q.RequestFacts(s.p, r);
    NewOpsFacts(s.p.place, s.p.reqs[r]);
    PublishingApplied(s.p.place, s.p.reqs[r]);
    ShownPublishInJournal(s, r, batch);
    AccountedAdvance(s.p.place, s.p.reqs, r, P.Enqueuing, s.p.committed, s.journal);
    WalledAdvance(s.p.reqs, r, P.Enqueuing, s.wal);
    SumsApplyAll(s.published, s.shown, batch);
  }

  lemma ShownPublishInJournal(s: Node, r: nat, batch: seq<Operation>)
    requires Inv(s) && r in s.p.reqs && s.p.reqs[r].phase.Publishing? && DistinctIds(batch)
    requires forall op :: op in batch <==> exists i: nat :: AppliedAt(s.p.reqs[r], i) && s.p.reqs[r].ops[i] == op
    ensures ShownOk(s.p.reqs[r := s.p.reqs[r].(phase := P.Enqueuing)], s.journal, s.shown + batch)
  {
    hide P.Inv, Durable, Sums, Accounted, OnDisk, Walled, Honest, ShownOk, DistinctIds, TailOk, OriginsOk;
    DurableIsDistinct(s.log, s.wal, s.settled, s.journal);
    DistinctAreConsistent(s.journal);
    ShownPublish(s.p.place, s.p.reqs, r, s.p.committed, s.journal, s.shown, batch);
  }

  // ----- The log tail -----

  lemma TailMovesKeep(s: Node, step: Step)
    requires Inv(s) && Enabled(s, step) && (step.TailStart? || step.TailStop? || step.TailSave? || step.Serve?)
    ensures Inv(Apply(s, step))
  {
    hide P.Inv, Durable, Sums, Accounted, OnDisk, Walled, Honest, ShownOk, OriginsOk;
  }

  /** Reading past a record that yields nothing. */
  lemma HonestPasses(log: Log, n: nat, epoch: U64, counted: seq<Operation>)
    requires Honest(log, Mark(n, epoch), counted) && n < |log|
    requires log[n].Operations? ==> log[n].epoch == epoch ==> Includes(counted, log[n].operations)
    ensures Honest(log, Mark(n + 1, match log[n] { case Fence(e, _) => Max(epoch, e) case _ => epoch }), counted)
  {
    FoldOfOneMore(0, log, n);
  }

  lemma TailReadKeeps(s: Node, r: nat)
    requires Inv(s) && Enabled(s, TailRead(r))
    ensures Inv(Apply(s, TailRead(r)))
  {
    hide Inv;
    if s.log[s.tail.next].Operations? && s.log[s.tail.next].epoch == s.tail.epoch && s.log[s.tail.next].operations != [] {
      TailAcceptKeeps(s, r);
    } else {
      TailPassKeeps(s, r);
    }
  }

  lemma TailPassKeeps(s: Node, r: nat)
    requires Inv(s) && Enabled(s, TailRead(r))
    requires !(s.log[s.tail.next].Operations? && s.log[s.tail.next].epoch == s.tail.epoch && s.log[s.tail.next].operations != [])
    ensures Inv(Apply(s, TailRead(r)))
  {
    hide P.Inv, Durable, Sums, Accounted, OnDisk, Walled, Honest, ShownOk, OriginsOk;
    HonestPasses(s.log, s.tail.next, s.tail.epoch, s.journal);
  }

  lemma TailAcceptKeeps(s: Node, r: nat)
    requires Inv(s) && Enabled(s, TailRead(r))
    requires s.log[s.tail.next].Operations? && s.log[s.tail.next].epoch == s.tail.epoch && s.log[s.tail.next].operations != []
    ensures Inv(Apply(s, TailRead(r)))
  {
    hide P.Inv, Durable, Sums, Accounted, OnDisk, Walled, Honest, ShownOk, Q.Quiet, P.BatchAgrees, Accepts;
    var n, epoch := s.tail.next, s.tail.epoch;
    var ops := s.log[n].operations;
    var p' := P.Apply(s.p, P.Begin(r, ops));
    Q.BeginIsQuiet(s.p, r, ops);
    Q.BeginKeeps(s.p, r, ops);
    QuietPart(s, p');
    HonestAccepts(s.log, n, epoch, s.journal);
  }

  lemma HonestAccepts(log: Log, n: nat, epoch: U64, counted: seq<Operation>)
    requires Honest(log, Mark(n, epoch), counted) && n < |log| && log[n].Operations? && log[n].epoch == epoch
    ensures Accepts(log, n)
  {
  }

  /** When a replayed request is done every operation of its record is in the journal. */
  lemma DoneMeansCounted(s: Node, r: nat)
    requires Inv(s) && r in s.p.reqs && s.p.reqs[r].phase.Done?
    ensures Includes(s.journal, s.p.reqs[r].ops)
  {
    hide P.Inv, Durable, Sums, OnDisk, Walled, Honest, ShownOk, OriginsOk, TailOk;
    var q := s.p.reqs[r];
    Q.RequestFacts(s.p, r);
    forall op | op in q.ops ensures op in s.journal {
      var j :| 0 <= j < |q.ops| && q.ops[j] == op;
      DoneSettles(s.p.place, q, s.p.committed, j);
      assert Listed(s.journal, op.id, s.p.committed[op.id]);
    }
  }

  lemma DoneSettles(place: P.Placement, q: P.Request, committed: map<P.Key, Content>, j: nat)
    requires P.RequestOk(place, q) && P.DecidedWell(place, q, committed) && q.phase.Done? && j < |q.ops|
    ensures P.Settled(committed, q.ops[j])
  {
    var i := FirstOf(q.ops, j);
    assert P.Examined(place, q, i) && P.Passed(place, q, i);
    assert P.Settled(committed, q.ops[i]);
    assert i < j ==> Fingerprint(q.ops[i]) == Fingerprint(q.ops[j]);
  }

  lemma FirstOf(ops: seq<Operation>, j: nat) returns (i: nat)
    requires j < |ops|
    ensures i <= j && ops[i].id == ops[j].id && P.IsFirst(ops, i)
  {
    i := 0;
    while ops[i].id != ops[j].id
      invariant i <= j
      invariant forall a :: 0 <= a < i ==> ops[a].id != ops[j].id
      decreases j - i
    {
      i := i + 1;
    }
  }

  lemma TailDoneKeeps(s: Node)
    requires Inv(s) && Enabled(s, TailDone)
    ensures Inv(Apply(s, TailDone))
  {
    hide P.Inv, Durable, Sums, Accounted, OnDisk, Walled, Honest, ShownOk;
    var r := s.tail.busy.value;
    DoneMeansCounted(s, r);
    AcceptsIsOperations(s.log, s.tail.next);
    HonestPasses(s.log, s.tail.next, s.tail.epoch, s.journal);
  }

  lemma AcceptsIsOperations(log: Log, at: nat)
    ensures Accepts(log, at) ==> at < |log| && log[at].Operations?
  {
  }

  // ----- Crash, recovery and compaction -----

  lemma RecoveredMembers(log: Log, wal: seq<Operation>)
    requires ConsistentIds(Accepted(log)) && Includes(Accepted(log), wal)
    ensures DistinctIds(FirstPerId(wal))
    ensures forall op :: op in FirstPerId(wal) <==> op in wal
  {
    hide Accepted;
    FirstPerIdFacts(wal);
    forall op | op in wal ensures op in FirstPerId(wal) {
      var i :| 0 <= i < |wal| && wal[i] == op;
      assert HasId(wal, op.id);
      assert HasId(FirstPerId(wal), op.id);
      var j :| 0 <= j < |FirstPerId(wal)| && FirstPerId(wal)[j].id == op.id;
      assert FirstPerId(wal)[j] in wal;
    }
  }

  lemma HasIdExtends(ops: seq<Operation>, m: nat, k: P.Key)
    requires m <= |ops|
    ensures HasId(ops[..m], k) ==> HasId(ops, k)
  {
    if HasId(ops[..m], k) {
      var j :| 0 <= j < m && ops[..m][j].id == k;
      assert ops[j].id == k;
    }
  }

  lemma ApartIds(a: seq<Operation>, b: seq<Operation>, op: Operation)
    requires Apart(a, b) && op in a
    ensures !HasId(b, op.id)
  {
    forall j | 0 <= j < |b| ensures b[j].id != op.id { assert b[j] in b; }
  }

  lemma {:induction false} IndexAfterStart(found: map<P.Key, Content>, ops: seq<Operation>)
    requires DistinctIds(ops)
    ensures var index := P.StoredWith(found, AllPairs(ops));
            && (forall op :: op in ops ==> P.Settled(index, op))
            && (forall k :: k in found && !HasId(ops, k) ==> k in index && index[k] == found[k])
            && (forall k :: k in index ==> k in found || HasId(ops, k))
  {
    if ops != [] {
      var m := |ops| - 1;
      IndexAfterStart(found, ops[..m]);
      var pairs := AllPairs(ops);
      assert pairs[..|pairs| - 1] == AllPairs(ops[..m]);
      var index := P.StoredWith(found, pairs);
      forall op | op in ops ensures P.Settled(index, op) {
        var j :| 0 <= j < |ops| && ops[j] == op;
        if j < m { assert ops[..m][j] == op && op in ops[..m]; }
      }
      forall k | k in found && !HasId(ops, k) ensures k in index && index[k] == found[k] {
        assert ops[m].id != k;
        HasIdExtends(ops, m, k);
      }
      forall k | k in index ensures k in found || HasId(ops, k) {
        if k == ops[m].id { assert HasId(ops, k); }
        HasIdExtends(ops, m, k);
      }
    }
  }

  lemma DurableAfterStart(log: Log, wal: seq<Operation>, settled: seq<Operation>, journal: seq<Operation>)
    requires Durable(log, wal, settled, journal)
    ensures Durable(log, wal, settled, settled + FirstPerId(wal))
    ensures Includes(settled + FirstPerId(wal), journal)
  {
    hide Accepted;
    RecoveredMembers(log, wal);
    var recovered := FirstPerId(wal);
    assert forall i :: 0 <= i < |settled| ==> settled[i] in settled;
    assert forall i :: 0 <= i < |recovered| ==> recovered[i] in wal;
  }

  /** After a start the dedup index lists exactly the ids of the journal. */
  lemma IndexMatchesJournal(place: P.Placement, synced: map<P.Key, Content>, found: map<P.Key, Content>,
                            wal: seq<Operation>, settled: seq<Operation>, recovered: seq<Operation>, earlier: seq<Operation>)
    requires forall op :: op in settled ==> P.Settled(synced, op)
    requires forall k :: k in synced ==> k in found && found[k] == synced[k]
    requires forall k :: k in found ==> Listed(earlier, k, found[k])
    requires Includes(settled + recovered, earlier) && DistinctIds(recovered) && Apart(settled, recovered)
    requires DistinctIds(settled + recovered)
    ensures var index := P.StoredWith(found, AllPairs(recovered));
            && Accounted(place, map[], index, settled + recovered)
            && OnDisk(synced, index, settled)
  {
    var index := P.StoredWith(found, AllPairs(recovered));
    var journal := settled + recovered;
    IndexAfterStart(found, recovered);
    forall op | op in settled ensures P.Settled(index, op) {
      assert P.Settled(synced, op);
      ApartIds(settled, recovered, op);
    }
    DistinctAreConsistent(journal);
    forall k | k in index ensures Listed(journal, k, index[k]) {
      if HasId(recovered, k) {
        var j :| 0 <= j < |recovered| && recovered[j].id == k;
        assert recovered[j] in recovered && recovered[j] in journal && P.Settled(index, recovered[j]);
      } else {
        assert Listed(earlier, k, found[k]);
        var op :| op in earlier && op.id == k && Fingerprint(op) == found[k];
        assert op in journal;
      }
    }
    assert forall k :: k in synced ==> k in index && index[k] == synced[k] by {
      SyncedSurvives(synced, found, recovered, settled, earlier, index);
    }
  }

  lemma SyncedSurvives(synced: map<P.Key, Content>, found: map<P.Key, Content>, recovered: seq<Operation>,
                       settled: seq<Operation>, earlier: seq<Operation>, index: map<P.Key, Content>)
    requires forall k :: k in synced ==> k in found && found[k] == synced[k]
    requires forall k :: k in found ==> Listed(earlier, k, found[k])
    requires Includes(settled + recovered, earlier) && DistinctIds(settled + recovered)
    requires forall op :: op in recovered ==> P.Settled(index, op)
    requires forall k :: k in found && !HasId(recovered, k) ==> k in index && index[k] == found[k]
    ensures forall k :: k in synced ==> k in index && index[k] == synced[k]
  {
    DistinctAreConsistent(settled + recovered);
    forall k | k in synced ensures k in index && index[k] == synced[k] {
      if HasId(recovered, k) {
        var j :| 0 <= j < |recovered| && recovered[j].id == k;
        assert recovered[j] in recovered;
        assert Listed(earlier, k, found[k]);
        var op :| op in earlier && op.id == k && Fingerprint(op) == found[k];
        assert op in settled + recovered && recovered[j] in settled + recovered;
      }
    }
  }

  lemma HonestMonotone(log: Log, mark: Mark, counted: seq<Operation>, more: seq<Operation>)
    requires Honest(log, mark, counted) && Includes(more, counted)
    ensures Honest(log, mark, more)
  {
  }

  lemma ShownAtStart(journal: seq<Operation>)
    requires DistinctIds(journal)
    ensures ShownOk(map[], journal, journal)
  {
    assert forall op :: !UnpublishedOp(map[], op);
  }

  lemma StartKeeps(s: Node, wal: seq<Operation>, found: map<P.Key, Content>)
    requires Inv(s) && Durable(s.log, wal, s.settled, s.journal)
    requires forall k :: k in s.synced ==> k in found && found[k] == s.synced[k]
    requires forall k :: k in found ==> k in s.p.index.stored && found[k] == s.p.index.stored[k]
    ensures Inv(Starting(s, wal, found))
    ensures Includes(Starting(s, wal, found).journal, s.journal)
  {
    hide P.Inv, Durable, Sums, Honest, ShownOk, TailOk, AddAll, AllPairs, P.StoredWith, Accepted, DistinctIds, Apart, FirstPerId;
    var recovered := FirstPerId(wal);
    var journal := s.settled + recovered;
    var s' := Starting(s, wal, found);
    DurableAfterStart(s.log, wal, s.settled, s.journal);
    DurableIsDistinct(s.log, wal, s.settled, s.journal);
    DurableIsDistinct(s.log, wal, s.settled, journal);
    RecoveredMembers(s.log, wal);
    ApartMembers(s.settled, wal, recovered);
    StoredAreCommitted(s.p);
    assert forall k :: k in found ==> Listed(s.journal, k, found[k]);
    IndexMatchesJournal(s.p.place, s.synced, found, wal, s.settled, recovered, s.journal);
    SumsApplyAll(s.snapshot.balances, s.settled, recovered);
    HonestMonotone(s.log, s.checkpoint, s.journal, journal);
    HonestMonotone(s.log, Mark(s.snapshot.sequence, s.snapshot.epoch), s.settled, journal);
    ShownAtStart(journal);
    Q.PlacementBounded(s.p);
    Q.StartedIsGood(s.p.place, s'.p.index.stored);
    assert s'.p.committed == s'.p.index.stored && s'.p.reqs == map[];
    RestingIsOk(s.log, journal);
  }

  lemma RestingIsOk(log: Log, journal: seq<Operation>)
    ensures TailOk(log, Resting, journal, map[], map[])
  {
  }

  lemma ApartMembers(a: seq<Operation>, b: seq<Operation>, c: seq<Operation>)
    requires Apart(a, b) && forall op :: op in c ==> op in b
    ensures Apart(a, c)
  {
  }

  lemma CrashKeeps(s: Node, torn: Option<(nat, nat)>, found: map<P.Key, Content>)
    requires Inv(s) && Enabled(s, CrashAndStart(torn, found))
    ensures Inv(Apply(s, CrashAndStart(torn, found)))
    ensures Includes(Apply(s, CrashAndStart(torn, found)).journal, s.journal)
  {
    hide Inv, Starting, NewOps, MayApply, Durable, Includes;
    match torn
    case Some(rn) =>
      WalMayGrow(s, rn.0, rn.1);
      StartKeeps(s, s.wal + NewOps(s.p.reqs[rn.0])[..rn.1], found);
    case None =>
      assert s.wal + [] == s.wal;
      InvDurable(s);
      StartKeeps(s, s.wal, found);
  }

  lemma InvDurable(s: Node)
    requires Inv(s)
    ensures Durable(s.log, s.wal, s.settled, s.journal)
  {
  }

  lemma EndedHoldsNothing(place: P.Placement, reqs: P.Requests, op: Operation)
    requires forall r :: r in reqs ==> P.Ended(reqs[r].phase)
    ensures !Q.AppliedHeld(place, reqs, op)
  {
  }

  lemma CompactDurable(log: Log, wal: seq<Operation>, settled: seq<Operation>, journal: seq<Operation>)
    requires Durable(log, wal, settled, journal)
    ensures Durable(log, [], journal, journal)
  {
  }

  lemma DrainedOnDisk(s: Node)
    requires Inv(s) && Drained(s)
    ensures OnDisk(s.p.index.stored, s.p.index.stored, s.journal)
  {
    hide P.Inv, Durable, Sums, OnDisk, Walled, Honest, ShownOk, OriginsOk, TailOk, Q.AppliedHeld;
    StoredAreCommitted(s.p);
    forall op | op in s.journal ensures P.Settled(s.p.index.stored, op) {
      EndedHoldsNothing(s.p.place, s.p.reqs, op);
      assert P.Settled(s.p.committed, op);
    }
    assert OnDisk(s.p.index.stored, s.p.index.stored, s.journal) by { OnDiskSelf(s.p.index.stored, s.journal); }
  }

  lemma OnDiskSelf(stored: map<P.Key, Content>, settled: seq<Operation>)
    requires forall op :: op in settled ==> P.Settled(stored, op)
    ensures OnDisk(stored, stored, settled)
  {
  }

  lemma CompactKeeps(s: Node)
    requires Inv(s) && Enabled(s, Compact)
    ensures Inv(Apply(s, Compact))
  {
    hide P.Inv, Durable, Sums, Accounted, OnDisk, Honest, ShownOk, OriginsOk;
    DrainedOnDisk(s);
    CompactDurable(s.log, s.wal, s.settled, s.journal);
  }

  // ----- Every run -----

  lemma StepKeepsInv(s: Node, step: Step)
    requires Inv(s) && Enabled(s, step)
    ensures Inv(Apply(s, step))
  {
    hide Inv;
    match step
    case ClientBegins(r, ops) => ClientKeeps(s, r, ops);
    case Inner(inner) => InnerKeeps(s, inner);
    case Replicate(_, _) => ReplicateKeeps(s, step);
    case ReplicateAgain(_, _) => ReplicateKeeps(s, step);
    case Foreign(_) => ReplicateKeeps(s, step);
    case WalAppend(r) => WalAppendKeeps(s, r);
    case WalUnsure(r) => WalUnsureKeeps(s, r);
    case ApplyOne(r, i) => ApplyOneKeeps(s, r, i);
    case Publish(r) => PublishKeeps(s, r);
    case TailStart => TailMovesKeep(s, step);
    case TailStop => TailMovesKeep(s, step);
    case TailSave => TailMovesKeep(s, step);
    case Serve => TailMovesKeep(s, step);
    case TailRead(r) => TailReadKeeps(s, r);
    case TailDone => TailDoneKeeps(s);
    case CrashAndStart(torn, found) => CrashKeeps(s, torn, found);
    case Compact => CompactKeeps(s);
  }

  ghost predicate IsRun(place: P.Placement, log: Log, steps: seq<Step>, states: seq<Node>) {
    && P.ShardsBounded(place) && ConsistentIds(Accepted(log))
    && |states| == |steps| + 1
    && states[0] == Born(place, log)
    && forall n :: 0 <= n < |steps| ==> Enabled(states[n], steps[n]) && states[n + 1] == Apply(states[n], steps[n])
  }

  lemma BornIsGood(place: P.Placement, log: Log)
    requires P.ShardsBounded(place) && ConsistentIds(Accepted(log))
    ensures Inv(Born(place, log))
  {
    hide P.Inv, ConsistentIds;
    var s := Born(place, log);
    Q.FreshIsGood(place);
    ShownAtStart([]);
    assert log[..0] == [];
    assert OnDisk(s.synced, s.p.index.stored, s.settled) && Walled(s.p.reqs, s.wal);
    assert Honest(s.log, s.checkpoint, s.journal);
  }

  lemma {:induction false} RunsAreGood(place: P.Placement, log: Log, steps: seq<Step>, states: seq<Node>, n: nat)
    requires IsRun(place, log, steps, states) && n < |states|
    ensures Inv(states[n])
  {
    hide Inv, Enabled, Apply;
    if n == 0 {
      BornIsGood(place, log);
    } else {
      RunsAreGood(place, log, steps, states, n - 1);
      StepKeepsInv(states[n - 1], steps[n - 1]);
    }
  }

  // ----- What the invariant means -----

  /** At every moment the balances are the sum of distinct accepted operations: nothing
      is counted twice, nothing unaccepted is counted at all. */
  lemma NothingCountedTwice(s: Node, owner: Text, sku: Text)
    requires Inv(s)
    ensures Balance(s.balances, Position(owner, sku))
            == SumOver((set op | op in s.journal && op.owner == owner && op.sku == sku), DeltaOf)
    ensures forall op :: op in s.journal ==> exists at: nat :: Accepts(s.log, at) && op in s.log[at].operations
    ensures forall i, j :: 0 <= i < j < |s.journal| ==> s.journal[i].id != s.journal[j].id
  {
    hide Inv, ActiveFrom, AcceptedFrom, SumOver;
    JournalSums(s, Position(owner, sku));
    TotalIsSumOfSet(s.journal, owner, sku);
    forall op | op in s.journal ensures exists at: nat :: Accepts(s.log, at) && op in s.log[at].operations {
      AcceptedMembers(s.log, op);
    }
  }

  lemma JournalSums(s: Node, p: Position)
    requires Inv(s)
    ensures Balance(s.balances, p) == Total(s.journal, p)
    ensures DistinctIds(s.journal) && Includes(Accepted(s.log), s.journal) && ConsistentIds(Accepted(s.log))
  {
    hide P.Inv, Accounted, OnDisk, Walled, Honest, TailOk, OriginsOk, ShownOk, ConsistentIds, Apart, DistinctIds;
  }

  lemma CaughtUp(s: Node, p: Position)
    requires Inv(s) && s.tail.Following? && s.tail.next == |s.log|
    ensures Balance(s.balances, p) == Total(FirstPerId(Accepted(s.log)), p)
  {
    hide P.Inv, Accounted, OnDisk, Walled, OriginsOk, ShownOk, Durable;
    JournalSums(s, p);
    DurableIsDistinct(s.log, s.wal, s.settled, s.journal);
    assert s.log[..s.tail.next] == s.log;
    RecoveredMembers(s.log, Accepted(s.log));
    TotalDependsOnMembers(s.journal, FirstPerId(Accepted(s.log)), p);
  }

  /** Exactly once. In any run, with any interleaving of requests, replay, persistence,
      publication and crashes, a node whose tail has reached the end of the log shows for
      each owner and SKU the sum of the deltas of the accepted operations that name them,
      each counted once however often it was sent, logged, replayed or recovered. */
  lemma ExactlyOnce(place: P.Placement, log: Log, steps: seq<Step>, states: seq<Node>, n: nat, owner: Text, sku: Text)
    requires IsRun(place, log, steps, states) && n < |states|
    requires states[n].tail.Following? && states[n].tail.next == |states[n].log|
    ensures Balance(states[n].balances, Position(owner, sku))
            == SumOver((set op | op in Accepted(states[n].log) && op.owner == owner && op.sku == sku), DeltaOf)
  {
    hide Inv, SumOver;
    var s := states[n];
    RunsAreGood(place, log, steps, states, n);
    CaughtUp(s, Position(owner, sku));
    JournalSums(s, Position(owner, sku));
    RecoveredMembers(s.log, Accepted(s.log));
    TotalIsSumOfSet(FirstPerId(Accepted(s.log)), owner, sku);
    assert OpsFor(FirstPerId(Accepted(s.log)), owner, sku) == OpsFor(Accepted(s.log), owner, sku);
  }

  lemma JournalGrows(s: Node, step: Step)
    requires Inv(s) && Enabled(s, step)
    ensures Includes(Apply(s, step).journal, s.journal)
  {
    hide Inv, P.Enabled, P.Apply, AddAll, NewOps, MayApply;
    match step
    case CrashAndStart(torn, found) => CrashKeeps(s, torn, found);
    case _ =>
  }

  lemma {:induction false} JournalNeverShrinks(place: P.Placement, log: Log, steps: seq<Step>, states: seq<Node>, n: nat, m: nat)
    requires IsRun(place, log, steps, states) && n <= m < |states|
    ensures Includes(states[m].journal, states[n].journal)
  {
    hide Inv, Enabled, Apply;
    if n < m {
      JournalNeverShrinks(place, log, steps, states, n, m - 1);
      RunsAreGood(place, log, steps, states, m - 1);
      JournalGrows(states[m - 1], steps[m - 1]);
    }
  }

  /** An acknowledged request stays counted for ever, across every later crash. */
  lemma AcknowledgedIsPermanent(place: P.Placement, log: Log, steps: seq<Step>, states: seq<Node>, n: nat, m: nat, r: nat)
    requires IsRun(place, log, steps, states) && n <= m < |states|
    requires r in states[n].p.reqs && states[n].p.reqs[r].phase.Done?
    ensures Includes(states[m].journal, states[n].p.reqs[r].ops)
  {
    hide Inv, Enabled, Apply;
    RunsAreGood(place, log, steps, states, n);
    DoneMeansCounted(states[n], r);
    JournalNeverShrinks(place, log, steps, states, n, m);
  }

  // ----- Readers -----

  /** Readers see the sum of distinct shown operations; balances are that plus what is
      applied and not yet published, which belongs to requests on their way to publication. */
  lemma PublicationConserves(s: Node, owner: Text, sku: Text)
    requires Inv(s)
    ensures Balance(s.published, Position(owner, sku))
            == SumOver((set op | op in s.shown && op.owner == owner && op.sku == sku), DeltaOf)
    ensures Balance(s.balances, Position(owner, sku))
            == Balance(s.published, Position(owner, sku))
               + SumOver((set op | op in s.journal && UnpublishedOp(s.p.reqs, op) && op.owner == owner && op.sku == sku), DeltaOf)
  {
    hide Inv, Sums, SumOver, UnpublishedOp;
    BothSums(s, Position(owner, sku));
    ShownIsWhole(s);
    HiddenSum(s.journal, s.shown, owner, sku);
    TotalIsSumOfSet(s.shown, owner, sku);
    assert (set op | op in s.journal && op !in s.shown && op.owner == owner && op.sku == sku)
        == set op | op in s.journal && UnpublishedOp(s.p.reqs, op) && op.owner == owner && op.sku == sku;
  }

  lemma BothSums(s: Node, p: Position)
    requires Inv(s)
    ensures Balance(s.balances, p) == Total(s.journal, p) && Balance(s.published, p) == Total(s.shown, p)
  {
    hide P.Inv, Durable, Accounted, OnDisk, Walled, Honest, TailOk, OriginsOk, ShownOk;
  }

  lemma ShownIsWhole(s: Node)
    requires Inv(s)
    ensures DistinctIds(s.shown) && DistinctIds(s.journal) && Includes(s.journal, s.shown)
    ensures forall op :: op in s.journal ==> (op in s.shown <==> !UnpublishedOp(s.p.reqs, op))
  {
    hide P.Inv, Durable, Accounted, OnDisk, Walled, Honest, TailOk, OriginsOk, UnpublishedOp, Sums;
    DurableIsDistinct(s.log, s.wal, s.settled, s.journal);
  }

  lemma HiddenSum(journal: seq<Operation>, shown: seq<Operation>, owner: Text, sku: Text)
    requires DistinctIds(journal) && DistinctIds(shown) && Includes(journal, shown)
    ensures Total(journal, Position(owner, sku))
            == Total(shown, Position(owner, sku))
               + SumOver((set op | op in journal && op !in shown && op.owner == owner && op.sku == sku), DeltaOf)
  {
    hide SumOver, Total, DistinctIds;
    var seen, hidden := OpsFor(shown, owner, sku), set op | op in journal && op !in shown && op.owner == owner && op.sku == sku;
    TotalIsSumOfSet(journal, owner, sku);
    TotalIsSumOfSet(shown, owner, sku);
    assert OpsFor(journal, owner, sku) == seen + hidden;
    SumOfParts(seen, hidden, DeltaOf);
  }

  /** Whole batches: readers see all new operations of a request or none of them. */
  lemma PublicationIsAtomic(s: Node, r: nat)
    requires Inv(s) && r in s.p.reqs && P.BeyondReservation(s.p.reqs[r].phase)
    ensures var q := s.p.reqs[r];
            |q.marks| == |q.ops| && forall i: nat :: i < |q.ops| && q.marks[i] ==> (q.ops[i] in s.shown <==> !Q.Unpublished(q.phase))
  {
    hide P.Inv, Durable, Sums, OnDisk, Walled, Honest, TailOk, OriginsOk, NewOps, DistinctIds, P.RequestOk;
    var q := s.p.reqs[r];
    Q.RequestFacts(s.p, r);
    assert |q.marks| == |q.ops| by { NewOpsFacts(s.p.place, q); }
    forall i: nat | i < |q.ops| && q.marks[i] ensures q.ops[i] in s.shown <==> !Q.Unpublished(q.phase) {
      assert P.Marked(q, i);
      if i in q.applied {
        assert AppliedAt(q, i);
        if Q.Unpublished(q.phase) {
          assert UnpublishedOp(s.p.reqs, q.ops[i]);
        } else {
          AppliedOnce(s, r, i);
        }
      } else {
        UnappliedIsApplying(s.p.place, q, i);
        IdIsFresh(s.p, r, i, s.journal);
      }
    }
  }

  lemma UnappliedIsApplying(place: P.Placement, q: P.Request, i: nat)
    requires P.RequestOk(place, q) && P.BeyondReservation(q.phase) && P.Marked(q, i) && i !in q.applied
    ensures q.phase.Applying?
  {
  }

  lemma AppliedOnce(s: Node, r: nat, i: nat)
    requires Accounted(s.p.place, s.p.reqs, s.p.committed, s.journal) && r in s.p.reqs && AppliedAt(s.p.reqs[r], i)
    requires !Q.Unpublished(s.p.reqs[r].phase)
    ensures !UnpublishedOp(s.p.reqs, s.p.reqs[r].ops[i])
  {
    hide Q.AppliedHeld, Q.Unpublished;
  }

  // ----- When compaction is safe -----

  /** Start-up compaction as the code performs it, whether or not the index is complete. */
  ghost function Compacted(s: Node): Node {
    s.(snapshot := Snapshot(s.balances, s.checkpoint.sequence, s.checkpoint.epoch),
       synced := s.p.index.stored, wal := [], settled := s.journal)
  }

  ghost predicate AllPersisted(s: Node) {
    forall k :: k in s.p.committed ==> k in s.p.index.stored
  }

  /** A crash right after compaction leaves a node that still knows every id it has
      counted if and only if every committed id had reached the disk index: nothing was
      left in the persist queue. Otherwise a retry of a lost id is counted again. */
  lemma CompactionRemembersIff(s: Node)
    requires Inv(s) && (forall r :: r in s.p.reqs ==> P.Ended(s.p.reqs[r].phase))
    ensures var after := Starting(Compacted(s), [], s.p.index.stored);
            AllPersisted(s) <==> forall op :: op in after.journal ==> op.id in after.p.committed
  {
    hide P.Inv, Durable, Sums, OnDisk, Walled, Honest, ShownOk, OriginsOk, TailOk, Q.AppliedHeld;
    var after := Starting(Compacted(s), [], s.p.index.stored);
    assert after.journal == s.journal && after.p.committed == s.p.index.stored by {
      assert FirstPerId([]) == [] && AllPairs([]) == [];
    }
    forall op | op in s.journal ensures op.id in s.p.committed {
      EndedHoldsNothing(s.p.place, s.p.reqs, op);
      assert P.Settled(s.p.committed, op);
    }
    forall k | k in s.p.committed && (forall op :: op in after.journal ==> op.id in after.p.committed)
      ensures k in s.p.index.stored
    {
      assert Listed(s.journal, k, s.p.committed[k]);
    }
  }

  ghost predicate SameBalances(a: Balances, b: Balances) {
    forall p :: Balance(a, p) == Balance(b, p)
  }

  ghost predicate NetsToZero(ops: seq<Operation>) {
    forall p :: Total(ops, p) == 0
  }

  /** A crash between saving the snapshot and resetting the WAL counts the WAL again: the
      balances come back unchanged if and only if the WAL nets to zero at every position. */
  lemma TornCompactionRecoversIff(s: Node)
    requires Inv(s)
    ensures SameBalances(Starting(Compacted(s).(wal := s.wal), s.wal, s.p.index.stored).balances, s.balances)
            <==> NetsToZero(FirstPerId(s.wal))
  {
    hide P.Inv, Durable, Accounted, OnDisk, Walled, Honest, ShownOk, OriginsOk, TailOk, AddAll, FirstPerId;
    var recovered := FirstPerId(s.wal);
    SumsApplyAll(s.balances, s.journal, recovered);
    CountedAgain(s.balances, s.journal, recovered);
  }

  lemma CountedAgain(b: Balances, journal: seq<Operation>, again: seq<Operation>)
    requires Sums(b, journal) && Sums(AddAll(b, again), journal + again)
    ensures SameBalances(AddAll(b, again), b) <==> NetsToZero(again)
  {
    hide AddAll;
    forall p ensures Balance(AddAll(b, again), p) == Balance(b, p) + Total(again, p) {
      TotalOfConcat(journal, again, p);
    }
    if SameBalances(AddAll(b, again), b) {
      forall p ensures Total(again, p) == 0 {
        assert Balance(AddAll(b, again), p) == Balance(b, p);
      }
    }
  }
}
