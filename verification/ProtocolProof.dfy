/** The invariant of the deduplication protocol holds in every run, and what follows
    from it. */
module ProtocolProof {
  import opened Model
  import opened Protocol

  // ----- Steps of one request that leave memory alone -----

  lemma OwnershipLocal(place: Placement, memory: Memory, reqs: Requests, r: nat, q: Request)
    requires Ownership(place, memory, reqs) && r in reqs
    requires q.ops == reqs[r].ops && q.attempt == reqs[r].attempt
    requires forall i: nat :: i < |q.ops| ==> (Holds(place, q, i) <==> Holds(place, reqs[r], i))
    ensures Ownership(place, memory, reqs[r := q])
  {
    var reqs' := reqs[r := q];
    forall k | k in memory && memory[k].Pending? ensures EntryHeld(place, reqs', k, memory[k].token) {
      assert EntryHeld(place, reqs, k, memory[k].token);
    }
  }

  lemma OwnershipIdle(place: Placement, memory: Memory, reqs: Requests, r: nat, q: Request)
    requires Ownership(place, memory, reqs)
    requires r in reqs ==> forall i: nat :: i < |reqs[r].ops| ==> !Holds(place, reqs[r], i)
    requires forall i: nat :: i < |q.ops| ==> !Holds(place, q, i)
    ensures Ownership(place, memory, reqs[r := q])
  {
    var reqs' := reqs[r := q];
    forall k | k in memory && memory[k].Pending? ensures EntryHeld(place, reqs', k, memory[k].token) {
      assert EntryHeld(place, reqs, k, memory[k].token);
    }
  }

  lemma ProbesLocal(place: Placement, memory: Memory, reqs: Requests, committed: map<Key, Content>, r: nat, q: Request)
    requires Probes(place, memory, reqs, committed) && !q.phase.Probed?
    ensures Probes(place, memory, reqs[r := q], committed)
  {
  }

  /** The waits of other requests survive a step of `r` that keeps its promise to notify
      or keeps it now. */
  lemma WakeUpsLocal(reqs: Requests, notified: map<Token, nat>, r: nat, q: Request, notified': map<Token, nat>)
    requires WakeUps(reqs, notified)
    requires forall t :: Heard(notified, t) <= Heard(notified', t)
    requires r in reqs ==> (WillNotify(reqs[r]) ==>
               || (q.attempt == reqs[r].attempt && WillNotify(q))
               || Heard(notified', Token(r, reqs[r].attempt)) > Heard(notified, Token(r, reqs[r].attempt)))
    requires WaitsWell(reqs[r := q], notified', r)
    ensures WakeUps(reqs[r := q], notified')
  {
    var reqs' := reqs[r := q];
    forall t, heard | Answered(reqs, notified, t, heard) ensures Answered(reqs', notified', t, heard) {
      assert Heard(notified, t) <= Heard(notified', t);
      assert t.req == r && r in reqs && reqs[r].attempt == t.attempt ==> t == Token(r, reqs[r].attempt);
    }
    forall p | p in reqs' ensures WaitsWell(reqs', notified', p) {
      if p != r { assert WaitsWell(reqs, notified, p); }
    }
  }

  lemma RequestFacts(s: State, r: nat)
    requires Inv(s) && r in s.reqs
    ensures RequestOk(s.place, s.reqs[r]) && DecidedWell(s.place, s.reqs[r], s.committed) && WaitsWell(s.reqs, s.notified, r)
  {
    hide Ownership, Visibility, Pipeline, Probes, RequestOk, DecidedWell, WaitsWell;
  }

  lemma RequestsLocal(place: Placement, reqs: Requests, committed: map<Key, Content>, r: nat, q: Request)
    requires RequestsOk(place, reqs) && Decisions(place, reqs, committed)
    requires RequestOk(place, q) && DecidedWell(place, q, committed)
    ensures RequestsOk(place, reqs[r := q]) && Decisions(place, reqs[r := q], committed)
  {
    hide RequestOk, DecidedWell;
  }

  lemma LocalStepKeeps(s: State, r: nat, q: Request)
    requires Inv(s) && r in s.reqs
    requires q.ops == s.reqs[r].ops && q.attempt == s.reqs[r].attempt && q.marks == s.reqs[r].marks
    requires !q.phase.Probed? && !q.phase.Waiting? && !q.phase.RollingBack?
    requires RequestOk(s.place, q)
    requires forall i: nat :: i < |q.ops| ==> (Holds(s.place, q, i) <==> Holds(s.place, s.reqs[r], i))
    requires DecidedWell(s.place, q, s.committed)
    requires WillNotify(s.reqs[r]) ==> WillNotify(q)
    ensures Inv(SetReq(s, r, q))
  {
    hide RequestsOk, Ownership, Visibility, Pipeline, Probes, Decisions, WakeUps, RequestOk, DecidedWell;
    RequestsLocal(s.place, s.reqs, s.committed, r, q);
    OwnershipLocal(s.place, s.memory, s.reqs, r, q);
    ProbesLocal(s.place, s.memory, s.reqs, s.committed, r, q);
    WakeUpsLocal(s.reqs, s.notified, r, q, s.notified);
  }

  lemma NewRequestOk(place: Placement, ops: seq<Operation>, committed: map<Key, Content>, q: Request)
    requires q == Request(ops, 0, Unmarked(|ops|), if BatchAgrees(ops) then Preflight(0) else Rejected, {})
    ensures RequestOk(place, q) && DecidedWell(place, q, committed) && !AnyMark(q)
    ensures forall i: nat :: i < |ops| ==> !Holds(place, q, i)
  {
  }

  lemma BeginKeeps(s: State, r: nat, ops: seq<Operation>)
    requires Inv(s) && Enabled(s, Begin(r, ops))
    ensures Inv(Apply(s, Begin(r, ops)))
  {
    hide RequestsOk, Ownership, Visibility, Pipeline, Probes, Decisions, WakeUps, RequestOk, DecidedWell;
    var q := Request(ops, 0, Unmarked(|ops|), if BatchAgrees(ops) then Preflight(0) else Rejected, {});
    NewRequestOk(s.place, ops, s.committed, q);
    RequestsLocal(s.place, s.reqs, s.committed, r, q);
    OwnershipIdle(s.place, s.memory, s.reqs, r, q);
    ProbesLocal(s.place, s.memory, s.reqs, s.committed, r, q);
    WakeUpsLocal(s.reqs, s.notified, r, q, s.notified);
  }

  /** The moves of a request that touch nothing but its own phase. */
  predicate Advances(q: Request, phase: Phase) {
    || (q.phase == Reserved && (phase == Finishing(0, false) || phase == Applying))
    || (q.phase == Applying && phase == Finishing(0, true) && AllApplied(q))
    || (q.phase.Preflight? && q.phase.shard == DEDUP_SHARDS && phase == Reserved)
    || (q.phase.Finishing? && q.phase.shard == DEDUP_SHARDS
        && phase == if q.phase.committed then Publishing else Notifying(false))
    || (q.phase == Publishing && phase == Enqueuing)
    || (q.phase == Enqueuing && phase == Notifying(true))
  }

  lemma AdvanceFacts(place: Placement, q: Request, phase: Phase, committed: map<Key, Content>)
    requires ShardsBounded(place) && RequestOk(place, q) && DecidedWell(place, q, committed) && Advances(q, phase)
    ensures var q' := q.(phase := phase);
            && RequestOk(place, q') && DecidedWell(place, q', committed)
            && (forall i: nat :: i < |q.ops| ==> (Holds(place, q', i) <==> Holds(place, q, i)))
            && (WillNotify(q) ==> WillNotify(q'))
  {
    AdvanceStaysOk(place, q, phase);
    AdvanceStaysDecided(place, q, phase, committed);
    AdvanceStillHolds(place, q, phase);
    hide RequestOk, DecidedWell, Holds;
    var q' := q.(phase := phase);
    if AnyMark(q) {
      var i: nat :| i < |q.ops| && Marked(q, i);
      assert Marked(q', i);
    }
  }

  lemma AdvanceStillHolds(place: Placement, q: Request, phase: Phase)
    requires ShardsBounded(place) && RequestOk(place, q) && Advances(q, phase)
    ensures var q' := q.(phase := phase); forall i: nat :: i < |q.ops| ==> (Holds(place, q', i) <==> Holds(place, q, i))
  {
    assert forall i: nat :: Marked(q.(phase := phase), i) <==> Marked(q, i);
  }

  lemma AdvanceStaysDecided(place: Placement, q: Request, phase: Phase, committed: map<Key, Content>)
    requires ShardsBounded(place) && RequestOk(place, q) && DecidedWell(place, q, committed) && Advances(q, phase)
    ensures DecidedWell(place, q.(phase := phase), committed)
  {
    hide IsFirst, BatchAgrees;
    var q' := q.(phase := phase);
    assert forall i: nat :: Marked(q', i) <==> Marked(q, i);
    assert forall i: nat :: Examined(place, q', i) ==> Examined(place, q, i);
  }

  lemma AdvanceStaysOk(place: Placement, q: Request, phase: Phase)
    requires RequestOk(place, q) && Advances(q, phase)
    ensures RequestOk(place, q.(phase := phase))
  {
    assert forall i: nat :: Marked(q.(phase := phase), i) <==> Marked(q, i);
  }

  lemma AdvanceKeeps(s: State, r: nat, phase: Phase)
    requires Inv(s) && r in s.reqs && Advances(s.reqs[r], phase)
    ensures Inv(SetPhase(s, r, phase))
  {
    hide RequestsOk, Ownership, Visibility, Pipeline, Probes, Decisions, WakeUps, RequestOk, DecidedWell;
    RequestFacts(s, r);
    AdvanceFacts(s.place, s.reqs[r], phase, s.committed);
    LocalStepKeeps(s, r, s.reqs[r].(phase := phase));
  }

  lemma ApplyOneFacts(place: Placement, q: Request, i: nat, committed: map<Key, Content>)
    requires RequestOk(place, q) && DecidedWell(place, q, committed) && q.phase.Applying? && Marked(q, i)
    ensures var q' := q.(applied := q.applied + {i});
            && RequestOk(place, q') && DecidedWell(place, q', committed)
            && (forall j: nat :: j < |q.ops| ==> (Holds(place, q', j) <==> Holds(place, q, j)))
            && (WillNotify(q) ==> WillNotify(q'))
  {
    var q' := q.(applied := q.applied + {i});
    assert forall j: nat :: Marked(q', j) <==> Marked(q, j);
    assert forall j: nat :: Examined(place, q', j) <==> Examined(place, q, j);
    assert Marked(q', i);
  }

  lemma PhaseStepsKeep(s: State, step: Step)
    requires Inv(s) && Enabled(s, step)
    requires step.Abort? || step.Commit? || step.ApplyOne? || step.Finish? || step.Published?
    ensures Inv(Apply(s, step))
  {
    hide RequestsOk, Ownership, Visibility, Pipeline, Probes, Decisions, WakeUps, RequestOk, DecidedWell;
    var r := step.req;
    RequestFacts(s, r);
    if step.ApplyOne? {
      ApplyOneFacts(s.place, s.reqs[r], step.index, s.committed);
      LocalStepKeeps(s, r, s.reqs[r].(applied := s.reqs[r].applied + {step.index}));
    } else {
      AdvanceKeeps(s, r, Apply(s, step).reqs[r].phase);
    }
  }

  // ----- Probe: take a shard lock and consult the Bloom filter -----

  /** get_many misses no committed key that memory does not show. */
  lemma NothingHidden(place: Placement, memory: Memory, index: Index, committed: map<Key, Content>, k: Key)
    requires Visibility(place, memory, index, committed) && k in committed && !InMemory(memory, k)
    ensures DiskSees(place, index, k) && index.stored[k] == committed[k]
  {
  }

  lemma ProbesOfProbe(place: Placement, memory: Memory, index: Index, reqs: Requests, committed: map<Key, Content>,
                      r: nat, q: Request)
    requires Probes(place, memory, reqs, committed) && Visibility(place, memory, index, committed)
    requires q.phase.Probed? && q.phase.sure == set k | k in index.stored && DiskSees(place, index, k)
    requires forall p :: p in reqs && p != r && reqs[p].phase.Probed? ==> reqs[p].phase.shard != q.phase.shard
    ensures Probes(place, memory, reqs[r := q], committed)
  {
    var reqs' := reqs[r := q];
    forall p, k | p in reqs' && Locks(place, reqs'[p], k) && k in committed
      ensures k in reqs'[p].phase.sure || InMemory(memory, k)
    {
      if p == r && !InMemory(memory, k) { NothingHidden(place, memory, index, committed, k); }
    }
  }

  lemma ProbeFacts(place: Placement, q: Request, phase: Phase, committed: map<Key, Content>)
    requires RequestOk(place, q) && DecidedWell(place, q, committed) && q.phase.Preflight?
    requires q.phase.shard < DEDUP_SHARDS
    requires (phase.Probed? && phase.shard == q.phase.shard)
             || (phase == Preflight(q.phase.shard + 1) && Group(place.shard, q.ops, q.phase.shard, |q.ops|) == [])
    ensures var q' := q.(phase := phase);
            && RequestOk(place, q') && DecidedWell(place, q', committed)
            && (forall i: nat :: i < |q.ops| ==> (Holds(place, q', i) <==> Holds(place, q, i)))
            && (WillNotify(q) ==> WillNotify(q'))
  {
    var q' := q.(phase := phase);
    assert forall j: nat :: Marked(q', j) <==> Marked(q, j);
    var group := Group(place.shard, q.ops, q.phase.shard, |q.ops|);
    assert forall i: nat :: Examined(place, q', i) ==> Examined(place, q, i) || i in group;
    if AnyMark(q) {
      var i: nat :| i < |q.ops| && Marked(q, i);
      assert Marked(q', i);
    }
  }

  lemma PreflightBound(place: Placement, q: Request)
    requires RequestOk(place, q) && q.phase.Preflight?
    ensures q.phase.shard <= DEDUP_SHARDS
  {
  }

  lemma ProbeKeeps(s: State, r: nat)
    requires Inv(s) && Enabled(s, Probe(r))
    ensures Inv(Apply(s, Probe(r)))
  {
    hide RequestsOk, Ownership, Visibility, Pipeline, Probes, Decisions, WakeUps, RequestOk, DecidedWell;
    var q := s.reqs[r];
    RequestFacts(s, r);
    if q.phase.shard >= DEDUP_SHARDS {
      PreflightBound(s.place, q);
      AdvanceKeeps(s, r, Reserved);
    } else {
      var phase := Apply(s, Probe(r)).reqs[r].phase;
      var q' := q.(phase := phase);
      ProbeFacts(s.place, q, phase, s.committed);
      RequestsLocal(s.place, s.reqs, s.committed, r, q');
      OwnershipLocal(s.place, s.memory, s.reqs, r, q');
      WakeUpsLocal(s.reqs, s.notified, r, q', s.notified);
      if phase.Probed? {
        ProbesOfProbe(s.place, s.memory, s.index, s.reqs, s.committed, r, q');
      } else {
        ProbesLocal(s.place, s.memory, s.reqs, s.committed, r, q');
      }
    }
  }

  // ----- Reserve: decide under the lock -----

  lemma GroupIsFresh(place: Placement, q: Request)
    requires RequestOk(place, q) && q.phase.Probed?
    ensures Fresh(q.ops, Group(place.shard, q.ops, q.phase.shard, |q.ops|), q.marks)
  {
    var group := Group(place.shard, q.ops, q.phase.shard, |q.ops|);
    forall a | 0 <= a < |group| ensures !q.marks[group[a]] {
      assert group[a] in group;
      if q.marks[group[a]] { assert Marked(q, group[a]); }
    }
    forall a, b | 0 <= a < b < |group| ensures q.ops[group[a]].id != q.ops[group[b]].id {
      assert group[b] in group && group[a] < group[b];
    }
  }

  predicate InGroup(place: Placement, q: Request, i: nat) {
    q.phase.Probed? && i < |q.ops| && IsFirst(q.ops, i) && place.shard(q.ops[i].id) == q.phase.shard
  }

  predicate NewMark(q: Request, d: Decision, i: nat) {
    i < |q.ops| && i < |d.marks| && d.marks[i] && !Marked(q, i)
  }

  predicate Agrees(memory: Memory, seen: map<Key, Content>, op: Operation) {
    || (op.id in memory && memory[op.id] == Committed(Fingerprint(op)))
    || (op.id !in memory && op.id in seen && seen[op.id] == Fingerprint(op))
  }

  /** One decision in terms of the request alone: new marks are new reservations, and a
      decision to go on leaves no unmarked index in doubt. */
  ghost predicate DecisionOk(place: Placement, q: Request, memory: Memory, seen: map<Key, Content>, token: Token, d: Decision) {
    && |d.marks| == |q.ops|
    && (forall i: nat :: Marked(q, i) ==> d.marks[i])
    && (forall i: nat :: NewMark(q, d, i) ==>
          && InGroup(place, q, i) && q.ops[i].id !in memory && q.ops[i].id !in seen
          && HoldsEntry(d.memory, q.ops[i], token))
    && (forall k :: k in memory ==> k in d.memory && d.memory[k] == memory[k])
    && (forall k :: k in d.memory && k !in memory ==> exists i: nat :: NewMark(q, d, i) && q.ops[i].id == k)
    && (d.verdict.Continue? ==> forall i: nat :: InGroup(place, q, i) ==> d.marks[i] || Agrees(memory, seen, q.ops[i]))
    && (d.verdict.MustWait? ==> exists i: nat :: InGroup(place, q, i) && !Marked(q, i)
                                                 && HoldsEntry(memory, q.ops[i], d.verdict.token))
  }

  lemma GroupMembers(place: Placement, q: Request)
    requires RequestOk(place, q) && q.phase.Probed?
    ensures var group := Group(place.shard, q.ops, q.phase.shard, |q.ops|);
            && Fresh(q.ops, group, q.marks)
            && (forall i: nat :: i in group <==> InGroup(place, q, i))
            && (forall i: nat :: i in group ==> !Marked(q, i))
  {
    hide RequestOk;
    GroupIsFresh(place, q);
    var group := Group(place.shard, q.ops, q.phase.shard, |q.ops|);
    forall i: nat | i in group ensures !Marked(q, i) {
      var a :| 0 <= a < |group| && group[a] == i;
      assert !q.marks[group[a]];
    }
  }

  lemma DecisionFromGroup(place: Placement, q: Request, group: seq<nat>, memory: Memory, seen: map<Key, Content>,
                          token: Token, d: Decision)
    requires Fresh(q.ops, group, q.marks) && |q.marks| == |q.ops|
    requires d == Decide(memory, seen, q.ops, group, token, q.marks)
    requires forall i: nat :: i in group <==> InGroup(place, q, i)
    requires forall i: nat :: i in group ==> !Marked(q, i)
    ensures DecisionOk(place, q, memory, seen, token, d)
  {
    hide Decide, Fresh, IsFirst;
    DecideFrame(memory, seen, q.ops, group, token, q.marks);
    DecideReserves(memory, seen, q.ops, group, token, q.marks);
    VerdictFromGroup(place, q, group, memory, seen, token, d);
    assert forall i: nat :: Marked(q, i) ==> d.marks[i] by {
      forall i: nat | Marked(q, i) ensures d.marks[i] { assert i !in group; }
    }
    forall i: nat | NewMark(q, d, i)
      ensures InGroup(place, q, i) && q.ops[i].id !in memory && q.ops[i].id !in seen && HoldsEntry(d.memory, q.ops[i], token)
    {
      assert i in group;
    }
    forall k | k in d.memory && k !in memory ensures exists i: nat :: NewMark(q, d, i) && q.ops[i].id == k {
      var i: nat :| i in group && i < |q.ops| && d.marks[i] && q.ops[i].id == k;
      assert NewMark(q, d, i);
    }
  }

  lemma VerdictFromGroup(place: Placement, q: Request, group: seq<nat>, memory: Memory, seen: map<Key, Content>,
                         token: Token, d: Decision)
    requires Fresh(q.ops, group, q.marks) && |q.marks| == |q.ops|
    requires d == Decide(memory, seen, q.ops, group, token, q.marks)
    requires forall i: nat :: i in group <==> InGroup(place, q, i)
    requires forall i: nat :: i in group ==> !Marked(q, i)
    ensures |d.marks| == |q.ops|
    ensures d.verdict.Continue? ==> forall i: nat :: InGroup(place, q, i) ==> d.marks[i] || Agrees(memory, seen, q.ops[i])
    ensures d.verdict.MustWait? ==>
              exists i: nat :: InGroup(place, q, i) && !Marked(q, i) && HoldsEntry(memory, q.ops[i], d.verdict.token)
  {
    hide Decide, Fresh, IsFirst;
    DecideVerdict(memory, seen, q.ops, group, token, q.marks);
    if d.verdict.Continue? {
      forall i: nat | InGroup(place, q, i) ensures d.marks[i] || Agrees(memory, seen, q.ops[i]) { assert i in group; }
    }
    if d.verdict.MustWait? {
      var i: nat :| && i in group && i < |q.ops| && q.ops[i].id in memory
                    && memory[q.ops[i].id] == Pending(Fingerprint(q.ops[i]), d.verdict.token);
      assert InGroup(place, q, i) && !Marked(q, i) && HoldsEntry(memory, q.ops[i], d.verdict.token);
    }
  }

  lemma DecisionIsOk(place: Placement, q: Request, memory: Memory, seen: map<Key, Content>, token: Token, d: Decision)
    requires RequestOk(place, q) && q.phase.Probed?
    requires d == Decide(memory, seen, q.ops, Group(place.shard, q.ops, q.phase.shard, |q.ops|), token, q.marks)
    ensures DecisionOk(place, q, memory, seen, token, d)
  {
    hide RequestOk, Decide, DecisionOk;
    GroupMembers(place, q);
    DecisionFromGroup(place, q, Group(place.shard, q.ops, q.phase.shard, |q.ops|), memory, seen, token, d);
  }

  lemma ReserveRequest(place: Placement, memory: Memory, index: Index, committed: map<Key, Content>, q: Request,
                       seen: map<Key, Content>, token: Token, d: Decision, phase: Phase)
    requires RequestOk(place, q) && DecidedWell(place, q, committed) && Visibility(place, memory, index, committed)
    requires q.phase.Probed? && (forall k :: k in seen ==> k in index.stored && seen[k] == index.stored[k])
    requires DecisionOk(place, q, memory, seen, token, d)
    requires phase == Preflight(q.phase.shard + 1) || (phase.RollingBack? && phase.shard == 0)
    requires phase.Preflight? ==> d.verdict.Continue?
    ensures var q' := q.(marks := d.marks, phase := phase);
            RequestOk(place, q') && DecidedWell(place, q', committed) && (WillNotify(q) ==> WillNotify(q'))
  {
    var q' := q.(marks := d.marks, phase := phase);
    assert forall i: nat :: Marked(q', i) <==> Marked(q, i) || NewMark(q, d, i);
    assert forall i: nat :: Examined(place, q', i) ==> phase.Preflight? && (Examined(place, q, i) || InGroup(place, q, i));
    assert forall i: nat :: !Passed(place, q', i);
    forall i: nat | Examined(place, q', i) ensures Marked(q', i) || Settled(committed, q'.ops[i]) {
      if InGroup(place, q, i) && !d.marks[i] {
        assert Agrees(memory, seen, q.ops[i]);
      }
    }
  }

  lemma ReserveOwnership(place: Placement, memory: Memory, reqs: Requests, r: nat, seen: map<Key, Content>, d: Decision,
                         q': Request)
    requires Ownership(place, memory, reqs) && r in reqs && reqs[r].phase.Probed?
    requires DecisionOk(place, reqs[r], memory, seen, Token(r, reqs[r].attempt), d)
    requires q'.ops == reqs[r].ops && q'.attempt == reqs[r].attempt && q'.marks == d.marks
    requires q'.phase.Preflight? || (q'.phase.RollingBack? && q'.phase.shard == 0)
    ensures Ownership(place, d.memory, reqs[r := q'])
  {
    var q, reqs' := reqs[r], reqs[r := q'];
    assert forall i: nat :: i < |q.ops| ==> (Holds(place, q', i) <==> Marked(q, i) || NewMark(q, d, i));
    assert forall i: nat :: i < |q.ops| ==> (Holds(place, q, i) <==> Marked(q, i));
    forall p, i: nat | p in reqs' && i < |reqs'[p].ops| && Holds(place, reqs'[p], i)
      ensures HoldsEntry(d.memory, reqs'[p].ops[i], Token(p, reqs'[p].attempt))
    {
      if !(p == r && NewMark(q, d, i)) {
        assert HoldsEntry(memory, reqs[p].ops[i], Token(p, reqs[p].attempt));
      }
    }
    forall k | k in d.memory && d.memory[k].Pending? ensures EntryHeld(place, reqs', k, d.memory[k].token) {
      if k in memory {
        var t := memory[k].token;
        assert EntryHeld(place, reqs, k, t);
        if t.req == r {
          var i: nat :| i < |q.ops| && Holds(place, q, i) && q.ops[i].id == k;
          assert Holds(place, q', i);
        }
      } else {
        var i: nat :| NewMark(q, d, i) && q.ops[i].id == k;
        assert Holds(place, q', i) && HoldsEntry(d.memory, q.ops[i], Token(r, q.attempt));
      }
    }
  }

  lemma ReserveVisibility(place: Placement, memory: Memory, index: Index, committed: map<Key, Content>, q: Request,
                          seen: map<Key, Content>, token: Token, d: Decision)
    requires Visibility(place, memory, index, committed) && q.phase.Probed?
    requires forall k :: Locks(place, q, k) && k in committed ==> k in q.phase.sure || InMemory(memory, k)
    requires q.phase.sure <= seen.Keys
    requires DecisionOk(place, q, memory, seen, token, d)
    ensures Visibility(place, d.memory, index, committed)
    ensures forall k :: InMemory(memory, k) ==> InMemory(d.memory, k)
  {
    forall k | k in d.memory && k !in memory ensures k !in committed && d.memory[k].Pending? {
      var i: nat :| NewMark(q, d, i) && q.ops[i].id == k;
      assert k !in seen && HoldsEntry(d.memory, q.ops[i], token);
      assert Locks(place, q, k);
    }
  }

  lemma HoldersWillNotify(place: Placement, q: Request, k: Key)
    requires HoldsKey(place, q, k)
    ensures WillNotify(q)
  {
    var j: nat :| j < |q.ops| && Holds(place, q, j) && q.ops[j].id == k;
    assert Marked(q, j);
  }

  lemma UnmarkedIsNotHeld(place: Placement, q: Request, i: nat)
    requires InGroup(place, q, i) && !Marked(q, i)
    requires forall j: nat :: Marked(q, j) ==> IsFirst(q.ops, j)
    ensures !HoldsKey(place, q, q.ops[i].id)
  {
  }

  lemma ReserveWaits(place: Placement, memory: Memory, reqs: Requests, notified: map<Token, nat>, r: nat,
                     seen: map<Key, Content>, d: Decision)
    requires Ownership(place, memory, reqs) && r in reqs && reqs[r].phase.Probed?
    requires forall i: nat :: Marked(reqs[r], i) ==> IsFirst(reqs[r].ops, i)
    requires DecisionOk(place, reqs[r], memory, seen, Token(r, reqs[r].attempt), d)
    requires d.verdict.MustWait?
    ensures d.verdict.token.req != r
    ensures Answered(reqs, notified, d.verdict.token, Heard(notified, d.verdict.token))
  {
    hide IsFirst, HoldsKey, WillNotify, Holds;
    var q, t := reqs[r], d.verdict.token;
    var i: nat :| InGroup(place, q, i) && !Marked(q, i) && HoldsEntry(memory, q.ops[i], t);
    assert EntryHeld(place, reqs, q.ops[i].id, t);
    HoldersWillNotify(place, reqs[t.req], q.ops[i].id);
    UnmarkedIsNotHeld(place, q, i);
  }

  lemma ProbesGrow(place: Placement, memory: Memory, reqs: Requests, committed: map<Key, Content>, r: nat, q: Request,
                   memory': Memory)
    requires Probes(place, memory, reqs, committed) && !q.phase.Probed?
    requires forall k :: InMemory(memory, k) ==> InMemory(memory', k)
    ensures Probes(place, memory', reqs[r := q], committed)
  {
  }

  lemma AnsweredElsewhere(reqs: Requests, notified: map<Token, nat>, r: nat, q: Request, t: Token, heard: nat)
    requires Answered(reqs, notified, t, heard) && t.req != r
    ensures Answered(reqs[r := q], notified, t, heard)
  {
  }

  lemma MarksAreFirst(place: Placement, q: Request)
    requires RequestOk(place, q)
    ensures forall i: nat :: Marked(q, i) ==> IsFirst(q.ops, i)
  {
  }

  lemma ReserveKeeps(s: State, r: nat, seen: map<Key, Content>)
    requires Inv(s) && Enabled(s, Reserve(r, seen))
    ensures Inv(Apply(s, Reserve(r, seen)))
  {
    hide RequestsOk, Ownership, Visibility, Pipeline, Decisions, WakeUps, RequestOk, DecidedWell, WillNotify, Answered;
    hide DecisionOk, Decide;
    var q, t := s.reqs[r], TokenOf(s, r);
    var d := Decide(s.memory, seen, q.ops, GroupOf(s, r, q.phase.shard), t, q.marks);
    var q' := Apply(s, Reserve(r, seen)).reqs[r];
    RequestFacts(s, r);
    DecisionIsOk(s.place, q, s.memory, seen, t, d);
    ReserveRequest(s.place, s.memory, s.index, s.committed, q, seen, t, d, q'.phase);
    RequestsLocal(s.place, s.reqs, s.committed, r, q');
    ReserveOwnership(s.place, s.memory, s.reqs, r, seen, d, q');
    assert forall k :: Locks(s.place, q, k) && k in s.committed ==> k in q.phase.sure || InMemory(s.memory, k);
    ReserveVisibility(s.place, s.memory, s.index, s.committed, q, seen, t, d);
    ProbesGrow(s.place, s.memory, s.reqs, s.committed, r, q', d.memory);
    if d.verdict.MustWait? {
      MarksAreFirst(s.place, q);
      ReserveWaits(s.place, s.memory, s.reqs, s.notified, r, seen, d);
      AnsweredElsewhere(s.reqs, s.notified, r, q', d.verdict.token, Heard(s.notified, d.verdict.token));
    }
    WakeUpsLocal(s.reqs, s.notified, r, q', s.notified);
  }

  // ----- Rollback -----

  lemma ReleaseOwnership(place: Placement, memory: Memory, reqs: Requests, r: nat, why: Why)
    requires Ownership(place, memory, reqs) && r in reqs && reqs[r].phase.RollingBack?
    ensures var q := reqs[r];
            var sh := q.phase.shard;
            Ownership(place, Released(place, memory, q, Token(r, q.attempt), sh), reqs[r := q.(phase := RollingBack(sh + 1, why))])
  {
    var q := reqs[r];
    var sh := q.phase.shard;
    var q' := q.(phase := RollingBack(sh + 1, why));
    var reqs' := reqs[r := q'];
    var memory' := Released(place, memory, q, Token(r, q.attempt), sh);
    assert forall i: nat :: Marked(q', i) <==> Marked(q, i);
    forall p, i: nat | p in reqs' && i < |reqs'[p].ops| && Holds(place, reqs'[p], i)
      ensures HoldsEntry(memory', reqs'[p].ops[i], Token(p, reqs'[p].attempt))
    {
      assert Holds(place, reqs[p], i);
      assert HoldsEntry(memory, reqs[p].ops[i], Token(p, reqs[p].attempt));
    }
    forall k | k in memory' && memory'[k].Pending? ensures EntryHeld(place, reqs', k, memory'[k].token) {
      assert EntryHeld(place, reqs, k, memory[k].token);
      if memory[k].token.req == r {
        var i: nat :| i < |q.ops| && Holds(place, q, i) && q.ops[i].id == k;
        assert MarkedKey(q, k);
        assert Holds(place, q', i);
      }
    }
  }

  lemma ReleaseVisibility(place: Placement, memory: Memory, index: Index, committed: map<Key, Content>, q: Request,
                          token: Token, shard: nat)
    requires Visibility(place, memory, index, committed)
    ensures Visibility(place, Released(place, memory, q, token, shard), index, committed)
    ensures forall k :: InMemory(memory, k) ==> InMemory(Released(place, memory, q, token, shard), k)
  {
  }

  lemma RollbackFacts(place: Placement, q: Request, committed: map<Key, Content>)
    requires RequestOk(place, q) && DecidedWell(place, q, committed) && q.phase.RollingBack?
    ensures q.phase.shard <= DEDUP_SHARDS
    ensures q.phase.shard < DEDUP_SHARDS ==>
              var q' := q.(phase := RollingBack(q.phase.shard + 1, q.phase.why));
              RequestOk(place, q') && DecidedWell(place, q', committed) && (WillNotify(q) ==> WillNotify(q'))
    ensures forall phase: Phase :: phase.Rejected? || phase.Waiting? ==>
              var q' := q.(marks := Unmarked(|q.ops|), phase := phase);
              RequestOk(place, q') && DecidedWell(place, q', committed) && !AnyMark(q')
    ensures ShardsBounded(place) && q.phase.shard == DEDUP_SHARDS ==> forall i: nat :: !Holds(place, q, i)
  {
    var q' := q.(phase := RollingBack(q.phase.shard + 1, q.phase.why));
    assert forall i: nat :: Marked(q', i) <==> Marked(q, i);
  }

  lemma UnreserveKeeps(s: State, r: nat)
    requires Inv(s) && Enabled(s, Unreserve(r))
    ensures Inv(Apply(s, Unreserve(r)))
  {
    hide RequestsOk, Ownership, Visibility, Pipeline, Probes, Decisions, WakeUps, RequestOk, DecidedWell, WillNotify, Answered,
         AnyMark, Released;
    var q, t := s.reqs[r], TokenOf(s, r);
    var s' := Apply(s, Unreserve(r));
    var q' := s'.reqs[r];
    RequestFacts(s, r);
    RollbackFacts(s.place, q, s.committed);
    RequestsLocal(s.place, s.reqs, s.committed, r, q');
    if q.phase.why.WaitFor? {
      AnsweredElsewhere(s.reqs, s.notified, r, q', q.phase.why.token, q.phase.why.heard);
    }
    if q.phase.shard < DEDUP_SHARDS {
      ReleaseOwnership(s.place, s.memory, s.reqs, r, q.phase.why);
      ReleaseVisibility(s.place, s.memory, s.index, s.committed, q, t, q.phase.shard);
      ProbesGrow(s.place, s.memory, s.reqs, s.committed, r, q', s'.memory);
      WakeUpsLocal(s.reqs, s.notified, r, q', s.notified);
    } else {
      OwnershipIdle(s.place, s.memory, s.reqs, r, q');
      ProbesLocal(s.place, s.memory, s.reqs, s.committed, r, q');
      if q.phase.why.WaitFor? {
        AnsweredLater(s'.reqs, s.notified, t, q.phase.why.token, q.phase.why.heard);
      }
      WakeUpsLocal(s.reqs, s.notified, r, q', s'.notified);
    }
  }

  /** Notifying one token cannot silence the answer to another. */
  lemma AnsweredLater(reqs: Requests, notified: map<Token, nat>, t: Token, waited: Token, heard: nat)
    requires Answered(reqs, notified, waited, heard)
    ensures Answered(reqs, notified[t := Heard(notified, t) + 1], waited, heard)
  {
  }

  lemma WakeFacts(place: Placement, q: Request, committed: map<Key, Content>)
    requires RequestOk(place, q) && DecidedWell(place, q, committed) && q.phase.Waiting? && !AnyMark(q)
    ensures var q' := q.(attempt := q.attempt + 1, phase := Preflight(0));
            && RequestOk(place, q') && DecidedWell(place, q', committed)
            && (forall i: nat :: i < |q.ops| ==> !Holds(place, q', i) && !Holds(place, q, i))
  {
    var q' := q.(attempt := q.attempt + 1, phase := Preflight(0));
    assert forall i: nat :: Marked(q', i) <==> Marked(q, i);
  }

  lemma WakeKeeps(s: State, r: nat)
    requires Inv(s) && Enabled(s, Wake(r))
    ensures Inv(Apply(s, Wake(r)))
  {
    hide RequestsOk, Ownership, Visibility, Pipeline, Probes, Decisions, WakeUps, RequestOk, DecidedWell, Answered, AnyMark, Holds;
    var q := s.reqs[r];
    var q' := q.(attempt := q.attempt + 1, phase := Preflight(0));
    RequestFacts(s, r);
    WakeFacts(s.place, q, s.committed);
    RequestsLocal(s.place, s.reqs, s.committed, r, q');
    OwnershipIdle(s.place, s.memory, s.reqs, r, q');
    ProbesLocal(s.place, s.memory, s.reqs, s.committed, r, q');
    WakeUpsLocal(s.reqs, s.notified, r, q', s.notified);
  }

  // ----- Finish -----

  lemma FinishedPointwise(place: Placement, memory: Memory, q: Request, shard: nat, c: bool)
    ensures var memory' := Finished(place, memory, q, shard, c);
            && (forall k :: k in memory && !MarkedIn(place, q, shard, k) ==> k in memory' && memory'[k] == memory[k])
            && (forall k :: k in memory' ==> k in memory)
            && (forall k :: k in memory' && MarkedIn(place, q, shard, k) ==> c && memory'[k].Committed?)
            && (forall k :: k in memory && MarkedIn(place, q, shard, k) && c ==>
                  k in memory' && memory'[k] == Committed(memory[k].content))
  {
  }

  /** Two requests never hold the same id. */
  lemma OneHolder(place: Placement, memory: Memory, reqs: Requests, r1: nat, i1: nat, r2: nat, i2: nat)
    requires Ownership(place, memory, reqs) && r1 in reqs && r2 in reqs
    requires i1 < |reqs[r1].ops| && Holds(place, reqs[r1], i1) && i2 < |reqs[r2].ops| && Holds(place, reqs[r2], i2)
    requires reqs[r1].ops[i1].id == reqs[r2].ops[i2].id
    ensures r1 == r2
    ensures HoldsEntry(memory, reqs[r1].ops[i1], Token(r1, reqs[r1].attempt))
  {
    assert HoldsEntry(memory, reqs[r1].ops[i1], Token(r1, reqs[r1].attempt));
    assert HoldsEntry(memory, reqs[r2].ops[i2], Token(r2, reqs[r2].attempt));
  }

  /** Other requests' reservations are not among the keys this request commits or drops. */
  lemma FinishTouchesOwn(place: Placement, memory: Memory, reqs: Requests, r: nat, p: nat, i: nat)
    requires Ownership(place, memory, reqs) && r in reqs && reqs[r].phase.Finishing?
    requires p in reqs && i < |reqs[p].ops| && Holds(place, reqs[p], i)
    requires p == r ==> place.shard(reqs[r].ops[i].id) > reqs[r].phase.shard
    ensures HoldsEntry(memory, reqs[p].ops[i], Token(p, reqs[p].attempt))
    ensures !MarkedIn(place, reqs[r], reqs[r].phase.shard, reqs[p].ops[i].id)
  {
    hide Ownership, HoldsEntry;
    OneHolder(place, memory, reqs, p, i, p, i);
    var q, k := reqs[r], reqs[p].ops[i].id;
    if MarkedIn(place, q, q.phase.shard, k) {
      var j: nat :| j < |q.ops| && Marked(q, j) && q.ops[j].id == k;
      OneHolder(place, memory, reqs, p, i, r, j);
    }
  }

  lemma FinishHolders(place: Placement, memory: Memory, reqs: Requests, r: nat, reqs': Requests, memory': Memory)
    requires Ownership(place, memory, reqs) && r in reqs && reqs[r].phase.Finishing?
    requires reqs' == reqs[r := reqs[r].(phase := Finishing(reqs[r].phase.shard + 1, reqs[r].phase.committed))]
    requires forall k :: k in memory && !MarkedIn(place, reqs[r], reqs[r].phase.shard, k) ==>
               k in memory' && memory'[k] == memory[k]
    ensures forall p, i: nat :: p in reqs' && i < |reqs'[p].ops| && Holds(place, reqs'[p], i) ==>
              HoldsEntry(memory', reqs'[p].ops[i], Token(p, reqs'[p].attempt))
  {
    hide Ownership, MarkedIn;
    forall p, i: nat | p in reqs' && i < |reqs'[p].ops| && Holds(place, reqs'[p], i)
      ensures HoldsEntry(memory', reqs'[p].ops[i], Token(p, reqs'[p].attempt))
    {
      assert Holds(place, reqs[p], i);
      FinishTouchesOwn(place, memory, reqs, r, p, i);
    }
  }

  lemma FinishEntriesHeld(place: Placement, memory: Memory, reqs: Requests, r: nat, q': Request, memory': Memory)
    requires Ownership(place, memory, reqs) && r in reqs && reqs[r].phase.Finishing?
    requires q' == reqs[r].(phase := Finishing(reqs[r].phase.shard + 1, reqs[r].phase.committed))
    requires forall k :: k in memory' && memory'[k].Pending? ==>
               k in memory && memory'[k] == memory[k] && !MarkedIn(place, reqs[r], reqs[r].phase.shard, k)
    ensures forall k :: k in memory' && memory'[k].Pending? ==> EntryHeld(place, reqs[r := q'], k, memory'[k].token)
  {
    var q, reqs' := reqs[r], reqs[r := q'];
    forall k | k in memory' && memory'[k].Pending? ensures EntryHeld(place, reqs', k, memory'[k].token) {
      assert EntryHeld(place, reqs, k, memory[k].token);
      if memory[k].token.req == r {
        var i: nat :| i < |q.ops| && Holds(place, q, i) && q.ops[i].id == k;
        assert MarkedKey(q, k);
        assert Holds(place, q', i);
      }
    }
  }

  lemma FinishOwnership(place: Placement, memory: Memory, reqs: Requests, r: nat)
    requires Ownership(place, memory, reqs) && r in reqs && reqs[r].phase.Finishing?
    ensures var q := reqs[r];
            var sh, c := q.phase.shard, q.phase.committed;
            Ownership(place, Finished(place, memory, q, sh, c), reqs[r := q.(phase := Finishing(sh + 1, c))])
  {
    hide Finished, Holds, HoldsEntry, EntryHeld, MarkedIn;
    var q := reqs[r];
    var sh, c := q.phase.shard, q.phase.committed;
    var q' := q.(phase := Finishing(sh + 1, c));
    FinishedPointwise(place, memory, q, sh, c);
    FinishHolders(place, memory, reqs, r, reqs[r := q'], Finished(place, memory, q, sh, c));
    FinishEntriesHeld(place, memory, reqs, r, q', Finished(place, memory, q, sh, c));
  }

  /** What the commit loop finds under a lock: the request's own pending entries. */
  lemma FinishEntries(place: Placement, memory: Memory, reqs: Requests, r: nat)
    requires Ownership(place, memory, reqs) && r in reqs && reqs[r].phase.Finishing?
    ensures var q := reqs[r];
            forall i: nat :: Marked(q, i) && place.shard(q.ops[i].id) == q.phase.shard ==>
              HoldsEntry(memory, q.ops[i], Token(r, q.attempt))
  {
    var q := reqs[r];
    forall i: nat | Marked(q, i) && place.shard(q.ops[i].id) == q.phase.shard
      ensures HoldsEntry(memory, q.ops[i], Token(r, q.attempt))
    {
      assert Holds(place, q, i);
    }
  }

  lemma NewlyCommittedPointwise(place: Placement, memory: Memory, q: Request, shard: nat)
    requires forall k :: MarkedIn(place, q, shard, k) ==> k in memory && memory[k].Pending?
    ensures var more := NewlyCommitted(place, memory, q, shard);
            && (forall k :: k in more <==> MarkedIn(place, q, shard, k))
            && (forall k :: k in more ==> k in memory && more[k] == memory[k].content)
  {
  }

  /** Visibility across one commit or abort, from the pointwise facts. */
  lemma FinishVisibilityCore(place: Placement, memory: Memory, index: Index, committed: map<Key, Content>,
                             own: iset<Key>, c: bool, memory': Memory, committed': map<Key, Content>)
    requires Visibility(place, memory, index, committed)
    requires forall k :: k in own ==> k in memory && memory[k].Pending?
    requires forall k :: k in memory && k !in own ==> k in memory' && memory'[k] == memory[k]
    requires forall k :: k in memory' ==> k in memory
    requires forall k :: k in own && c ==> k in memory' && memory'[k] == Committed(memory[k].content)
    requires forall k :: k in own && !c ==> k !in memory'
    requires forall k :: k in committed' <==> k in committed || (c && k in own)
    requires forall k :: k in committed' ==> committed'[k] == if c && k in own then memory[k].content else committed[k]
    ensures Visibility(place, memory', index, committed')
  {
    hide BloomSafe;
    forall k | k in committed' ensures InMemory(memory', k) || (k in index.stored && BloomSafe(place, index, k)) {
      if k in committed { assert InMemory(memory, k) || (k in index.stored && BloomSafe(place, index, k)); }
    }
  }

  lemma FinishVisibility(place: Placement, memory: Memory, index: Index, committed: map<Key, Content>, q: Request, token: Token)
    requires Visibility(place, memory, index, committed) && q.phase.Finishing?
    requires forall i: nat :: Marked(q, i) && place.shard(q.ops[i].id) == q.phase.shard ==> HoldsEntry(memory, q.ops[i], token)
    ensures var sh, c := q.phase.shard, q.phase.committed;
            var memory' := Finished(place, memory, q, sh, c);
            var committed' := if c then committed + NewlyCommitted(place, memory, q, sh) else committed;
            && Visibility(place, memory', index, committed')
            && (forall k :: InMemory(memory, k) ==> InMemory(memory', k))
            && (forall k :: k in committed ==> k in committed' && committed'[k] == committed[k])
            && (forall k :: k in committed' && k !in committed ==> MarkedIn(place, q, sh, k) && InMemory(memory', k))
            && (c ==> forall i: nat :: Marked(q, i) && place.shard(q.ops[i].id) == sh ==> Settled(committed', q.ops[i]))
  {
    hide Finished, NewlyCommitted;
    var sh, c := q.phase.shard, q.phase.committed;
    var memory' := Finished(place, memory, q, sh, c);
    var committed' := if c then committed + NewlyCommitted(place, memory, q, sh) else committed;
    forall k | MarkedIn(place, q, sh, k) ensures k in memory && memory[k].Pending? {
      var i: nat :| i < |q.ops| && Marked(q, i) && q.ops[i].id == k;
      assert HoldsEntry(memory, q.ops[i], token);
    }
    FinishedPointwise(place, memory, q, sh, c);
    NewlyCommittedPointwise(place, memory, q, sh);
    FinishVisibilityCore(place, memory, index, committed, (iset k: Key | MarkedIn(place, q, sh, k)), c, memory', committed');
    forall i: nat | c && Marked(q, i) && place.shard(q.ops[i].id) == sh ensures Settled(committed', q.ops[i]) {
      assert MarkedIn(place, q, sh, q.ops[i].id);
      assert HoldsEntry(memory, q.ops[i], token);
    }
  }

  lemma FinishRequest(place: Placement, q: Request, committed: map<Key, Content>, committed': map<Key, Content>)
    requires RequestOk(place, q) && DecidedWell(place, q, committed) && q.phase.Finishing? && q.phase.shard < DEDUP_SHARDS
    requires forall k :: k in committed ==> k in committed' && committed'[k] == committed[k]
    requires q.phase.committed ==>
               forall i: nat :: Marked(q, i) && place.shard(q.ops[i].id) == q.phase.shard ==> Settled(committed', q.ops[i])
    ensures var q' := q.(phase := Finishing(q.phase.shard + 1, q.phase.committed));
            RequestOk(place, q') && DecidedWell(place, q', committed') && (WillNotify(q) ==> WillNotify(q'))
  {
    var q' := q.(phase := Finishing(q.phase.shard + 1, q.phase.committed));
    assert forall i: nat :: Marked(q', i) <==> Marked(q, i);
    assert forall i: nat :: Examined(place, q', i) <==> Examined(place, q, i);
    assert forall i: nat :: i < |q.ops| && Settled(committed, q.ops[i]) ==> Settled(committed', q.ops[i]);
    assert forall i: nat :: Passed(place, q', i) ==> Passed(place, q, i) || place.shard(q.ops[i].id) == q.phase.shard;
  }

  lemma CommittedGrows(place: Placement, reqs: Requests, index: Index, queue: Pairs, worker: Worker,
                       committed: map<Key, Content>, committed': map<Key, Content>)
    requires Decisions(place, reqs, committed) && Pipeline(place, index, queue, worker, committed)
    requires forall k :: k in committed ==> k in committed' && committed'[k] == committed[k]
    ensures Decisions(place, reqs, committed') && Pipeline(place, index, queue, worker, committed')
  {
    forall r | r in reqs ensures DecidedWell(place, reqs[r], committed') {
      assert DecidedWell(place, reqs[r], committed);
    }
  }

  lemma ProbesAcrossCommit(place: Placement, memory: Memory, reqs: Requests, committed: map<Key, Content>, r: nat, q: Request,
                           memory': Memory, committed': map<Key, Content>)
    requires Probes(place, memory, reqs, committed) && !q.phase.Probed?
    requires forall k :: InMemory(memory, k) ==> InMemory(memory', k)
    requires forall k :: k in committed' ==> k in committed || InMemory(memory', k)
    ensures Probes(place, memory', reqs[r := q], committed')
  {
  }

  lemma FinishBound(place: Placement, q: Request)
    requires RequestOk(place, q) && q.phase.Finishing?
    ensures q.phase.shard <= DEDUP_SHARDS
  {
  }

  lemma FinishShardKeeps(s: State, r: nat)
    requires Inv(s) && Enabled(s, FinishShard(r))
    ensures Inv(Apply(s, FinishShard(r)))
  {
    hide RequestsOk, Ownership, Visibility, Pipeline, Probes, Decisions, WakeUps, RequestOk, DecidedWell, WillNotify, Answered,
         AnyMark, Finished, NewlyCommitted;
    var q := s.reqs[r];
    RequestFacts(s, r);
    FinishBound(s.place, q);
    if q.phase.shard == DEDUP_SHARDS {
      AdvanceKeeps(s, r, Apply(s, FinishShard(r)).reqs[r].phase);
    } else {
      var s' := Apply(s, FinishShard(r));
      var q' := s'.reqs[r];
      FinishEntries(s.place, s.memory, s.reqs, r);
      FinishVisibility(s.place, s.memory, s.index, s.committed, q, TokenOf(s, r));
      FinishRequest(s.place, q, s.committed, s'.committed);
      FinishOwnership(s.place, s.memory, s.reqs, r);
      CommittedGrows(s.place, s.reqs, s.index, s.queue, s.worker, s.committed, s'.committed);
      RequestsLocal(s.place, s.reqs, s'.committed, r, q');
      ProbesAcrossCommit(s.place, s.memory, s.reqs, s.committed, r, q', s'.memory, s'.committed);
      WakeUpsLocal(s.reqs, s.notified, r, q', s.notified);
    }
  }

  ghost predicate FromMark(ops: seq<Operation>, marks: seq<bool>, pair: (Key, Content)) {
    exists i: nat :: i < |ops| && i < |marks| && marks[i]
                     && pair == (ops[i].id, Content(ops[i].owner, ops[i].sku, ops[i].delta, ops[i].version))
  }

  /** What a committed request queues for the disk: an entry for every operation it has
      marked, with that operation's content, and nothing else. */
  lemma {:induction false} PairsOfMarks(ops: seq<Operation>, marks: seq<bool>)
    requires |marks| == |ops|
    ensures forall pair :: pair in PairsOf(ops, marks) <==> FromMark(ops, marks, pair)
  {
    if ops != [] {
      var m := |ops| - 1;
      PairsOfMarks(ops[..m], marks[..m]);
      forall pair ensures pair in PairsOf(ops, marks) <==> FromMark(ops, marks, pair) {
        MarksOfOneMore(ops, marks, pair);
      }
    }
  }

  lemma MarksOfOneMore(ops: seq<Operation>, marks: seq<bool>, pair: (Key, Content))
    requires |marks| == |ops| > 0
    ensures var m := |ops| - 1;
            FromMark(ops, marks, pair) <==>
              FromMark(ops[..m], marks[..m], pair) || (marks[m] && pair == (ops[m].id, Fingerprint(ops[m])))
  {
    hide Utf8;
    var m := |ops| - 1;
    if FromMark(ops[..m], marks[..m], pair) {
      var i: nat :| i < m && marks[..m][i]
                    && pair == (ops[..m][i].id, Content(ops[..m][i].owner, ops[..m][i].sku, ops[..m][i].delta, ops[..m][i].version));
      assert marks[i] && ops[..m][i] == ops[i];
    }
    if FromMark(ops, marks, pair) {
      var i: nat :| i < |ops| && marks[i]
                    && pair == (ops[i].id, Content(ops[i].owner, ops[i].sku, ops[i].delta, ops[i].version));
      assert i < m ==> marks[..m][i] && ops[..m][i] == ops[i];
    }
  }

  lemma EnqueuedPairsCommitted(place: Placement, q: Request, committed: map<Key, Content>)
    requires |q.marks| == |q.ops| && DecidedWell(place, q, committed) && q.phase.Enqueuing?
    ensures PairsCommitted(committed, PairsOf(q.ops, q.marks))
  {
    PairsOfMarks(q.ops, q.marks);
    var pairs := PairsOf(q.ops, q.marks);
    forall j | 0 <= j < |pairs| ensures pairs[j].0 in committed && committed[pairs[j].0] == pairs[j].1 {
      assert FromMark(q.ops, q.marks, pairs[j]);
      var i: nat :| i < |q.ops| && i < |q.marks| && q.marks[i]
                    && pairs[j] == (q.ops[i].id, Content(q.ops[i].owner, q.ops[i].sku, q.ops[i].delta, q.ops[i].version));
      assert Marked(q, i) && Passed(place, q, i);
    }
  }

  lemma QueueExtends(place: Placement, index: Index, queue: Pairs, worker: Worker, committed: map<Key, Content>, more: Pairs)
    requires Pipeline(place, index, queue, worker, committed) && PairsCommitted(committed, more)
    ensures Pipeline(place, index, queue + more, worker, committed)
  {
  }

  lemma EnqueueKeeps(s: State, r: nat)
    requires Inv(s) && Enabled(s, Enqueue(r))
    ensures Inv(Apply(s, Enqueue(r)))
  {
    hide RequestsOk, Ownership, Visibility, Pipeline, Probes, Decisions, WakeUps, RequestOk, DecidedWell;
    RequestFacts(s, r);
    EnqueuedPairsCommitted(s.place, s.reqs[r], s.committed);
    AdvanceKeeps(s, r, Notifying(true));
    QueueExtends(s.place, s.index, s.queue, s.worker, s.committed, PairsOf(s.reqs[r].ops, s.reqs[r].marks));
  }

  lemma NotifyFacts(place: Placement, q: Request, committed: map<Key, Content>)
    requires RequestOk(place, q) && DecidedWell(place, q, committed) && q.phase.Notifying?
    ensures var q' := q.(phase := if q.phase.committed then Done else Aborted);
            && RequestOk(place, q') && DecidedWell(place, q', committed)
            && (forall i: nat :: !Holds(place, q', i)) && (forall i: nat :: !Holds(place, q, i))
  {
    var q' := q.(phase := if q.phase.committed then Done else Aborted);
    assert forall i: nat :: Marked(q', i) <==> Marked(q, i);
    assert forall i: nat :: Examined(place, q', i) ==> Examined(place, q, i);
  }

  lemma NotifyKeeps(s: State, r: nat)
    requires Inv(s) && Enabled(s, Notify(r))
    ensures Inv(Apply(s, Notify(r)))
  {
    hide RequestsOk, Ownership, Visibility, Pipeline, Probes, Decisions, WakeUps, RequestOk, DecidedWell, Answered, AnyMark, Holds;
    var q := s.reqs[r];
    var s' := Apply(s, Notify(r));
    RequestFacts(s, r);
    NotifyFacts(s.place, q, s.committed);
    RequestsLocal(s.place, s.reqs, s.committed, r, s'.reqs[r]);
    OwnershipIdle(s.place, s.memory, s.reqs, r, s'.reqs[r]);
    ProbesLocal(s.place, s.memory, s.reqs, s.committed, r, s'.reqs[r]);
    WakeUpsLocal(s.reqs, s.notified, r, s'.reqs[r], s'.notified);
  }

  // ----- The persist worker and the Bloom rebuild -----

  lemma {:induction false} StoredWithFacts(stored: map<Key, Content>, batch: Pairs, committed: map<Key, Content>)
    requires PairsCommitted(committed, batch)
    requires forall k :: k in stored ==> k in committed && committed[k] == stored[k]
    ensures var stored' := StoredWith(stored, batch);
            && (forall k :: k in stored ==> k in stored')
            && (forall k :: k in stored' ==> k in committed && committed[k] == stored'[k])
            && (forall j :: 0 <= j < |batch| ==> batch[j].0 in stored')
            && (forall k :: k in stored' && k !in stored ==> exists j :: 0 <= j < |batch| && batch[j].0 == k)
  {
    if batch != [] {
      StoredWithFacts(stored, batch[..|batch| - 1], committed);
      var stored' := StoredWith(stored, batch);
      var before := StoredWith(stored, batch[..|batch| - 1]);
      assert forall j :: 0 <= j < |batch| - 1 ==> batch[..|batch| - 1][j] == batch[j];
      forall k | k in stored' && k !in stored ensures exists j :: 0 <= j < |batch| && batch[j].0 == k {
        if k in before {
          var j :| 0 <= j < |batch| - 1 && batch[..|batch| - 1][j].0 == k;
          assert batch[j].0 == k;
        } else {
          assert batch[|batch| - 1].0 == k;
        }
      }
    }
  }

  lemma StoreKeeps(place: Placement, memory: Memory, index: Index, queue: Pairs, batch: Pairs, committed: map<Key, Content>)
    requires Visibility(place, memory, index, committed) && Pipeline(place, index, queue, Writing(batch), committed)
    ensures var index' := index.(stored := StoredWith(index.stored, batch));
            && Visibility(place, memory, index', committed) && Pipeline(place, index', queue, Adding(batch), committed)
            && index.stored.Keys <= index'.stored.Keys
  {
    StoredWithFacts(index.stored, batch, committed);
    var index' := index.(stored := StoredWith(index.stored, batch));
    forall k | k in committed ensures InMemory(memory, k) || (k in index'.stored && BloomSafe(place, index', k)) {
      assert InMemory(memory, k) || (k in index.stored && BloomSafe(place, index, k));
    }
  }

  lemma AddKeeps(place: Placement, memory: Memory, index: Index, queue: Pairs, batch: Pairs, committed: map<Key, Content>)
    requires Visibility(place, memory, index, committed) && Pipeline(place, index, queue, Adding(batch), committed)
    ensures var index' := index.(bloom := index.bloom + BitsOf(place, KeysOf(batch)));
            Visibility(place, memory, index', committed) && Pipeline(place, index', queue, Removing(batch), committed)
  {
    var index' := index.(bloom := index.bloom + BitsOf(place, KeysOf(batch)));
    assert index.bloom <= index'.bloom;
    forall k | k in committed ensures InMemory(memory, k) || (k in index'.stored && BloomSafe(place, index', k)) {
      assert InMemory(memory, k) || (k in index.stored && BloomSafe(place, index, k));
    }
    forall j | 0 <= j < |batch| ensures place.bits(batch[j].0) <= index'.bloom {
      assert batch[j].0 in KeysOf(batch);
    }
  }

  lemma InBloomIsSafe(place: Placement, index: Index, k: Key)
    ensures place.bits(k) <= index.bloom ==> BloomSafe(place, index, k)
  {
  }

  lemma ForgetOwnership(place: Placement, memory: Memory, reqs: Requests, k0: Key)
    requires Ownership(place, memory, reqs) && InMemory(memory, k0)
    ensures Ownership(place, memory - {k0}, reqs)
  {
    hide Holds, EntryHeld;
  }

  lemma ForgetVisibility(place: Placement, memory: Memory, index: Index, committed: map<Key, Content>, k0: Key)
    requires Visibility(place, memory, index, committed) && k0 in index.stored && BloomSafe(place, index, k0)
    ensures Visibility(place, memory - {k0}, index, committed)
  {
    hide BloomSafe;
  }

  lemma ForgetProbes(place: Placement, memory: Memory, reqs: Requests, committed: map<Key, Content>, k0: Key)
    requires Probes(place, memory, reqs, committed)
    requires forall r :: r in reqs ==> !Locks(place, reqs[r], k0)
    ensures Probes(place, memory - {k0}, reqs, committed)
  {
    assert forall k :: k != k0 && InMemory(memory, k) ==> InMemory(memory - {k0}, k);
  }

  lemma ForgetPipeline(place: Placement, index: Index, queue: Pairs, batch: Pairs, committed: map<Key, Content>)
    requires Pipeline(place, index, queue, Removing(batch), committed) && batch != []
    ensures batch[0].0 in index.stored && BloomSafe(place, index, batch[0].0)
    ensures Pipeline(place, index, queue, Removing(batch[1..]), committed)
  {
    assert forall j :: 0 <= j < |batch[1..]| ==> batch[1..][j] == batch[j + 1];
  }

  lemma WorkerKeeps(s: State, step: Step)
    requires Inv(s) && Enabled(s, step)
    requires step.Take? || step.StoreBatch? || step.AddBits? || step.Forget? || step.PersistFailed?
    ensures Inv(Apply(s, step))
  {
    hide RequestsOk, Ownership, Visibility, Probes, Decisions, WakeUps, BloomSafe;
    if step.StoreBatch? {
      StoreKeeps(s.place, s.memory, s.index, s.queue, s.worker.batch, s.committed);
    } else if step.AddBits? {
      AddKeeps(s.place, s.memory, s.index, s.queue, s.worker.batch, s.committed);
    } else if step.Forget? && s.worker.batch != [] {
      ForgetPipeline(s.place, s.index, s.queue, s.worker.batch, s.committed);
      var k0 := s.worker.batch[0].0;
      if k0 in s.memory && s.memory[k0] == Committed(s.worker.batch[0].1) {
        ForgetOwnership(s.place, s.memory, s.reqs, k0);
        ForgetVisibility(s.place, s.memory, s.index, s.committed, k0);
        ForgetProbes(s.place, s.memory, s.reqs, s.committed, k0);
      }
    }
  }

  lemma VisitKeeps(place: Placement, memory: Memory, index: Index, committed: map<Key, Content>, keys: set<Key>)
    requires Visibility(place, memory, index, committed) && !index.ready
    ensures Visibility(place, memory, index.(image := index.image + BitsOf(place, keys), left := index.left - keys), committed)
  {
    var index' := index.(image := index.image + BitsOf(place, keys), left := index.left - keys);
    forall k | BloomSafe(place, index, k) ensures BloomSafe(place, index', k) {
      if k in keys {
        assert forall b :: b in place.bits(k) ==> b in BitsOf(place, keys);
      }
    }
  }

  lemma MergeKeeps(place: Placement, memory: Memory, index: Index, queue: Pairs, worker: Worker, committed: map<Key, Content>)
    requires Visibility(place, memory, index, committed) && Pipeline(place, index, queue, worker, committed)
    requires !index.ready && index.left == {}
    ensures var index' := index.(bloom := index.bloom + index.image, ready := true);
            Visibility(place, memory, index', committed) && Pipeline(place, index', queue, worker, committed)
  {
    var index' := index.(bloom := index.bloom + index.image, ready := true);
    assert forall k :: BloomSafe(place, index, k) ==> BloomSafe(place, index', k);
    assert forall k :: place.bits(k) <= index.bloom ==> place.bits(k) <= index'.bloom;
  }

  lemma VisitPipeline(place: Placement, index: Index, queue: Pairs, worker: Worker, committed: map<Key, Content>,
                      image: set<nat>, left: set<Key>)
    requires Pipeline(place, index, queue, worker, committed)
    ensures Pipeline(place, index.(image := image, left := left), queue, worker, committed)
  {
  }

  lemma RebuildKeeps(s: State, step: Step)
    requires Inv(s) && Enabled(s, step)
    requires step.Visit? || step.Merge?
    ensures Inv(Apply(s, step))
  {
    hide RequestsOk, Ownership, Visibility, Pipeline, Probes, Decisions, WakeUps, BitsOf;
    if step.Visit? {
      var index' := Apply(s, step).index;
      VisitKeeps(s.place, s.memory, s.index, s.committed, step.keys);
      VisitPipeline(s.place, s.index, s.queue, s.worker, s.committed, index'.image, index'.left);
    } else {
      MergeKeeps(s.place, s.memory, s.index, s.queue, s.worker, s.committed);
    }
  }

  lemma StartedIsGood(place: Placement, found: map<Key, Content>)
    requires ShardsBounded(place)
    ensures Inv(Started(place, found))
  {
  }

  /** Every step of every interleaving keeps the invariant. */
  lemma StepKeepsInv(s: State, step: Step)
    requires Inv(s) && Enabled(s, step)
    ensures Inv(Apply(s, step))
  {
    hide Inv;
    match step
    case Begin(r, ops) => BeginKeeps(s, r, ops);
    case Probe(r) => ProbeKeeps(s, r);
    case Reserve(r, seen) => ReserveKeeps(s, r, seen);
    case Unreserve(r) => UnreserveKeeps(s, r);
    case Wake(r) => WakeKeeps(s, r);
    case Abort(_) => PhaseStepsKeep(s, step);
    case Commit(_) => PhaseStepsKeep(s, step);
    case ApplyOne(_, _) => PhaseStepsKeep(s, step);
    case Finish(_) => PhaseStepsKeep(s, step);
    case FinishShard(r) => FinishShardKeeps(s, r);
    case Published(_) => PhaseStepsKeep(s, step);
    case Enqueue(r) => EnqueueKeeps(s, r);
    case Notify(r) => NotifyKeeps(s, r);
    case Take(_) => WorkerKeeps(s, step);
    case StoreBatch => WorkerKeeps(s, step);
    case AddBits => WorkerKeeps(s, step);
    case Forget => WorkerKeeps(s, step);
    case PersistFailed => WorkerKeeps(s, step);
    case Visit(_) => RebuildKeeps(s, step);
    case Merge => RebuildKeeps(s, step);
    case Restart(found) => PlacementBounded(s); StartedIsGood(s.place, found);
  }

  lemma PlacementBounded(s: State)
    requires Inv(s)
    ensures ShardsBounded(s.place)
  {
  }

  // ----- What holds in every run -----

  /** A first start, with an empty index and a Bloom filter that is trivially complete. */
  function FirstStart(place: Placement): State {
    var s := Started(place, map[]);
    s.(index := s.index.(ready := true))
  }

  ghost predicate IsRun(place: Placement, steps: seq<Step>, states: seq<State>) {
    && ShardsBounded(place)
    && |states| == |steps| + 1
    && states[0] == FirstStart(place)
    && forall n :: 0 <= n < |steps| ==> Next(states[n], steps[n], states[n + 1])
  }

  lemma {:induction false} RunsAreGood(place: Placement, steps: seq<Step>, states: seq<State>, n: nat)
    requires IsRun(place, steps, states) && n < |states|
    ensures Inv(states[n])
  {
    hide Inv;
    if n == 0 {
      FreshIsGood(place);
    } else {
      RunsAreGood(place, steps, states, n - 1);
      assert Next(states[n - 1], steps[n - 1], states[n]);
      StepKeepsInv(states[n - 1], steps[n - 1]);
    }
  }

  lemma FreshIsGood(place: Placement)
    requires ShardsBounded(place)
    ensures Inv(FirstStart(place))
  {
  }

  /** No committed id is ever missed: while a request holds a shard lock, every committed
      id of that shard is in memory, or every answer the disk can give includes it. */
  lemma NoCommittedIdIsMissed(place: Placement, steps: seq<Step>, states: seq<State>, n: nat, r: nat,
                              seen: map<Key, Content>, k: Key)
    requires IsRun(place, steps, states) && n < |states|
    requires Enabled(states[n], Reserve(r, seen)) && Locks(place, states[n].reqs[r], k) && k in states[n].committed
    ensures var s := states[n];
            || (k in s.memory && s.memory[k] == Committed(s.committed[k]))
            || (k in seen && seen[k] == s.committed[k])
  {
    RunsAreGood(place, steps, states, n);
    PlaceStays(place, steps, states, n);
    MissedNothing(states[n], r, seen, k);
  }

  /** Where digests fall never changes. */
  lemma {:induction false} PlaceStays(place: Placement, steps: seq<Step>, states: seq<State>, n: nat)
    requires IsRun(place, steps, states) && n < |states|
    ensures states[n].place == place
  {
    hide Inv, Enabled;
    if n > 0 {
      PlaceStays(place, steps, states, n - 1);
      assert Next(states[n - 1], steps[n - 1], states[n]);
      StepKeepsPlace(states[n - 1], steps[n - 1]);
    }
  }

  lemma StepKeepsPlace(s: State, step: Step)
    requires Enabled(s, step)
    ensures Apply(s, step).place == s.place
  {
    hide Apply, Enabled;
    if QuietKind(step) && !step.Begin? {
      RequestsStay(s, step);
    } else {
      OtherStepsKeepPlace(s, step);
    }
  }

  lemma OtherStepsKeepPlace(s: State, step: Step)
    requires Enabled(s, step) && (!QuietKind(step) || step.Begin?)
    ensures Apply(s, step).place == s.place
  {
  }

  lemma MissedNothing(s: State, r: nat, seen: map<Key, Content>, k: Key)
    requires Inv(s) && Enabled(s, Reserve(r, seen)) && Locks(s.place, s.reqs[r], k) && k in s.committed
    ensures (k in s.memory && s.memory[k] == Committed(s.committed[k])) || (k in seen && seen[k] == s.committed[k])
  {
    hide RequestsOk, Ownership, Pipeline, Decisions, WakeUps, BloomSafe;
  }

  /** A preflight that succeeds has marked exactly the first occurrence of every id that
      is not committed, holds each of them, and has checked the contents of the others. */
  lemma SuccessfulPreflight(s: State, r: nat)
    requires Inv(s) && r in s.reqs && s.reqs[r].phase.Reserved?
    ensures var q := s.reqs[r];
            && (forall i: nat :: i < |q.ops| ==> (Marked(q, i) <==> IsFirst(q.ops, i) && q.ops[i].id !in s.committed))
            && (forall i: nat :: Marked(q, i) ==> HoldsEntry(s.memory, q.ops[i], TokenOf(s, r)))
            && (forall i: nat :: i < |q.ops| && IsFirst(q.ops, i) && !Marked(q, i) ==> Settled(s.committed, q.ops[i]))
            && BatchAgrees(q.ops)
  {
    hide Visibility, Ownership, BatchAgrees, Pipeline, Probes, WakeUps;
    var q := s.reqs[r];
    RequestFacts(s, r);
    forall i: nat | Marked(q, i) ensures HoldsEntry(s.memory, q.ops[i], TokenOf(s, r)) && q.ops[i].id !in s.committed {
      assert Holds(s.place, q, i);
      OneHolder(s.place, s.memory, s.reqs, r, i, r, i);
      PendingIsUncommitted(s.place, s.memory, s.index, s.committed, q.ops[i].id);
    }
    forall i: nat | i < |q.ops| && IsFirst(q.ops, i) && !Marked(q, i) ensures Settled(s.committed, q.ops[i]) {
      assert Examined(s.place, q, i);
    }
  }

  lemma PendingIsUncommitted(place: Placement, memory: Memory, index: Index, committed: map<Key, Content>, k: Key)
    requires Visibility(place, memory, index, committed) && k in memory && memory[k].Pending?
    ensures k !in committed
  {
  }

  /** Each id has at most one live reservation, and it is the one memory records. */
  lemma SingleReservation(s: State, r1: nat, i1: nat, r2: nat, i2: nat)
    requires Inv(s) && r1 in s.reqs && r2 in s.reqs
    requires i1 < |s.reqs[r1].ops| && Holds(s.place, s.reqs[r1], i1)
    requires i2 < |s.reqs[r2].ops| && Holds(s.place, s.reqs[r2], i2)
    requires s.reqs[r1].ops[i1].id == s.reqs[r2].ops[i2].id
    ensures r1 == r2 && i1 == i2
  {
    hide Visibility, Pipeline, Probes, Decisions, WakeUps, Ownership;
    OneHolder(s.place, s.memory, s.reqs, r1, i1, r2, i2);
    MarksAreFirst(s.place, s.reqs[r1]);
    assert IsFirst(s.reqs[r1].ops, i1) && IsFirst(s.reqs[r1].ops, i2);
  }

  predicate HasNothing(phase: Phase) {
    phase.Waiting? || phase.Rejected? || phase.Done? || phase.Aborted?
  }

  /** All or nothing: a request that waits, was refused or has ended owns no entry in any
      shard. In particular nobody holds a reservation while waiting for another. */
  lemma NothingLeftBehind(s: State, r: nat, k: Key)
    requires Inv(s) && r in s.reqs && HasNothing(s.reqs[r].phase)
    requires k in s.memory && s.memory[k].Pending?
    ensures s.memory[k].token.req != r
  {
    hide RequestsOk, Visibility, Pipeline, Probes, Decisions, WakeUps;
    assert EntryHeld(s.place, s.reqs, k, s.memory[k].token);
  }

  /** Whatever a request does, everybody else's reservations and all commitments that only
      memory shows stay where they are; the disk worker is the one who moves commitments. */
  lemma OthersAreSpared(s: State, step: Step, r: nat, p: nat, i: nat)
    requires Inv(s) && Enabled(s, step) && OwnStep(step, r)
    requires p in s.reqs && p != r && i < |s.reqs[p].ops| && Holds(s.place, s.reqs[p], i)
    ensures var s' := Apply(s, step); HoldsEntry(s'.memory, s.reqs[p].ops[i], TokenOf(s, p))
    ensures forall k :: InMemory(s.memory, k) ==> k in Apply(s, step).memory && Apply(s, step).memory[k] == s.memory[k]
  {
    hide Inv, Enabled, Holds;
    StepKeepsInv(s, step);
    OwnStepsLeaveOthers(s, step, r, p);
    StillHeld(Apply(s, step), p, i);
    CommitmentsStay(s, step, r);
  }

  lemma StillHeld(s: State, p: nat, i: nat)
    requires Inv(s) && p in s.reqs && i < |s.reqs[p].ops| && Holds(s.place, s.reqs[p], i)
    ensures HoldsEntry(s.memory, s.reqs[p].ops[i], TokenOf(s, p))
  {
    hide RequestsOk, Visibility, Pipeline, Probes, Decisions, WakeUps, Holds;
  }

  /** A step of one request changes no other. */
  ghost predicate LocalShape(s: State, s': State, r: nat) {
    r in s.reqs && r in s'.reqs && s'.reqs == s.reqs[r := s'.reqs[r]] && s'.place == s.place
  }

  lemma OwnStepsLeaveOthers(s: State, step: Step, r: nat, p: nat)
    requires Enabled(s, step) && OwnStep(step, r) && p in s.reqs && p != r
    ensures var s' := Apply(s, step); p in s'.reqs && s'.reqs[p] == s.reqs[p] && s'.place == s.place
  {
    hide Apply, Enabled;
    assert LocalShape(s, Apply(s, step), r) by {
      if step.Probe? || step.Reserve? || step.Unreserve? || step.Wake? {
        EarlyStepShape(s, step);
      } else if step.FinishShard? {
        FinishShardShape(s, r);
      } else if step.Enqueue? || step.Notify? {
        HandOverShape(s, step, r);
      } else {
        PhaseShape(s, step, r);
      }
    }
  }

  lemma FinishShardShape(s: State, r: nat)
    requires Enabled(s, FinishShard(r))
    ensures LocalShape(s, Apply(s, FinishShard(r)), r)
  {
    hide Finished, NewlyCommitted, Unlocked, Touches;
  }

  lemma HandOverShape(s: State, step: Step, r: nat)
    requires Enabled(s, step) && OwnStep(step, r) && (step.Enqueue? || step.Notify?)
    ensures LocalShape(s, Apply(s, step), r) && Apply(s, step).memory == s.memory
  {
    hide PairsOf, AnyMark;
  }

  lemma PhaseShape(s: State, step: Step, r: nat)
    requires Enabled(s, step) && OwnStep(step, r) && (step.Commit? || step.ApplyOne? || step.Finish? || step.Published?)
    ensures LocalShape(s, Apply(s, step), r) && Apply(s, step).memory == s.memory
  {
    hide Marked;
  }

  lemma CommitmentsStay(s: State, step: Step, r: nat)
    requires Inv(s) && Enabled(s, step) && OwnStep(step, r)
    ensures forall k :: InMemory(s.memory, k) ==> k in Apply(s, step).memory && Apply(s, step).memory[k] == s.memory[k]
  {
    hide Inv, Decide, Enabled, Released, Finished;
    match step
    case Reserve(_, seen) => ReserveFrame(s, r, seen);
    case Unreserve(_) => UnreserveFrame(s, r);
    case FinishShard(_) => FinishFrame(s, r);
    case _ => OtherFrames(s, step, r);
  }

  lemma OtherFrames(s: State, step: Step, r: nat)
    requires Enabled(s, step) && OwnStep(step, r) && !step.Reserve? && !step.Unreserve? && !step.FinishShard?
    ensures Apply(s, step).memory == s.memory
  {
    hide Apply, Enabled;
    if step.Probe? {
      ProbeFrame(s, r);
    } else if step.Wake? {
      WakeFrame(s, r);
    } else if step.Enqueue? || step.Notify? {
      HandOverShape(s, step, r);
    } else {
      PhaseShape(s, step, r);
    }
  }

  lemma ProbeFrame(s: State, r: nat)
    requires Enabled(s, Probe(r))
    ensures Apply(s, Probe(r)).memory == s.memory
  {
    hide Group, Unlocked, DiskSees;
  }

  lemma WakeFrame(s: State, r: nat)
    requires Enabled(s, Wake(r))
    ensures Apply(s, Wake(r)).memory == s.memory
  {
  }

  lemma ReserveFrame(s: State, r: nat, seen: map<Key, Content>)
    requires Inv(s) && Enabled(s, Reserve(r, seen))
    ensures forall k :: k in s.memory ==> k in Apply(s, Reserve(r, seen)).memory && Apply(s, Reserve(r, seen)).memory[k] == s.memory[k]
  {
    hide Decide, Fresh, Visibility, Ownership, Pipeline, Probes, Decisions, WakeUps;
    RequestFacts(s, r);
    GroupIsFresh(s.place, s.reqs[r]);
    DecideFrame(s.memory, seen, s.reqs[r].ops, GroupOf(s, r, s.reqs[r].phase.shard), TokenOf(s, r), s.reqs[r].marks);
  }

  /** Under a shard lock the rollback takes only entries of its own attempt. */
  lemma RollbackSparesOthers(s: State, r: nat, k: Key)
    requires Enabled(s, Unreserve(r)) && k in s.memory
    requires s.memory[k].Committed? || s.memory[k].token != TokenOf(s, r)
    ensures var s' := Apply(s, Unreserve(r)); k in s'.memory && s'.memory[k] == s.memory[k]
  {
  }

  lemma UnreserveFrame(s: State, r: nat)
    requires Enabled(s, Unreserve(r))
    ensures forall k :: InMemory(s.memory, k) ==> k in Apply(s, Unreserve(r)).memory && Apply(s, Unreserve(r)).memory[k] == s.memory[k]
  {
    hide Apply, Enabled;
    forall k | InMemory(s.memory, k) ensures k in Apply(s, Unreserve(r)).memory && Apply(s, Unreserve(r)).memory[k] == s.memory[k] {
      RollbackSparesOthers(s, r, k);
    }
  }

  /** A finishing request meets only its own pending entries under its marked keys. */
  lemma FinishFrame(s: State, r: nat)
    requires Inv(s) && Enabled(s, FinishShard(r))
    ensures forall k :: InMemory(s.memory, k) ==> k in Apply(s, FinishShard(r)).memory && Apply(s, FinishShard(r)).memory[k] == s.memory[k]
  {
    hide RequestsOk, Visibility, Pipeline, Probes, Decisions, WakeUps, Ownership;
    if s.reqs[r].phase.shard < DEDUP_SHARDS {
      RequestFacts(s, r);
      FinishEntries(s.place, s.memory, s.reqs, r);
    }
  }

  /** No lost wake-up: a waiter can go on, or the attempt it waits for belongs to another
      request that is neither waiting nor finished and has still to notify. */
  lemma NoLostWakeUp(s: State, r: nat)
    requires Inv(s) && r in s.reqs && s.reqs[r].phase.Waiting?
    ensures var t := s.reqs[r].phase.token;
            || Enabled(s, Wake(r))
            || (t.req in s.reqs && t.req != r && TokenOf(s, t.req) == t && WillNotify(s.reqs[t.req]))
  {
    hide RequestsOk, Ownership, Visibility, Pipeline, Probes, Decisions, AnyMark;
    assert WaitsWell(s.reqs, s.notified, r);
  }

  ghost predicate OwnStep(step: Step, r: nat) {
    match step
    case Probe(p) => p == r
    case Reserve(p, _) => p == r
    case Unreserve(p) => p == r
    case Wake(p) => p == r
    case Commit(p) => p == r
    case ApplyOne(p, _) => p == r
    case Finish(p) => p == r
    case FinishShard(p) => p == r
    case Published(p) => p == r
    case Enqueue(p) => p == r
    case Notify(p) => p == r
    case _ => false
  }

  ghost predicate CanMove(s: State, r: nat) {
    exists step :: OwnStep(step, r) && Enabled(s, step)
  }

  lemma UnblockedMoves(s: State, r: nat)
    requires Inv(s) && r in s.reqs && !Ended(s.reqs[r].phase) && !s.reqs[r].phase.Waiting?
    requires s.reqs[r].phase.Probed? || forall shard :: Unlocked(s, shard)
    ensures CanMove(s, r)
  {
    hide Ownership, Visibility, Pipeline, Probes, Decisions, WakeUps, IsFirst, BatchAgrees;
    var q := s.reqs[r];
    assert RequestOk(s.place, q);
    var step :=
      match q.phase
      case Preflight(_) => Probe(r)
      case Probed(_, sure) => Reserve(r, map k | k in s.index.stored :: s.index.stored[k])
      case RollingBack(_, _) => Unreserve(r)
      case Reserved => Commit(r)
      case Applying =>
        if AllApplied(q) then Finish(r)
        else (var i: nat :| i < |q.ops| && Marked(q, i) && i !in q.applied; ApplyOne(r, i))
      case Finishing(_, _) => FinishShard(r)
      case Publishing => Published(r)
      case Enqueuing => Enqueue(r)
      case _ => Notify(r);
    assert OwnStep(step, r);
    assert Enabled(s, step);
  }

  /** No deadlock: while a request is unfinished, some request can take a step of its own. */
  lemma SomebodyMoves(s: State, r: nat)
    requires Inv(s) && r in s.reqs && !Ended(s.reqs[r].phase)
    ensures exists p :: p in s.reqs && CanMove(s, p)
  {
    hide Inv, CanMove, Enabled, AnyMark;
    if p :| p in s.reqs && s.reqs[p].phase.Probed? {
      UnblockedMoves(s, p);
    } else if s.reqs[r].phase.Waiting? {
      NoLostWakeUp(s, r);
      var t := s.reqs[r].phase.token;
      if Enabled(s, Wake(r)) {
        WakeMoves(s, r);
      } else {
        UnblockedMoves(s, t.req);
      }
    } else {
      UnblockedMoves(s, r);
    }
  }

  lemma WakeMoves(s: State, r: nat)
    requires Enabled(s, Wake(r))
    ensures CanMove(s, r)
  {
    assert OwnStep(Wake(r), r);
  }

  // ----- What a ledger needs to know about the protocol's own steps -----

  predicate Unpublished(phase: Phase) {
    phase.Applying? || (phase.Finishing? && phase.committed) || phase.Publishing?
  }

  /** Operation `op` has been applied by a request that still holds its reservation. */
  ghost predicate AppliedHeld(place: Placement, reqs: Requests, op: Operation) {
    exists r, i: nat :: r in reqs && i in reqs[r].applied && i < |reqs[r].ops| && Holds(place, reqs[r], i)
                        && reqs[r].ops[i] == op
  }

  /** `op` was applied by a request that has passed it on to be committed. */
  ghost predicate AppliedBy(reqs: Requests, k: Key, content: Content) {
    exists r, i: nat :: r in reqs && i in reqs[r].applied && i < |reqs[r].ops|
                        && reqs[r].ops[i].id == k && Fingerprint(reqs[r].ops[i]) == content
  }

  predicate SameWork(q: Request, q': Request) {
    && q'.ops == q.ops && q'.applied == q.applied
    && (BeyondReservation(q'.phase) <==> BeyondReservation(q.phase))
    && (BeyondReservation(q.phase) ==> q'.marks == q.marks)
    && (Unpublished(q'.phase) <==> Unpublished(q.phase))
    && (q'.phase.Applying? ==> q.phase.Applying?)
  }

  predicate NoWork(q: Request) {
    q.applied == {} && !BeyondReservation(q.phase)
  }

  ghost predicate Quiet(s: State, s': State) {
    && s'.place == s.place
    && (forall r :: r in s.reqs ==> r in s'.reqs && SameWork(s.reqs[r], s'.reqs[r]))
    && (forall r :: r in s'.reqs && r !in s.reqs ==> NoWork(s'.reqs[r]))
    && (forall k :: k in s.committed ==> k in s'.committed && s'.committed[k] == s.committed[k])
    && (forall k :: k in s'.committed && k !in s.committed ==> AppliedBy(s.reqs, k, s'.committed[k]))
    && (forall op :: AppliedHeld(s.place, s.reqs, op) ==>
          AppliedHeld(s'.place, s'.reqs, op) || Settled(s'.committed, op))
    && (forall k :: k in s.index.stored ==> k in s'.index.stored && s'.index.stored[k] == s.index.stored[k])
  }

  predicate QuietKind(step: Step) {
    !step.Commit? && !step.ApplyOne? && !step.Published? && !step.Restart?
  }

  lemma AppliedStaysHeld(place: Placement, reqs: Requests, r: nat, q: Request)
    requires r in reqs ==> forall i: nat :: i in reqs[r].applied && i < |reqs[r].ops| && Holds(place, reqs[r], i) ==>
               i in q.applied && i < |q.ops| && q.ops[i] == reqs[r].ops[i] && Holds(place, q, i)
    ensures forall op :: AppliedHeld(place, reqs, op) ==> AppliedHeld(place, reqs[r := q], op)
  {
    hide Holds;
    forall op | AppliedHeld(place, reqs, op) ensures AppliedHeld(place, reqs[r := q], op) {
      var p, i: nat :| p in reqs && i in reqs[p].applied && i < |reqs[p].ops| && Holds(place, reqs[p], i) && reqs[p].ops[i] == op;
      assert p in reqs[r := q] && i in reqs[r := q][p].applied && Holds(place, reqs[r := q][p], i);
    }
  }

  /** A request outside the commit path has applied nothing. */
  lemma QuietRequest(place: Placement, s: State, r: nat, q': Request)
    requires Inv(s) && place == s.place
    requires r in s.reqs ==> SameWork(s.reqs[r], q')
    requires r !in s.reqs || NoWork(s.reqs[r])
             || forall i: nat :: i < |q'.ops| && Holds(place, s.reqs[r], i) ==> Holds(place, q', i)
    requires r !in s.reqs ==> NoWork(q')
    ensures Quiet(s, SetReq(s, r, q'))
  {
    hide Inv, Holds, AppliedHeld, AppliedBy, SameWork, NoWork;
    assert r in s.reqs ==> q'.ops == s.reqs[r].ops && q'.applied == s.reqs[r].applied by { SameWorkFields(s, r, q'); }
    assert r in s.reqs && NoWork(s.reqs[r]) ==> s.reqs[r].applied == {} by { NoWorkFields(s, r); }
    AppliedStaysHeld(place, s.reqs, r, q');
    forall p | p in s.reqs ensures SameWork(s.reqs[p], SetReq(s, r, q').reqs[p]) {
      SameWorkReflexive(s.reqs[p]);
    }
  }

  lemma SameWorkFields(s: State, r: nat, q': Request)
    requires r in s.reqs ==> SameWork(s.reqs[r], q')
    ensures r in s.reqs ==> q'.ops == s.reqs[r].ops && q'.applied == s.reqs[r].applied
  {
  }

  lemma NoWorkFields(s: State, r: nat)
    ensures r in s.reqs && NoWork(s.reqs[r]) ==> s.reqs[r].applied == {}
  {
  }

  lemma SameWorkReflexive(q: Request)
    ensures SameWork(q, q)
  {
  }

  lemma QuietIndex(s: State, s': State)
    requires s'.place == s.place && s'.reqs == s.reqs && s'.committed == s.committed
    requires forall k :: k in s.index.stored ==> k in s'.index.stored && s'.index.stored[k] == s.index.stored[k]
    ensures Quiet(s, s')
  {
    hide AppliedHeld, AppliedBy, SameWork, NoWork;
    forall r | r in s.reqs ensures SameWork(s.reqs[r], s.reqs[r]) { SameWorkReflexive(s.reqs[r]); }
  }

  lemma StoredGrows(place: Placement, memory: Memory, index: Index, queue: Pairs, batch: Pairs, committed: map<Key, Content>)
    requires Visibility(place, memory, index, committed) && Pipeline(place, index, queue, Writing(batch), committed)
    ensures var stored' := StoredWith(index.stored, batch);
            forall k :: k in index.stored ==> k in stored' && stored'[k] == index.stored[k]
  {
    hide BloomSafe;
    StoredWithFacts(index.stored, batch, committed);
  }

  /** Steps of the worker and of the rebuild do not concern requests. */
  lemma WorkerIsQuiet(s: State, step: Step)
    requires Inv(s) && Enabled(s, step)
    requires step.Take? || step.StoreBatch? || step.AddBits? || step.Forget? || step.PersistFailed? || step.Visit? || step.Merge?
    ensures Quiet(s, Apply(s, step))
  {
    hide RequestsOk, Ownership, Visibility, Pipeline, Probes, Decisions, WakeUps, Quiet, BitsOf, StoredWith;
    if step.StoreBatch? { StoredGrows(s.place, s.memory, s.index, s.queue, s.worker.batch, s.committed); }
    QuietIndex(s, Apply(s, step));
  }

  lemma BeforeReservationIsIdle(place: Placement, q: Request)
    requires RequestOk(place, q) && !BeyondReservation(q.phase)
    ensures NoWork(q)
  {
  }

  /** Requests on their way to a decision, or backing out, have done no work. */
  lemma EarlyStepIsQuiet(s: State, step: Step)
    requires Inv(s) && Enabled(s, step)
    requires step.Probe? || step.Reserve? || step.Unreserve? || step.Wake? || step.Abort?
    ensures Quiet(s, Apply(s, step))
  {
    hide Inv, Quiet, AppliedHeld, AppliedBy, Decide, RequestOk, DecidedWell, WaitsWell, Apply, Enabled;
    var r := step.req;
    EarlyStepShape(s, step);
    RequestFacts(s, r);
    BeforeReservationIsIdle(s.place, s.reqs[r]);
    var s' := Apply(s, step);
    QuietRequest(s.place, s, r, s'.reqs[r]);
    QuietElsewhere(s, SetReq(s, r, s'.reqs[r]), s');
  }

  /** Such a step changes one request that is before the commit path and stays there. */
  ghost predicate EarlyShape(s: State, s': State, r: nat) {
    && LocalShape(s, s', r)
    && s'.committed == s.committed && s'.index == s.index
    && !BeyondReservation(s.reqs[r].phase) && !BeyondReservation(s'.reqs[r].phase)
    && !Unpublished(s.reqs[r].phase) && !Unpublished(s'.reqs[r].phase)
    && s'.reqs[r].ops == s.reqs[r].ops && s'.reqs[r].applied == s.reqs[r].applied
  }

  lemma EarlyStepShape(s: State, step: Step)
    requires Enabled(s, step)
    requires step.Probe? || step.Reserve? || step.Unreserve? || step.Wake? || step.Abort?
    ensures EarlyShape(s, Apply(s, step), step.req)
  {
    hide Apply, Enabled, EarlyShape;
    match step
    case Probe(r) => ProbeShape(s, r);
    case Reserve(r, seen) => ReserveShape(s, r, seen);
    case Unreserve(r) => UnreserveShape(s, r);
    case Wake(r) => WakeShape(s, r);
    case Abort(r) => AbortShape(s, r);
  }

  lemma ProbeShape(s: State, r: nat)
    requires Enabled(s, Probe(r))
    ensures EarlyShape(s, Apply(s, Probe(r)), r)
  {
    hide Group, Unlocked, DiskSees;
  }

  lemma ReserveShape(s: State, r: nat, seen: map<Key, Content>)
    requires Enabled(s, Reserve(r, seen))
    ensures EarlyShape(s, Apply(s, Reserve(r, seen)), r)
  {
    hide Decide, Group;
  }

  lemma UnreserveShape(s: State, r: nat)
    requires Enabled(s, Unreserve(r))
    ensures EarlyShape(s, Apply(s, Unreserve(r)), r)
  {
    hide Released, Unlocked, Touches;
  }

  lemma WakeShape(s: State, r: nat)
    requires Enabled(s, Wake(r))
    ensures EarlyShape(s, Apply(s, Wake(r)), r)
  {
  }

  lemma AbortShape(s: State, r: nat)
    requires Enabled(s, Abort(r))
    ensures EarlyShape(s, Apply(s, Abort(r)), r)
  {
  }

  lemma QuietElsewhere(s: State, mid: State, s': State)
    requires Quiet(s, mid)
    requires s'.place == mid.place && s'.reqs == mid.reqs && s'.committed == mid.committed && s'.index == mid.index
    ensures Quiet(s, s')
  {
    hide AppliedHeld, AppliedBy, SameWork, NoWork;
  }

  lemma AdvanceHolds(place: Placement, q: Request, phase: Phase)
    requires ShardsBounded(place) && RequestOk(place, q) && Advances(q, phase)
    ensures forall i: nat :: i < |q.ops| && Holds(place, q, i) ==> Holds(place, q.(phase := phase), i)
  {
    forall i: nat | i < |q.ops| && Holds(place, q, i) ensures Holds(place, q.(phase := phase), i) {
      assert Marked(q.(phase := phase), i);
    }
  }

  lemma NotifyIsQuiet(s: State, r: nat)
    requires Inv(s) && Enabled(s, Notify(r))
    ensures Quiet(s, Apply(s, Notify(r)))
  {
    hide Inv, Quiet, AppliedHeld, AppliedBy, RequestOk, DecidedWell, WaitsWell, AnyMark;
    RequestFacts(s, r);
    PlacementBounded(s);
    var s' := Apply(s, Notify(r));
    NotifyFacts(s.place, s.reqs[r], s.committed);
    QuietRequest(s.place, s, r, s'.reqs[r]);
    QuietElsewhere(s, SetReq(s, r, s'.reqs[r]), s');
  }

  lemma LateStepIsQuiet(s: State, step: Step)
    requires Inv(s) && Enabled(s, step)
    requires step.Finish? || step.Enqueue? || (step.FinishShard? && s.reqs[step.req].phase.shard >= DEDUP_SHARDS)
    ensures Quiet(s, Apply(s, step))
  {
    hide Inv, Quiet, AppliedHeld, AppliedBy, PairsOf, RequestOk, DecidedWell, WaitsWell, Touches, Unlocked;
    var r := step.req;
    RequestFacts(s, r);
    PlacementBounded(s);
    var s' := Apply(s, step);
    if step.FinishShard? { FinishBound(s.place, s.reqs[r]); }
    AdvanceHolds(s.place, s.reqs[r], s'.reqs[r].phase);
    QuietRequest(s.place, s, r, s'.reqs[r]);
    QuietElsewhere(s, SetReq(s, r, s'.reqs[r]), s');
  }

  lemma FinishShardIsQuiet(s: State, r: nat)
    requires Inv(s) && Enabled(s, FinishShard(r)) && s.reqs[r].phase.shard < DEDUP_SHARDS
    ensures Quiet(s, Apply(s, FinishShard(r)))
  {
    hide RequestsOk, Ownership, Visibility, Pipeline, Probes, Decisions, WakeUps, Finished, NewlyCommitted, AppliedHeld, RequestOk;
    var q := s.reqs[r];
    var s' := Apply(s, FinishShard(r));
    RequestFacts(s, r);
    FinishEntries(s.place, s.memory, s.reqs, r);
    FinishVisibility(s.place, s.memory, s.index, s.committed, q, TokenOf(s, r));
    forall p | p in s.reqs ensures SameWork(s.reqs[p], s'.reqs[p]) { }
    forall k | k in s'.committed && k !in s.committed ensures AppliedBy(s.reqs, k, s'.committed[k]) {
      assert MarkedIn(s.place, q, q.phase.shard, k);
      var i: nat :| i < |q.ops| && Marked(q, i) && q.ops[i].id == k;
      FinishingIsApplied(s.place, q, i);
      assert Settled(s'.committed, q.ops[i]);
    }
    FinishKeepsHeld(s.place, s.reqs, r, s'.committed);
  }

  lemma FinishingIsApplied(place: Placement, q: Request, i: nat)
    requires RequestOk(place, q) && q.phase.Finishing? && q.phase.committed && Marked(q, i)
    ensures i in q.applied && i < |q.ops|
  {
  }

  /** What the shard gives up is committed; the rest is still held. */
  lemma FinishKeepsHeld(place: Placement, reqs: Requests, r: nat, committed: map<Key, Content>)
    requires r in reqs && reqs[r].phase.Finishing? && RequestOk(place, reqs[r])
    requires reqs[r].phase.committed ==> forall i: nat :: Marked(reqs[r], i) && place.shard(reqs[r].ops[i].id) == reqs[r].phase.shard ==>
               Settled(committed, reqs[r].ops[i])
    ensures var q := reqs[r];
            var reqs' := reqs[r := q.(phase := Finishing(q.phase.shard + 1, q.phase.committed))];
            forall op :: AppliedHeld(place, reqs, op) ==> AppliedHeld(place, reqs', op) || Settled(committed, op)
  {
    var q := reqs[r];
    var reqs' := reqs[r := q.(phase := Finishing(q.phase.shard + 1, q.phase.committed))];
    forall op | AppliedHeld(place, reqs, op) ensures AppliedHeld(place, reqs', op) || Settled(committed, op) {
      var p, i: nat :| p in reqs && i in reqs[p].applied && i < |reqs[p].ops| && Holds(place, reqs[p], i) && reqs[p].ops[i] == op;
      if p == r && place.shard(op.id) == q.phase.shard {
        assert Marked(q, i);
      } else {
        assert Marked(reqs'[p], i) && Holds(place, reqs'[p], i);
      }
    }
  }

  /** Whatever the protocol does on its own, work already applied stays accounted for:
      held by its request, or committed with its content. */
  lemma QuietSteps(s: State, step: Step)
    requires Inv(s) && Enabled(s, step) && QuietKind(step)
    ensures Quiet(s, Apply(s, step))
  {
    hide Inv, Quiet;
    match step
    case Begin(r, ops) => BeginIsQuiet(s, r, ops);
    case FinishShard(r) =>
      if s.reqs[r].phase.shard < DEDUP_SHARDS { FinishShardIsQuiet(s, r); } else { LateStepIsQuiet(s, step); }
    case Probe(_) => EarlyStepIsQuiet(s, step);
    case Reserve(_, _) => EarlyStepIsQuiet(s, step);
    case Unreserve(_) => EarlyStepIsQuiet(s, step);
    case Wake(_) => EarlyStepIsQuiet(s, step);
    case Abort(_) => EarlyStepIsQuiet(s, step);
    case Finish(_) => LateStepIsQuiet(s, step);
    case Enqueue(_) => LateStepIsQuiet(s, step);
    case Notify(r) => NotifyIsQuiet(s, r);
    case _ => WorkerIsQuiet(s, step);
  }

  lemma BeginIsQuiet(s: State, r: nat, ops: seq<Operation>)
    requires Inv(s) && Enabled(s, Begin(r, ops))
    ensures Quiet(s, Apply(s, Begin(r, ops)))
  {
    hide Inv, Quiet, BatchAgrees;
    QuietRequest(s.place, s, r, Apply(s, Begin(r, ops)).reqs[r]);
  }

  lemma RequestsStay(s: State, step: Step)
    requires Enabled(s, step) && QuietKind(step) && !step.Begin?
    ensures Apply(s, step).reqs.Keys == s.reqs.Keys && Apply(s, step).place == s.place
  {
    hide Apply, Enabled;
    if step.Probe? || step.Reserve? || step.Unreserve? || step.Wake? || step.Abort? {
      EarlyRequestsStay(s, step);
    } else if step.Finish? || step.FinishShard? || step.Enqueue? || step.Notify? {
      LateRequestsStay(s, step);
    } else {
      WorkerRequestsStay(s, step);
    }
  }

  lemma EarlyRequestsStay(s: State, step: Step)
    requires Enabled(s, step)
    requires step.Probe? || step.Reserve? || step.Unreserve? || step.Wake? || step.Abort?
    ensures Apply(s, step).reqs.Keys == s.reqs.Keys && Apply(s, step).place == s.place
  {
    hide Apply, Enabled;
    EarlyStepShape(s, step);
  }

  lemma LateRequestsStay(s: State, step: Step)
    requires Enabled(s, step)
    requires step.Finish? || step.FinishShard? || step.Enqueue? || step.Notify?
    ensures Apply(s, step).reqs.Keys == s.reqs.Keys && Apply(s, step).place == s.place
  {
    hide Finished, NewlyCommitted, PairsOf, AnyMark, Unlocked, Touches;
  }

  lemma WorkerRequestsStay(s: State, step: Step)
    requires Enabled(s, step)
    requires step.Take? || step.StoreBatch? || step.AddBits? || step.Forget? || step.PersistFailed? || step.Visit? || step.Merge?
    ensures Apply(s, step).reqs.Keys == s.reqs.Keys && Apply(s, step).place == s.place
  {
    hide StoredWith, BitsOf, KeysOf, Unlocked;
  }
}
