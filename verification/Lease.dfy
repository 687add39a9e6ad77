/** The writer lease (src/cluster.rs) and the two lease checks around replication
    (src/main.rs): many nodes, one key-value slot with a time to live, one log, and a
    global clock in milliseconds. */
module Lease {
  import opened Model
  import opened ReplicatedLog

  const TTL: nat := 5000        // max_age of the fencing bucket
  const VALID: nat := 4000      // how long a node trusts a renewal
  const MARGIN: nat := 2500     // what ensure_writer demands on top
  const SAFE_DELAY: nat := TTL + MARGIN - VALID

  /** The slot: who wrote it, the epoch it names (0 while provisional), its revision and
      when the server last stored it. */
  datatype Slot = Slot(node: nat, epoch: U64, revision: U64, at: nat)

  /** One pass of the lease task. `touch` is when the server stored the update. */
  datatype Task =
    | Asleep
    | Found(slot: Slot)
    | Empty
    | Created(revision: U64)
    | Updated(epoch: U64, touch: nat)      // the fence is still to be appended
    | Renewed(epoch: U64, touch: nat)

  datatype Holder = Holder(owned: bool, epoch: U64, validUntil: nat, touch: nat, task: Task)

  datatype Stage = Checked | Sent | Acked(at: nat) | Passed(at: nat) | Refused

  /** A request with operations that preflight found new; one without never replicates. */
  datatype Request = Request(node: nat, epoch: U64, operations: seq<Operation>, stage: Stage)

  datatype State = State(
    delay: nat,          // longest time from the server's update to setting valid_until
    lossy: bool,         // whether a pass may end between the update and its fence
    now: nat,
    revision: U64,       // last revision the server gave out
    newest: U64,         // revision of the latest create
    slot: Option<Slot>,
    log: Log,
    wire: set<LogRecord>,
    nodes: map<nat, Holder>,
    reqs: map<nat, Request>)

  const RESTARTED := Holder(false, 0, 0, 0, Asleep)

  function Start(delay: nat, lossy: bool): State {
    State(delay, lossy, 0, 0, 0, None, [], {}, map[], map[])
  }

  /** valid_epoch_for. */
  function ValidEpoch(h: Holder, now: nat, required: nat): Option<U64> {
    if h.owned && now + required < h.validUntil then Some(h.epoch) else None
  }

  /** What the end of a pass does to the shared lease state. */
  function EndOfPass(h: Holder, renewed: Option<U64>, definitelyLost: bool, now: nat, touch: nat): Holder {
    if renewed.Some? then Holder(true, renewed.value, now + VALID, touch, Asleep)
    else if definitelyLost || now >= h.validUntil then h.(owned := false, task := Asleep)
    else h.(task := Asleep)
  }

  datatype Step =
    | Tick(ms: nat)
    | Expire
    | Boot(node: nat)                      // also a crash and restart
    | Read(node: nat)
    | Create(node: nat)
    | Adopt(node: nat)                     // the update that turns the revision into the epoch
    | AppendFence(node: nat, holder: Text)
    | LoseFence(node: nat)
    | Renew(node: nat)
    | Own(node: nat)                       // valid_until is set
    | GiveUp(node: nat, lost: bool)        // the pass renews nothing
    | Check(req: nat, node: nat, operations: seq<Operation>)
    | Send(req: nat)
    | Land(record: LogRecord)
    | Ack(req: nat, at: nat)
    | Recheck(req: nat)

  predicate Enabled(s: State, step: Step) {
    match step
    case Tick(_) => true
    case Expire => s.slot.Some? && s.now >= s.slot.value.at + TTL
    case Boot(n) => n in s.nodes ==> s.nodes[n].task.Updated? ==> s.lossy
    case Read(n) => n in s.nodes && s.nodes[n].task.Asleep?
    case Create(n) => n in s.nodes && s.nodes[n].task.Empty? && s.slot.None? && s.revision < MAX_U64
    case Adopt(n) =>
      && n in s.nodes && s.nodes[n].task.Created? && s.slot.Some? && s.slot.value.revision == s.nodes[n].task.revision
      && s.revision < MAX_U64
    case AppendFence(n, _) => n in s.nodes && s.nodes[n].task.Updated?
    case LoseFence(n) => n in s.nodes && s.nodes[n].task.Updated? && s.lossy
    case Renew(n) =>
      && n in s.nodes && s.nodes[n].task.Found? && s.revision < MAX_U64
      && s.nodes[n].task.slot.node == n && s.nodes[n].task.slot.epoch > 0
      && s.slot.Some? && s.slot.value.revision == s.nodes[n].task.slot.revision
    case Own(n) => n in s.nodes && s.nodes[n].task.Renewed? && s.now <= s.nodes[n].task.touch + s.delay
    case GiveUp(n, _) => n in s.nodes && !s.nodes[n].task.Updated?
    case Check(r, n, ops) => r !in s.reqs && n in s.nodes && ops != [] && ValidEpoch(s.nodes[n], s.now, MARGIN).Some?
    case Send(r) => r in s.reqs && s.reqs[r].stage.Checked?
    case Land(record) => record in s.wire
    case Ack(r, at) =>
      r in s.reqs && s.reqs[r].stage.Sent? && at < |s.log| && s.log[at] == Operations(s.reqs[r].epoch, s.reqs[r].operations)
    case Recheck(r) => r in s.reqs && s.reqs[r].stage.Acked? && s.reqs[r].node in s.nodes
  }

  function SetTask(s: State, n: nat, task: Task): State
    requires n in s.nodes
  {
    s.(nodes := s.nodes[n := s.nodes[n].(task := task)])
  }

  function SetStage(s: State, r: nat, stage: Stage): State
    requires r in s.reqs
  {
    s.(reqs := s.reqs[r := s.reqs[r].(stage := stage)])
  }

  function Apply(s: State, step: Step): State
    requires Enabled(s, step)
  {
    match step
    case Tick(ms) => s.(now := s.now + ms)
    case Expire => s.(slot := None)
    case Boot(n) =>
      s.(nodes := s.nodes[n := RESTARTED], reqs := map r | r in s.reqs && s.reqs[r].node != n :: s.reqs[r])
    case Read(n) => SetTask(s, n, if s.slot.Some? then Found(s.slot.value) else Empty)
    case Create(n) =>
      var made := s.revision + 1;
      SetTask(s, n, Created(made)).(slot := Some(Slot(n, 0, made, s.now)), revision := made, newest := made)
    case Adopt(n) =>
      var epoch := s.nodes[n].task.revision;
      SetTask(s, n, Updated(epoch, s.now)).(slot := Some(Slot(n, epoch, s.revision + 1, s.now)), revision := s.revision + 1)
    case AppendFence(n, holder) =>
      var t := s.nodes[n].task;
      SetTask(s, n, Renewed(t.epoch, t.touch)).(log := s.log + [Fence(t.epoch, holder)])
    case LoseFence(n) => s.(nodes := s.nodes[n := EndOfPass(s.nodes[n], None, true, s.now, 0)])
    case Renew(n) =>
      var seen := s.nodes[n].task.slot;
      SetTask(s, n, Renewed(seen.epoch, s.now)).(slot := Some(Slot(n, seen.epoch, s.revision + 1, s.now)), revision := s.revision + 1)
    case Own(n) =>
      var t := s.nodes[n].task;
      s.(nodes := s.nodes[n := EndOfPass(s.nodes[n], Some(t.epoch), false, s.now, t.touch)])
    case GiveUp(n, lost) => s.(nodes := s.nodes[n := EndOfPass(s.nodes[n], None, lost, s.now, 0)])
    case Check(r, n, ops) => s.(reqs := s.reqs[r := Request(n, s.nodes[n].epoch, ops, Checked)])
    case Send(r) => SetStage(s, r, Sent).(wire := s.wire + {Operations(s.reqs[r].epoch, s.reqs[r].operations)})
    case Land(record) => s.(log := s.log + [record])
    case Ack(r, at) => SetStage(s, r, Acked(at))
    case Recheck(r) =>
      var q := s.reqs[r];
      SetStage(s, r, if ValidEpoch(s.nodes[q.node], s.now, MARGIN) == Some(q.epoch) then Passed(q.stage.at) else Refused)
  }

  // ----- What safety means -----

  /** Every request that went on to apply sits in a record that all replicas accept. */
  ghost predicate Safe(s: State) {
    forall r :: r in s.reqs && s.reqs[r].stage.Passed? ==>
      && s.reqs[r].stage.at < |s.log|
      && s.log[s.reqs[r].stage.at] == Operations(s.reqs[r].epoch, s.reqs[r].operations)
      && Accepts(s.log, s.reqs[r].stage.at)
  }

  ghost predicate Reaches(s: State, steps: seq<Step>, end: State)
    decreases |steps|
  {
    if steps == [] then end == s
    else Enabled(s, steps[0]) && Reaches(Apply(s, steps[0]), steps[1..], end)
  }

  // ----- The invariant -----

  predicate Fenced(log: Log, epoch: U64) {
    exists i :: 0 <= i < |log| && log[i].Fence? && log[i].epoch == epoch
  }

  /** Until the slot can expire, an update of `n` made at `touch` is still in it. */
  predicate Held(now: nat, slot: Option<Slot>, n: nat, epoch: U64, touch: nat) {
    now < touch + TTL ==> slot.Some? && slot.value.epoch == epoch && slot.value.node == n && slot.value.at >= touch
  }

  predicate SlotOk(s: State) {
    && s.newest <= s.revision
    && (s.slot.Some? ==>
          && s.slot.value.at <= s.now && s.slot.value.revision <= s.revision
          && (s.slot.value.epoch == s.newest || (s.slot.value.epoch == 0 && s.slot.value.revision == s.newest)))
  }

  /** Somebody is about to append the fence of this epoch. */
  predicate Promised(nodes: map<nat, Holder>, n: nat, epoch: U64) {
    n in nodes && nodes[n].task.Updated? && nodes[n].task.epoch == epoch
  }

  /** The epoch in the slot is fenced, or its owner is on the way to append the fence. */
  predicate SlotFenced(s: State, slot: Slot) {
    slot.epoch > 0 && !s.lossy ==> Fenced(s.log, slot.epoch) || Promised(s.nodes, slot.node, slot.epoch)
  }

  predicate TaskOk(s: State, n: nat, task: Task) {
    match task
    case Asleep => true
    case Empty => true
    case Found(slot) =>
      && slot.epoch <= s.newest && slot.revision <= s.revision
      && (slot.node == n && slot.epoch > 0 && !s.lossy ==> Fenced(s.log, slot.epoch))
      && (s.slot.Some? && s.slot.value.revision == slot.revision ==> s.slot.value == slot)
    case Created(revision) =>
      && 0 < revision <= s.newest
      && (s.slot.Some? && s.slot.value.revision == revision ==>
            s.slot.value.epoch == 0 && s.slot.value.node == n && s.newest == revision)
    case Updated(epoch, touch) => 0 < epoch <= s.newest && touch <= s.now && Held(s.now, s.slot, n, epoch, touch)
    case Renewed(epoch, touch) =>
      && 0 < epoch <= s.newest && touch <= s.now && Held(s.now, s.slot, n, epoch, touch)
      && (!s.lossy ==> Fenced(s.log, epoch))
  }

  predicate HolderOk(s: State, n: nat, h: Holder) {
    && TaskOk(s, n, h.task)
    && (h.owned ==>
          && 0 < h.epoch <= s.newest && h.touch <= s.now && h.validUntil <= h.touch + s.delay + VALID
          && Held(s.now, s.slot, n, h.epoch, h.touch)
          && (!s.lossy ==> Fenced(s.log, h.epoch)))
  }

  /** A record of an epoch comes after a fence of that epoch. */
  predicate RecordOk(log: Log, at: nat)
    requires at < |log|
  {
    match log[at]
    case Fence(_, _) => true
    case Operations(epoch, _) => epoch > 0 && Fenced(log[..at], epoch)
  }

  ghost predicate LogOk(s: State) {
    && (forall i :: 0 <= i < |s.log| && s.log[i].Fence? ==> s.log[i].epoch <= s.newest)
    && (!s.lossy ==> forall i: nat :: i < |s.log| ==> RecordOk(s.log, i))
    && (forall w :: w in s.wire ==> w.Operations?)
    && (!s.lossy ==> forall w :: w in s.wire ==> w.epoch > 0 && Fenced(s.log, w.epoch))
  }

  ghost predicate RequestOk(s: State, q: Request) {
    && (!s.lossy ==> q.epoch > 0 && Fenced(s.log, q.epoch))
    && (q.stage.Acked? || q.stage.Passed? ==>
          q.stage.at < |s.log| && s.log[q.stage.at] == Operations(q.epoch, q.operations))
  }

  ghost predicate HoldersOk(s: State) {
    && (s.slot.Some? ==> SlotFenced(s, s.slot.value))
    && (forall n :: n in s.nodes ==> HolderOk(s, n, s.nodes[n]))
  }

  ghost predicate RequestsOk(s: State) {
    forall r :: r in s.reqs ==> RequestOk(s, s.reqs[r])
  }

  ghost predicate Inv(s: State) {
    SlotOk(s) && HoldersOk(s) && LogOk(s) && RequestsOk(s)
  }

  // ----- Every step keeps it -----

  lemma FencedGrows(log: Log, record: LogRecord)
    ensures forall e :: Fenced(log, e) ==> Fenced(log + [record], e)
    ensures record.Fence? ==> Fenced(log + [record], record.epoch)
  {
    var more := log + [record];
    forall e | Fenced(log, e) ensures Fenced(more, e) {
      var i :| 0 <= i < |log| && log[i].Fence? && log[i].epoch == e;
      assert more[i] == log[i];
    }
    if record.Fence? { assert more[|log|] == record; }
  }

  lemma LogGrows(s: State, record: LogRecord)
    requires Inv(s)
    requires record.Fence? ==> 0 < record.epoch <= s.newest
    requires record.Operations? ==> record in s.wire
    ensures Inv(s.(log := s.log + [record]))
  {
    var s' := s.(log := s.log + [record]);
    FencedGrows(s.log, record);
    forall i: nat | !s.lossy && i < |s'.log| ensures RecordOk(s'.log, i) {
      assert i < |s.log| ==> s'.log[..i] == s.log[..i] && RecordOk(s.log, i);
      assert i == |s.log| ==> s'.log[..i] == s.log;
    }
  }

  lemma FenceAppended(s: State, n: nat, holder: Text)
    requires Inv(s) && Enabled(s, AppendFence(n, holder))
    ensures Inv(Apply(s, AppendFence(n, holder)))
  {
    hide RecordOk, LogOk, RequestsOk;
    var t := s.nodes[n].task;
    assert HolderOk(s, n, s.nodes[n]);
    LogGrows(s, Fence(t.epoch, holder));
    FencedGrows(s.log, Fence(t.epoch, holder));
    TaskChanges(s.(log := s.log + [Fence(t.epoch, holder)]), n, Renewed(t.epoch, t.touch));
  }

  /** A node whose epoch is fenced goes on to own it. */
  lemma TaskChanges(s: State, n: nat, task: Task)
    requires Inv(s) && n in s.nodes && TaskOk(s, n, task) && task.Renewed?
    requires Fenced(s.log, task.epoch) && (s.nodes[n].task.Updated? ==> s.nodes[n].task.epoch == task.epoch)
    ensures Inv(SetTask(s, n, task))
  {
    hide Fenced, LogOk, RequestsOk;
    var s' := SetTask(s, n, task);
    forall m | m in s'.nodes ensures HolderOk(s', m, s'.nodes[m]) {
      assert HolderOk(s, m, s.nodes[m]);
    }
    SameLogAndRequests(s, s');
  }

  lemma SameLogAndRequests(s: State, s': State)
    requires LogOk(s) && RequestsOk(s) && s' == s.(nodes := s'.nodes)
    ensures LogOk(s') && RequestsOk(s')
  {
    hide Fenced, RecordOk;
    RequestsUnaffected(s, s');
  }

  lemma HoldersUnaffected(s: State, s': State)
    requires HoldersOk(s) && s' == s.(reqs := s'.reqs, wire := s'.wire)
    ensures HoldersOk(s')
  {
    hide Fenced;
    forall n | n in s'.nodes ensures HolderOk(s', n, s'.nodes[n]) {
      assert HolderOk(s, n, s.nodes[n]);
    }
  }

  lemma CheckedIsFenced(s: State, n: nat)
    requires HoldersOk(s) && n in s.nodes && ValidEpoch(s.nodes[n], s.now, MARGIN).Some?
    ensures !s.lossy ==> s.nodes[n].epoch > 0 && Fenced(s.log, s.nodes[n].epoch)
  {
    hide Fenced;
    assert HolderOk(s, n, s.nodes[n]);
  }

  lemma RequestsAdvance(s: State, step: Step)
    requires Inv(s) && Enabled(s, step)
    requires step.Check? || step.Send? || step.Ack? || step.Recheck?
    ensures Inv(Apply(s, step))
  {
    hide Fenced, RecordOk, HoldersOk;
    var s' := Apply(s, step);
    HoldersUnaffected(s, s');
    if step.Check? { CheckedIsFenced(s, step.node); }
    forall r | r in s'.reqs ensures RequestOk(s', s'.reqs[r]) {
      assert r in s.reqs ==> RequestOk(s, s.reqs[r]);
    }
  }

  lemma RequestsUnaffected(s: State, s': State)
    requires RequestsOk(s) && s'.log == s.log && s'.lossy == s.lossy
    requires forall r :: r in s'.reqs ==> r in s.reqs && s'.reqs[r] == s.reqs[r]
    ensures RequestsOk(s')
  {
    hide Fenced;
    forall r | r in s'.reqs ensures RequestOk(s', s'.reqs[r]) {
      assert RequestOk(s, s.reqs[r]);
    }
  }

  lemma ServerHolders(s: State, step: Step)
    requires Inv(s) && Enabled(s, step)
    requires step.Create? || step.Adopt? || step.Renew? || step.Expire? || step.Tick?
    ensures HoldersOk(Apply(s, step))
  {
    hide Inv, HoldersOk, Apply, Enabled;
    if step.Create? || step.Expire? || step.Tick? {
      SlotHolders(s, step);
    } else {
      UpdateHolders(s, step);
    }
  }

  lemma SlotHolders(s: State, step: Step)
    requires Inv(s) && Enabled(s, step) && (step.Create? || step.Expire? || step.Tick?)
    ensures HoldersOk(Apply(s, step))
  {
    hide Fenced, LogOk, RequestsOk;
    var s' := Apply(s, step);
    forall n | n in s'.nodes ensures HolderOk(s', n, s'.nodes[n]) {
      assert HolderOk(s, n, s.nodes[n]);
    }
  }

  lemma UpdateHolders(s: State, step: Step)
    requires Inv(s) && Enabled(s, step) && (step.Adopt? || step.Renew?)
    ensures HoldersOk(Apply(s, step))
  {
    hide Fenced, LogOk, RequestsOk;
    var s' := Apply(s, step);
    assert HolderOk(s, step.node, s.nodes[step.node]);
    forall n | n in s'.nodes ensures HolderOk(s', n, s'.nodes[n]) {
      assert HolderOk(s, n, s.nodes[n]);
    }
  }

  lemma ServerKeeps(s: State, step: Step)
    requires Inv(s) && Enabled(s, step)
    requires step.Create? || step.Adopt? || step.Renew? || step.Expire? || step.Tick?
    ensures Inv(Apply(s, step))
  {
    hide Fenced, RecordOk, RequestsOk;
    ServerHolders(s, step);
    RequestsUnaffected(s, Apply(s, step));
    match step
    case Adopt(m) => assert HolderOk(s, m, s.nodes[m]);
    case Renew(m) => assert HolderOk(s, m, s.nodes[m]);
    case _ =>
  }

  lemma NodeHolders(s: State, step: Step)
    requires Inv(s) && Enabled(s, step)
    requires step.Boot? || step.Read? || step.LoseFence? || step.Own? || step.GiveUp?
    ensures HoldersOk(Apply(s, step))
  {
    hide Inv, HoldersOk, Apply, Enabled;
    if step.Boot? || step.Read? {
      PassStarts(s, step);
    } else {
      PassEnds(s, step);
    }
  }

  lemma PassStarts(s: State, step: Step)
    requires Inv(s) && Enabled(s, step) && (step.Boot? || step.Read?)
    ensures HoldersOk(Apply(s, step))
  {
    hide Fenced, LogOk, RequestsOk;
    var s' := Apply(s, step);
    forall n | n in s'.nodes ensures HolderOk(s', n, s'.nodes[n]) {
      if n in s.nodes { assert HolderOk(s, n, s.nodes[n]); }
    }
  }

  lemma PassEnds(s: State, step: Step)
    requires Inv(s) && Enabled(s, step) && (step.LoseFence? || step.Own? || step.GiveUp?)
    ensures HoldersOk(Apply(s, step))
  {
    hide Fenced, LogOk, RequestsOk;
    var s' := Apply(s, step);
    forall n | n in s'.nodes ensures HolderOk(s', n, s'.nodes[n]) {
      assert HolderOk(s, n, s.nodes[n]);
    }
  }

  lemma NodeKeeps(s: State, step: Step)
    requires Inv(s) && Enabled(s, step)
    requires step.Boot? || step.Read? || step.LoseFence? || step.Own? || step.GiveUp?
    ensures Inv(Apply(s, step))
  {
    hide Fenced, RecordOk, RequestsOk;
    NodeHolders(s, step);
    hide HoldersOk;
    RequestsUnaffected(s, Apply(s, step));
  }

  lemma StepKeepsInv(s: State, step: Step)
    requires Inv(s) && Enabled(s, step)
    ensures Inv(Apply(s, step))
  {
    hide Inv, Apply;
    match step
    case AppendFence(n, holder) => FenceAppended(s, n, holder);
    case Land(record) => LandKeeps(s, record);
    case Check(_, _, _) => RequestsAdvance(s, step);
    case Send(_) => RequestsAdvance(s, step);
    case Ack(_, _) => RequestsAdvance(s, step);
    case Recheck(_) => RequestsAdvance(s, step);
    case Create(_) => ServerKeeps(s, step);
    case Adopt(_) => ServerKeeps(s, step);
    case Renew(_) => ServerKeeps(s, step);
    case Expire => ServerKeeps(s, step);
    case Tick(_) => ServerKeeps(s, step);
    case _ => NodeKeeps(s, step);
  }

  lemma LandKeeps(s: State, record: LogRecord)
    requires Inv(s) && Enabled(s, Land(record))
    ensures Inv(Apply(s, Land(record)))
  {
    LogGrows(s, record);
  }

  // ----- The lease implies acceptance -----

  /** A node that passes the check is still the one named in the slot. */
  lemma WriterHoldsSlot(s: State, n: nat)
    requires Inv(s) && s.delay <= 3500 && n in s.nodes && s.nodes[n].owned && s.now + 2500 < s.nodes[n].validUntil
    ensures s.slot.Some? && s.slot.value.node == n && s.slot.value.epoch == s.nodes[n].epoch == s.newest
  {
    hide Fenced, LogOk, RequestsOk;
    assert HolderOk(s, n, s.nodes[n]);
  }

  /** A pass that renews nothing leaves the node what it had, up to the end of its validity;
      one that has lost the slot for certain fails the second check of every request of this
      node at once. */
  lemma PassWithoutRenewal(s: State, n: nat, lost: bool, r: nat)
    requires Enabled(s, GiveUp(n, lost)) && r in s.reqs && s.reqs[r].node == n && s.reqs[r].stage.Acked?
    ensures var s' := Apply(s, GiveUp(n, lost));
            && n in s'.nodes && s'.nodes[n].task == Asleep && s'.nodes[n].epoch == s.nodes[n].epoch
            && s'.nodes[n].validUntil == s.nodes[n].validUntil
            && (s'.nodes[n].owned <==> s.nodes[n].owned && !lost && s.now < s.nodes[n].validUntil)
            && Enabled(s', Recheck(r))
            && (lost || !s.nodes[n].owned || s.now + 2500 >= s.nodes[n].validUntil || s.reqs[r].epoch != s.nodes[n].epoch
                <==> Apply(s', Recheck(r)).reqs[r].stage == Refused)
  {
  }

  /** At no moment do two nodes both pass ensure_writer. */
  lemma AtMostOneWriter(s: State, n: nat, m: nat)
    requires Inv(s) && s.delay <= 3500
    requires n in s.nodes && s.nodes[n].owned && s.now + 2500 < s.nodes[n].validUntil
    requires m in s.nodes && s.nodes[m].owned && s.now + 2500 < s.nodes[m].validUntil
    ensures n == m
  {
    hide Inv;
    WriterHoldsSlot(s, n);
    WriterHoldsSlot(s, m);
  }

  /** A record of the newest epoch that follows a fence of it is accepted by everyone. */
  lemma NewestIsAccepted(s: State, at: nat)
    requires LogOk(s) && !s.lossy && at < |s.log| && s.log[at].Operations? && s.log[at].epoch == s.newest
    ensures Accepts(s.log, at)
  {
    assert RecordOk(s.log, at);
    var i :| 0 <= i < at && s.log[..at][i].Fence? && s.log[..at][i].epoch == s.newest;
    assert s.log[i].Fence? && s.log[i].epoch == s.newest;
    AcceptedIffFenced(s.log, at);
  }

  lemma RecheckIsSafe(s: State, r: nat)
    requires Inv(s) && Safe(s) && Enabled(s, Recheck(r)) && !s.lossy && s.delay <= SAFE_DELAY
    ensures Safe(Apply(s, Recheck(r)))
  {
    hide Inv, RecordOk, Fenced, LogOk, SlotOk, HoldersOk;
    var q := s.reqs[r];
    if ValidEpoch(s.nodes[q.node], s.now, MARGIN) == Some(q.epoch) {
      WriterHoldsSlot(s, q.node);
      assert Inv(s) ==> LogOk(s) && RequestsOk(s) by { InvParts(s); }
      assert RequestOk(s, q);
      NewestIsAccepted(s, q.stage.at);
    }
  }

  lemma InvParts(s: State)
    requires Inv(s)
    ensures LogOk(s) && RequestsOk(s)
  {
    hide LogOk, RequestsOk;
  }

  lemma OthersStaySafe(s: State, step: Step)
    requires Safe(s) && Enabled(s, step) && !step.Recheck?
    ensures Safe(Apply(s, step))
  {
    var s' := Apply(s, step);
    forall r | r in s'.reqs && s'.reqs[r].stage.Passed? ensures Accepts(s'.log, s'.reqs[r].stage.at) {
      assert r in s.reqs && s.reqs[r] == s'.reqs[r];
      assert s'.log[..|s.log|] == s.log;
      AcceptanceIsStable(s.log, s'.log[|s.log|..], s'.reqs[r].stage.at);
      assert s.log + s'.log[|s.log|..] == s'.log;
    }
  }

  lemma {:induction false} RunIsSafe(s: State, steps: seq<Step>, end: State)
    requires Inv(s) && Safe(s) && !s.lossy && s.delay <= SAFE_DELAY && Reaches(s, steps, end)
    ensures Inv(end) && Safe(end)
    decreases |steps|
  {
    hide Inv, Safe, Enabled;
    if steps != [] {
      StepKeepsInv(s, steps[0]);
      if steps[0].Recheck? {
        RecheckIsSafe(s, steps[0].req);
      } else {
        OthersStaySafe(s, steps[0]);
      }
      RunIsSafe(Apply(s, steps[0]), steps[1..], end);
    }
  }

  /** Lease implies acceptance: with at most 3.5 s from the server's update to setting
      valid_until and no pass ending between an update and its fence, whatever a request
      applies after its second check is a record every replica accepts. */
  lemma LeaseImpliesAcceptance(delay: nat, steps: seq<Step>, end: State, r: nat)
    requires delay <= 3500 && Reaches(Start(delay, false), steps, end)
    requires r in end.reqs && end.reqs[r].stage.Passed?
    ensures var at := end.reqs[r].stage.at;
            && Accepts(end.log, at)
            && end.log[at] == Operations(end.reqs[r].epoch, end.reqs[r].operations)
  {
    RunIsSafe(Start(delay, false), steps, end);
  }

  // ----- Both hypotheses are needed -----

  lemma {:induction false} RunExtends(s: State, steps: seq<Step>, middle: State, step: Step)
    requires Reaches(s, steps, middle) && Enabled(middle, step)
    ensures Reaches(s, steps + [step], Apply(middle, step))
    decreases |steps|
  {
    hide Enabled, Apply;
    if steps == [] {
      assert ([step])[1..] == [];
      assert steps + [step] == [step];
      assert Reaches(Apply(middle, step), [], Apply(middle, step));
    } else {
      assert (steps + [step])[1..] == steps[1..] + [step];
      RunExtends(Apply(s, steps[0]), steps[1..], middle, step);
    }
  }

  ghost predicate Reachable(delay: nat, lossy: bool, end: State) {
    exists steps :: Reaches(Start(delay, lossy), steps, end)
  }

  lemma Extends(delay: nat, lossy: bool, s: State, step: Step)
    requires Reachable(delay, lossy, s) && Enabled(s, step)
    ensures Reachable(delay, lossy, Apply(s, step))
  {
    hide Enabled, Apply;
    var steps :| Reaches(Start(delay, lossy), steps, s);
    RunExtends(Start(delay, lossy), steps, s, step);
  }

  /** Two nodes, nothing else. */
  function TwoNodes(delay: nat, lossy: bool): State {
    Start(delay, lossy).(nodes := map[0 := RESTARTED, 1 := RESTARTED])
  }

  lemma TwoNodesBoot(delay: nat, lossy: bool)
    ensures Reachable(delay, lossy, TwoNodes(delay, lossy))
  {
    hide Reachable;
    var s0 := Start(delay, lossy);
    assert Reachable(delay, lossy, s0) by { StartIsReachable(delay, lossy); }
    Extends(delay, lossy, s0, Boot(0));
    var s1 := Apply(s0, Boot(0));
    Extends(delay, lossy, s1, Boot(1));
    assert s1.reqs == map[];
    assert Apply(s1, Boot(1)).nodes == map[0 := RESTARTED, 1 := RESTARTED];
    assert Apply(s1, Boot(1)).reqs == map[];
  }

  lemma StartIsReachable(delay: nat, lossy: bool)
    ensures Reachable(delay, lossy, Start(delay, lossy))
  {
    assert Reaches(Start(delay, lossy), [], Start(delay, lossy));
  }

  /** Node `n` finds the slot empty and turns its revision into an epoch. */
  function TakenOver(s: State, n: nat): State
    requires n in s.nodes && s.revision < MAX_U64 - 1
  {
    var e := s.revision + 1;
    s.(revision := e + 1, newest := e, slot := Some(Slot(n, e, e + 1, s.now)),
       nodes := s.nodes[n := s.nodes[n].(task := Updated(e, s.now))])
  }

  lemma TakesOver(delay: nat, lossy: bool, s: State, n: nat)
    requires Reachable(delay, lossy, s) && n in s.nodes && s.nodes[n].task.Asleep? && s.slot.None? && s.revision < MAX_U64 - 1
    ensures Reachable(delay, lossy, TakenOver(s, n))
  {
    hide Reachable;
    var s1 := Apply(s, Read(n));
    Extends(delay, lossy, s, Read(n));
    var s2 := Apply(s1, Create(n));
    Extends(delay, lossy, s1, Create(n));
    var s3 := Apply(s2, Adopt(n));
    Extends(delay, lossy, s2, Adopt(n));
    assert s3.nodes == TakenOver(s, n).nodes;
  }

  const WITNESS: seq<Operation> := [SAMPLE]

  /** Node 0 owns epoch 1 and has a request in flight. */
  function InFlight(s: State, at: nat): State
    requires 0 in s.nodes && s.slot.Some?
  {
    s.(now := at, nodes := s.nodes[0 := Holder(true, 1, at + VALID, s.now, Asleep)],
       wire := s.wire + {Operations(1, WITNESS)}, reqs := s.reqs[0 := Request(0, 1, WITNESS, Sent)])
  }

  lemma GetsInFlight(delay: nat, lossy: bool, s: State, at: nat)
    requires Reachable(delay, lossy, s) && 0 in s.nodes && s.nodes[0].task == Renewed(1, s.now) && s.slot.Some?
    requires s.now <= at <= s.now + s.delay && 0 !in s.reqs
    ensures Reachable(delay, lossy, InFlight(s, at))
  {
    hide Reachable;
    Extends(delay, lossy, s, Tick(at - s.now));
    var s1 := Apply(s, Tick(at - s.now));
    Extends(delay, lossy, s1, Own(0));
    var s2 := Apply(s1, Own(0));
    Extends(delay, lossy, s2, Check(0, 0, WITNESS));
    var s3 := Apply(s2, Check(0, 0, WITNESS));
    Extends(delay, lossy, s3, Send(0));
    assert Apply(s3, Send(0)).reqs == InFlight(s, at).reqs;
  }

  /** A request went on to apply operations that validate, and no replica accepts any of
      them. */
  ghost predicate AppliesRejected(s: State) {
    exists r :: r in s.reqs && s.reqs[r].stage.Passed? && s.reqs[r].operations != []
                && forall op :: op in s.reqs[r].operations ==> Validates(op) && op !in Accepted(s.log)
  }

  /** The record of the request in flight lands, is acknowledged, and the second check
      passes. */
  lemma Commits(delay: nat, lossy: bool, s: State) returns (end: State)
    requires Reachable(delay, lossy, s) && 0 in s.nodes && 0 in s.reqs && s.reqs[0] == Request(0, 1, WITNESS, Sent)
    requires Operations(1, WITNESS) in s.wire && ValidEpoch(s.nodes[0], s.now, MARGIN) == Some(1)
    requires Active(s.log) != 1 && Accepted(s.log) == []
    ensures Reachable(delay, lossy, end) && !Safe(end) && AppliesRejected(end)
  {
    hide Reachable, Active, Accepted, Safe, AppliesRejected;
    var record := Operations(1, WITNESS);
    Extends(delay, lossy, s, Land(record));
    var s1 := Apply(s, Land(record));
    Extends(delay, lossy, s1, Ack(0, |s.log|));
    var s2 := Apply(s1, Ack(0, |s.log|));
    Extends(delay, lossy, s2, Recheck(0));
    end := Apply(s2, Recheck(0));
    PassedUnaccepted(s.log, end);
  }

  lemma PassedUnaccepted(log: Log, end: State)
    requires Active(log) != 1 && Accepted(log) == [] && end.log == log + [Operations(1, WITNESS)]
    requires 0 in end.reqs && end.reqs[0] == Request(0, 1, WITNESS, Passed(|log|))
    ensures !Safe(end) && AppliesRejected(end)
  {
    hide Validates;
    assert end.log[..|log|] == log;
    AppendFold(log, Operations(1, WITNESS));
    SampleValidates();
  }

  /** Node 0 has epoch 1 and its fence in the log, at time zero. */
  function FirstWriter(delay: nat, lossy: bool): State {
    var s := TakenOver(TwoNodes(delay, lossy), 0);
    s.(nodes := s.nodes[0 := s.nodes[0].(task := Renewed(1, 0))], log := [Fence(1, [])])
  }

  lemma FirstWriterWrites(delay: nat, lossy: bool)
    ensures Reachable(delay, lossy, FirstWriter(delay, lossy))
  {
    hide Reachable;
    TwoNodesBoot(delay, lossy);
    TakesOver(delay, lossy, TwoNodes(delay, lossy), 0);
    Extends(delay, lossy, TakenOver(TwoNodes(delay, lossy), 0), AppendFence(0, []));
    assert Apply(TakenOver(TwoNodes(delay, lossy), 0), AppendFence(0, [])) == FirstWriter(delay, lossy);
  }

  /** The moment the slot expires, node 1 takes it over and appends its fence. */
  lemma NextWriterFences(delay: nat, lossy: bool, s: State) returns (end: State)
    requires Reachable(delay, lossy, s) && s.now <= TTL && s.slot == Some(Slot(0, 1, 2, 0)) && s.revision == 2
    requires 1 in s.nodes && s.nodes[1] == RESTARTED
    ensures Reachable(delay, lossy, end) && end.now == TTL && end.log == s.log + [Fence(3, [])]
    ensures end.reqs == s.reqs && end.wire == s.wire && (0 in s.nodes ==> 0 in end.nodes && end.nodes[0] == s.nodes[0])
  {
    hide Reachable;
    Extends(delay, lossy, s, Tick(TTL - s.now));
    var s1 := Apply(s, Tick(TTL - s.now));
    Extends(delay, lossy, s1, Expire);
    var s2 := Apply(s1, Expire);
    TakesOver(delay, lossy, s2, 1);
    var s3 := TakenOver(s2, 1);
    Extends(delay, lossy, s3, AppendFence(1, []));
    end := Apply(s3, AppendFence(1, []));
  }

  lemma FencesAcceptNothing(log: Log)
    ensures log == [Fence(1, []), Fence(3, [])] ==> Active(log) == 3 && Accepted(log) == []
    ensures log == [] ==> Active(log) == 0 && Accepted(log) == []
  {
    var one: Log := [Fence(1, [])];
    assert one[..|one| - 1] == [];
    assert Active([]) == 0 && Accepted([]) == [];
    assert Active(one) == 1 && Accepted(one) == [] + [];
    if log == [Fence(1, []), Fence(3, [])] {
      assert log[..|log| - 1] == one;
    }
  }

  /** Any larger delay is unsafe: node 0 sets valid_until one millisecond too late,
      node 1 takes the slot over the moment it expires, and the second check of node 0
      still passes at that moment. */
  lemma SlowOwnersAreUnsafe(delay: nat, lossy: bool) returns (end: State)
    requires delay > 3500
    ensures Reachable(delay, lossy, end) && !Safe(end) && AppliesRejected(end)
  {
    hide Reachable, Safe, AppliesRejected, Active, Accepted;
    var late := SAFE_DELAY + 1;
    FirstWriterWrites(delay, lossy);
    GetsInFlight(delay, lossy, FirstWriter(delay, lossy), late);
    var s := NextWriterFences(delay, lossy, InFlight(FirstWriter(delay, lossy), late));
    FencesAcceptNothing(s.log);
    end := Commits(delay, lossy, s);
  }

  /** A lost fence is unsafe at any speed: the next pass renews an epoch that no record
      of the log announces. */
  lemma LostFencesAreUnsafe(delay: nat) returns (end: State)
    ensures Reachable(delay, true, end) && !Safe(end) && AppliesRejected(end)
  {
    hide Reachable, Safe, AppliesRejected, Active, Accepted;
    TwoNodesBoot(delay, true);
    TakesOver(delay, true, TwoNodes(delay, true), 0);
    var s1 := TakenOver(TwoNodes(delay, true), 0);
    Extends(delay, true, s1, LoseFence(0));
    var s2 := Apply(s1, LoseFence(0));
    Extends(delay, true, s2, Read(0));
    var s3 := Apply(s2, Read(0));
    Extends(delay, true, s3, Renew(0));
    var s4 := Apply(s3, Renew(0));
    GetsInFlight(delay, true, s4, 0);
    FencesAcceptNothing(s4.log);
    end := Commits(delay, true, InFlight(s4, 0));
  }

  /** The lease is safe on every run exactly when an owner never needs more than 3.5 s
      to set valid_until and no pass loses its fence. */
  lemma LeaseIsSafeIff(delay: nat, lossy: bool)
    ensures (forall end :: Reachable(delay, lossy, end) ==> Safe(end)) <==> delay <= 3500 && !lossy
    ensures (exists end :: Reachable(delay, lossy, end) && AppliesRejected(end)) <==> delay > 3500 || lossy
  {
    hide Safe, AppliesRejected;
    if delay > SAFE_DELAY {
      var end := SlowOwnersAreUnsafe(delay, lossy);
    } else if lossy {
      var end := LostFencesAreUnsafe(delay);
    } else {
      forall end | Reachable(delay, lossy, end) ensures Safe(end) && !AppliesRejected(end) {
        var steps :| Reaches(Start(delay, lossy), steps, end);
        StartIsSafe(delay);
        RunIsSafe(Start(delay, lossy), steps, end);
        SafeAppliesAccepted(end);
      }
    }
  }

  lemma SafeAppliesAccepted(s: State)
    requires Safe(s)
    ensures !AppliesRejected(s)
  {
    hide Validates;
    forall r | r in s.reqs && s.reqs[r].stage.Passed? && s.reqs[r].operations != []
      ensures exists op :: op in s.reqs[r].operations && op in Accepted(s.log)
    {
      AcceptedRecordCounts(s.log, s.reqs[r].stage.at);
      assert s.reqs[r].operations[0] in s.reqs[r].operations;
    }
  }

  lemma StartIsSafe(delay: nat)
    ensures Inv(Start(delay, false)) && Safe(Start(delay, false))
  {
  }

  // ----- The lease state that the task and the handlers share -----

  class WriterLease {
    var owned: bool
    var validUntil: nat
    var epoch: U64

    constructor (now: nat)
      ensures !owned && validUntil == now && epoch == 0
    {
      owned, validUntil, epoch := false, now, 0;
    }

    ghost function Abstract(touch: nat, task: Task): Holder
      reads this
    {
      Holder(owned, epoch, validUntil, touch, task)
    }

    /** The end of one pass of the lease task. A renewal makes the writer check pass for
        exactly 1.5 s; a pass without one never extends what the last one gave, and ends it
        at once if the lease is lost for certain. */
    method Settle(renewed: Option<U64>, definitelyLost: bool, now: nat, ghost was: Holder, ghost touch: nat)
      requires was == Abstract(was.touch, was.task)
      modifies this
      ensures var h := EndOfPass(was, renewed, definitelyLost, now, touch); h == Abstract(h.touch, h.task)
      ensures renewed.Some? ==> forall t: nat :: t >= now ==>
                ValidEpochFor(t, 2500) == if t < now + 1500 then renewed else None
      ensures renewed.None? ==> forall t: nat, m: nat :: t >= now ==>
                ValidEpochFor(t, m) == if definitelyLost then None else ValidEpoch(was, t, m)
    {
      if renewed.Some? {
        owned := true;
        epoch := renewed.value;
        validUntil := now + VALID;
      } else if definitelyLost || now >= validUntil {
        owned := false;
      }
    }

    function ValidEpochFor(now: nat, required: nat): (r: Option<U64>)
      reads this
      ensures forall touch, task :: r == ValidEpoch(Abstract(touch, task), now, required)
    {
      if owned && now + required < validUntil then Some(epoch) else None
    }
  }
}
