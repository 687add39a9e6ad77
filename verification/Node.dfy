/** One warehouse node over the shared log: the deduplication protocol plus the WAL,
    the snapshot, the replication checkpoint, the balances and the log tail
    (src/state.rs, src/main.rs). Crashes may happen at any step. */
module Node {
  import opened Model
  import opened ReplicatedLog
  import P = Protocol
  import Q = ProtocolProof

  datatype Snapshot = Snapshot(balances: Balances, sequence: nat, epoch: U64)

  datatype Mark = Mark(sequence: nat, epoch: U64)

  datatype Tail =
    | Resting
    | Following(next: nat, epoch: U64, busy: Option<nat>)

  /** Where a request came from, and the log record that carries it. */
  datatype Origin = Client | Replicated(at: nat) | Replayed(at: nat)

  datatype Node = Node(
    p: P.State,
    origin: map<nat, Origin>,
    log: Log,
    wal: seq<Operation>,
    snapshot: Snapshot,
    synced: map<P.Key, Content>,    // what the index holds even after a crash
    checkpoint: Mark,
    balances: Balances,             // the state shards together
    published: Balances,            // what readers see
    tail: Tail,
    serving: bool,
    settled: seq<Operation>,        // history: operations the snapshot covers
    journal: seq<Operation>,        // history: operations applied to the balances
    shown: seq<Operation>)          // history: operations published to readers

  function NewOps(q: P.Request): seq<Operation> {
    if |q.marks| == |q.ops| then MarkedOps(q.ops, q.marks) else []
  }

  function AllPairs(ops: seq<Operation>): P.Pairs {
    if ops == [] then []
    else AllPairs(ops[..|ops| - 1]) + [(ops[|ops| - 1].id, Fingerprint(ops[|ops| - 1]))]
  }

  datatype Step =
    | ClientBegins(req: nat, ops: seq<Operation>)
    | Inner(step: P.Step)
    | Replicate(req: nat, epoch: U64)
    | ReplicateAgain(req: nat, at: nat)     // an identical record is already in the log
    | WalAppend(req: nat)
    | WalUnsure(req: nat)                   // written, but the append reported an error
    | ApplyOne(req: nat, index: nat)
    | Publish(req: nat)
    | TailStart
    | TailRead(req: nat)
    | TailDone
    | TailStop
    | TailSave
    | Foreign(record: LogRecord)            // another node, or a late publish of this one
    | CrashAndStart(torn: Option<(nat, nat)>, found: map<P.Key, Content>)
    | Compact
    | Serve

  /** Protocol steps that have no effect outside the protocol. */
  predicate InnerKind(step: P.Step) {
    Q.QuietKind(step) && !step.Begin?
  }

  /** The record that carries the request's new operations is one every replica accepts.
      For a client request this is what the lease guarantees after its second check; for
      a replayed record it is the epoch test of the tail. */
  predicate MayApply(s: Node, r: nat)
    requires r in s.p.reqs && r in s.origin
  {
    var ops := NewOps(s.p.reqs[r]);
    || ops == []
    || match s.origin[r]
       case Client => false
       case Replicated(at) => Accepts(s.log, at) && s.log[at].operations == ops
       case Replayed(at) => true
  }

  ghost predicate Enabled(s: Node, step: Step) {
    match step
    case ClientBegins(r, ops) => s.serving && r !in s.p.reqs
    case Inner(step) => InnerKind(step) && P.Enabled(s.p, step)
    case Replicate(r, epoch) =>
      && r in s.p.reqs && r in s.origin && s.p.reqs[r].phase.Reserved? && !s.origin[r].Replayed?
      && ConsistentIds(Accepted(s.log + [Operations(epoch, NewOps(s.p.reqs[r]))]))
    case ReplicateAgain(r, at) =>
      && r in s.p.reqs && r in s.origin && s.p.reqs[r].phase.Reserved? && !s.origin[r].Replayed?
      && at < |s.log| && s.log[at].Operations? && s.log[at].operations == NewOps(s.p.reqs[r])
    case WalAppend(r) => r in s.p.reqs && r in s.origin && s.p.reqs[r].phase.Reserved? && MayApply(s, r)
    case WalUnsure(r) => r in s.p.reqs && r in s.origin && s.p.reqs[r].phase.Reserved? && MayApply(s, r)
    case ApplyOne(r, i) => P.Enabled(s.p, P.ApplyOne(r, i))
    case Publish(r) => P.Enabled(s.p, P.Published(r))
    case TailStart => s.tail.Resting?
    case TailRead(r) =>
      s.tail.Following? && s.tail.busy.None? && s.tail.next < |s.log| && r !in s.p.reqs
    case TailDone =>
      && s.tail.Following? && s.tail.busy.Some? && s.tail.busy.value in s.p.reqs
      && s.p.reqs[s.tail.busy.value].phase.Done?
    case TailStop =>
      && s.tail.Following?
      && (s.tail.busy.Some? ==> s.tail.busy.value in s.p.reqs && P.Ended(s.p.reqs[s.tail.busy.value].phase))
    case TailSave => s.tail.Following? && s.tail.busy.None?
    case Foreign(record) => ConsistentIds(Accepted(s.log + [record]))
    case CrashAndStart(torn, found) =>
      && (forall k :: k in s.synced ==> k in found && found[k] == s.synced[k])
      && (forall k :: k in found ==> k in s.p.index.stored && found[k] == s.p.index.stored[k])
      && (torn.Some? ==>
            && torn.value.0 in s.p.reqs && torn.value.0 in s.origin && s.p.reqs[torn.value.0].phase.Reserved?
            && MayApply(s, torn.value.0) && torn.value.1 <= |NewOps(s.p.reqs[torn.value.0])|)
    case Compact => !s.serving && s.tail.Resting? && Drained(s)
    case Serve => !s.serving && s.tail.Resting?
  }

  /** Nothing is in flight and every committed id is on disk: start-up compaction takes
      its snapshot, syncs the index and resets the WAL as one step only then. */
  ghost predicate Drained(s: Node) {
    && (forall r :: r in s.p.reqs ==> P.Ended(s.p.reqs[r].phase))
    && (forall k :: k in s.p.committed ==> k in s.p.index.stored)
  }

  ghost function Apply(s: Node, step: Step): Node
    requires Enabled(s, step)
  {
    match step
    case ClientBegins(r, ops) => s.(p := P.Apply(s.p, P.Begin(r, ops)), origin := s.origin[r := Client])
    case Inner(step) => s.(p := P.Apply(s.p, step))
    case Replicate(r, epoch) =>
      s.(log := s.log + [Operations(epoch, NewOps(s.p.reqs[r]))], origin := s.origin[r := Replicated(|s.log|)])
    case ReplicateAgain(r, at) => s.(origin := s.origin[r := Replicated(at)])
    case WalAppend(r) => s.(p := P.Apply(s.p, P.Commit(r)), wal := s.wal + NewOps(s.p.reqs[r]))
    case WalUnsure(r) => s.(p := P.Apply(s.p, P.Abort(r)), wal := s.wal + NewOps(s.p.reqs[r]))
    case ApplyOne(r, i) =>
      var op := s.p.reqs[r].ops[i];
      s.(p := P.Apply(s.p, P.ApplyOne(r, i)), balances := Add(s.balances, op), journal := s.journal + [op])
    case Publish(r) =>
      s.(p := P.Apply(s.p, P.Published(r)),
         published := AddAll(s.published, NewOps(s.p.reqs[r])),
         shown := s.shown + NewOps(s.p.reqs[r]))
    case TailStart => s.(tail := Following(s.checkpoint.sequence, s.checkpoint.epoch, None))
    case TailRead(r) => TailReading(s, r)
    case TailDone => s.(tail := Following(s.tail.next + 1, s.tail.epoch, None))
    case TailStop => s.(tail := Resting)
    case TailSave =>
      if s.tail.next <= s.checkpoint.sequence then s
      else s.(checkpoint := Mark(s.tail.next, s.tail.epoch))
    case Foreign(record) => s.(log := s.log + [record])
    case CrashAndStart(torn, found) =>
      Starting(s, s.wal + if torn.Some? then NewOps(s.p.reqs[torn.value.0])[..torn.value.1] else [], found)
    case Compact =>
      s.(snapshot := Snapshot(s.balances, s.checkpoint.sequence, s.checkpoint.epoch),
         synced := s.p.index.stored, wal := [], settled := s.journal)
    case Serve => s.(serving := true)
  }

  /** catch_up on one record: fences move the epoch, accepted batches go through
      restore_chunk, everything else is passed over. */
  ghost function TailReading(s: Node, r: nat): Node
    requires Enabled(s, TailRead(r))
  {
    var n := s.tail.next;
    match s.log[n]
    case Fence(epoch, _) => s.(tail := Following(n + 1, Max(s.tail.epoch, epoch), None))
    case Operations(epoch, ops) =>
      if epoch == s.tail.epoch && ops != [] then
        s.(p := P.Apply(s.p, P.Begin(r, ops)), origin := s.origin[r := Replayed(n)],
           tail := Following(n, s.tail.epoch, Some(r)))
      else s.(tail := Following(n + 1, s.tail.epoch, None))
  }

  /** `Store::start` after a crash that left `wal` and an index holding `found`. */
  ghost function Starting(s: Node, wal: seq<Operation>, found: map<P.Key, Content>): Node {
    var recovered := FirstPerId(wal);
    var index := P.StoredWith(found, AllPairs(recovered));
    var balances := AddAll(s.snapshot.balances, recovered);
    var mark := if s.snapshot.sequence > s.checkpoint.sequence then Mark(s.snapshot.sequence, s.snapshot.epoch)
                else s.checkpoint;
    s.(p := P.Started(s.p.place, index), origin := map[], wal := wal, checkpoint := mark,
       balances := balances, published := balances, tail := Resting, serving := false,
       journal := s.settled + recovered, shown := s.settled + recovered)
  }

  /** The first start of a node on an empty disk, the log already holding `log`. */
  ghost function Born(place: P.Placement, log: Log): Node {
    Node(Q.FirstStart(place), map[], log, [], Snapshot(map[], 0, 0), map[], Mark(0, 0), map[], map[], Resting, false, [], [], [])
  }

  // ----- The invariant -----

  ghost predicate Includes(big: seq<Operation>, small: seq<Operation>) {
    forall op :: op in small ==> op in big
  }

  ghost predicate Apart(a: seq<Operation>, b: seq<Operation>) {
    forall x, y :: x in a && y in b ==> x.id != y.id
  }

  /** Everything counted is accepted, counted once, and on disk. */
  ghost predicate Durable(log: Log, wal: seq<Operation>, settled: seq<Operation>, journal: seq<Operation>) {
    && ConsistentIds(Accepted(log))
    && DistinctIds(journal) && DistinctIds(settled)
    && Includes(journal, settled) && Apart(settled, wal)
    && Includes(Accepted(log), journal) && Includes(Accepted(log), wal)
    && (forall op :: op in journal ==> op in settled || op in wal)
  }

  ghost predicate Sums(b: Balances, ops: seq<Operation>) {
    forall p :: Balance(b, p) == Total(ops, p)
  }

  predicate AppliedAt(q: P.Request, i: nat) {
    i in q.applied && i < |q.ops|
  }

  /** The journal is exactly what the protocol has committed or is about to. */
  ghost predicate Accounted(place: P.Placement, reqs: P.Requests, committed: map<P.Key, Content>, journal: seq<Operation>) {
    && (forall op :: op in journal ==> P.Settled(committed, op) || Q.AppliedHeld(place, reqs, op))
    && (forall k :: k in committed ==> Listed(journal, k, committed[k]))
    && (forall r, i: nat :: r in reqs && AppliedAt(reqs[r], i) ==> reqs[r].ops[i] in journal)
    && (forall r1: nat, r2: nat, i: nat, j: nat ::
          r1 in reqs && r2 in reqs && r1 != r2 && AppliedAt(reqs[r1], i) && AppliedAt(reqs[r2], j) ==>
          reqs[r1].ops[i].id != reqs[r2].ops[j].id)
  }

  ghost predicate Listed(journal: seq<Operation>, k: P.Key, content: Content) {
    exists op :: op in journal && op.id == k && Fingerprint(op) == content
  }

  ghost predicate OnDisk(synced: map<P.Key, Content>, stored: map<P.Key, Content>, settled: seq<Operation>) {
    && (forall op :: op in settled ==> P.Settled(synced, op))
    && (forall k :: k in synced ==> k in stored && stored[k] == synced[k])
  }

  /** Requests past the WAL append have their new operations in the WAL. */
  ghost predicate Walled(reqs: P.Requests, wal: seq<Operation>) {
    forall r, i: nat :: r in reqs && reqs[r].phase.Applying? && P.Marked(reqs[r], i) ==> reqs[r].ops[i] in wal
  }

  /** A saved position: its epoch is the fold of the log up to it, and every operation
      accepted up to it has been counted. */
  ghost predicate Honest(log: Log, mark: Mark, counted: seq<Operation>) {
    && mark.sequence <= |log|
    && mark.epoch == Active(log[..mark.sequence])
    && Includes(counted, Accepted(log[..mark.sequence]))
  }

  ghost predicate TailOk(log: Log, tail: Tail, journal: seq<Operation>, reqs: P.Requests, origin: map<nat, Origin>) {
    tail.Following? ==>
      && Honest(log, Mark(tail.next, tail.epoch), journal)
      && (tail.busy.Some? ==>
            && tail.next < |log| && tail.busy.value in reqs && tail.busy.value in origin
            && origin[tail.busy.value] == Replayed(tail.next))
  }

  ghost predicate OriginsOk(log: Log, reqs: P.Requests, origin: map<nat, Origin>) {
    forall r :: r in reqs ==>
      && r in origin
      && (origin[r].Replayed? ==> Accepts(log, origin[r].at) && reqs[r].ops == log[origin[r].at].operations)
  }

  ghost predicate UnpublishedOp(reqs: P.Requests, op: Operation) {
    exists r, i: nat :: r in reqs && Q.Unpublished(reqs[r].phase) && AppliedAt(reqs[r], i) && reqs[r].ops[i] == op
  }

  /** Readers see whole batches: what is applied and not shown belongs to requests whose
      publication is still to come, and of those nothing is shown. */
  ghost predicate ShownOk(reqs: P.Requests, journal: seq<Operation>, shown: seq<Operation>) {
    && DistinctIds(shown) && Includes(journal, shown)
    && (forall op :: op in journal ==> (op in shown <==> !UnpublishedOp(reqs, op)))
  }

  ghost predicate Inv(s: Node) {
    && P.Inv(s.p)
    && Durable(s.log, s.wal, s.settled, s.journal)
    && Sums(s.balances, s.journal) && Sums(s.snapshot.balances, s.settled) && Sums(s.published, s.shown)
    && Accounted(s.p.place, s.p.reqs, s.p.committed, s.journal)
    && OnDisk(s.synced, s.p.index.stored, s.settled)
    && Walled(s.p.reqs, s.wal)
    && Honest(s.log, s.checkpoint, s.journal)
    && Honest(s.log, Mark(s.snapshot.sequence, s.snapshot.epoch), s.settled)
    && TailOk(s.log, s.tail, s.journal, s.p.reqs, s.origin)
    && OriginsOk(s.log, s.p.reqs, s.origin)
    && ShownOk(s.p.reqs, s.journal, s.shown)
  }
}
