/** The deduplication protocol of src/state.rs as a step system. Each step is one
    critical section: a dedup shard lock held, the LSM commit, the Bloom write lock, or
    a channel hand-over. Requests interleave freely. */
module Protocol {
  import opened Model

  const DEDUP_SHARDS := 64

  type Key = Text

  /** How digests fall: the dedup shard of a key and its Bloom positions. Arbitrary
      functions, so every result holds for any of them. */
  datatype Placement = Placement(shard: Key -> nat, bits: Key -> set<nat>)

  /** The `Arc<Notify>` one attempt of one request reserves with. */
  datatype Token = Token(req: nat, attempt: nat)

  datatype Entry =
    | Committed(content: Content)
    | Pending(content: Content, token: Token)

  type Memory = map<Key, Entry>

  datatype Why = Conflict | WaitFor(token: Token, heard: nat)

  datatype Phase =
    | Preflight(shard: nat)
    | Probed(shard: nat, sure: set<Key>)      // lock held, Bloom filter consulted
    | RollingBack(shard: nat, why: Why)
    | Waiting(token: Token, heard: nat)
    | Rejected
    | Reserved
    | Applying
    | Finishing(shard: nat, committed: bool)
    | Publishing
    | Enqueuing
    | Notifying(committed: bool)
    | Done
    | Aborted

  datatype Request = Request(ops: seq<Operation>, attempt: nat, marks: seq<bool>, phase: Phase, applied: set<nat>)

  /** The dedup index on disk: what lookups find, the Bloom bits, and the background
      rebuild with its private image and the keys it has still to visit. */
  datatype Index = Index(stored: map<Key, Content>, bloom: set<nat>, ready: bool, image: set<nat>, left: set<Key>)

  type Pairs = seq<(Key, Content)>

  datatype Worker =
    | Idle
    | Writing(batch: Pairs)    // taken from the queue
    | Adding(batch: Pairs)     // LSM batch committed, Bloom not yet updated
    | Removing(batch: Pairs)   // Bloom updated, memory entries being dropped

  datatype State = State(
    place: Placement,
    memory: Memory,
    index: Index,
    queue: Pairs,
    worker: Worker,
    reqs: map<nat, Request>,
    notified: map<Token, nat>,
    committed: map<Key, Content>)   // history variable: every id committed so far

  // ----- Preflight of one shard -----

  predicate IsFirst(ops: seq<Operation>, i: nat)
    requires i < |ops|
  {
    forall j :: 0 <= j < i ==> ops[j].id != ops[i].id
  }

  predicate BatchAgrees(ops: seq<Operation>) {
    forall i, j :: 0 <= i < j < |ops| && ops[i].id == ops[j].id ==> Fingerprint(ops[i]) == Fingerprint(ops[j])
  }

  predicate Indices(group: seq<nat>, n: nat) {
    forall a :: 0 <= a < |group| ==> group[a] < n
  }

  /** The first occurrences below `n` whose key falls in `shard`, in request order. */
  function Group(shardOf: Key -> nat, ops: seq<Operation>, shard: nat, n: nat): (r: seq<nat>)
    requires n <= |ops|
    ensures Indices(r, n)
    ensures forall i: nat :: i in r <==> i < n && IsFirst(ops, i) && shardOf(ops[i].id) == shard
    ensures forall a, b :: 0 <= a < b < |r| ==> r[a] < r[b]
  {
    if n == 0 then []
    else
      var before := Group(shardOf, ops, shard, n - 1);
      if IsFirst(ops, n - 1) && shardOf(ops[n - 1].id) == shard then before + [n - 1] else before
  }

  datatype Verdict = Continue | Contradicted | MustWait(token: Token)

  datatype Decision = Decision(memory: Memory, marks: seq<bool>, verdict: Verdict)

  /** What the loop under one shard lock does to the indices of `group`, given the
      values `seen` that the disk index answered. */
  function Decide(memory: Memory, seen: map<Key, Content>, ops: seq<Operation>, group: seq<nat>,
                  token: Token, marks: seq<bool>): Decision
    requires |marks| == |ops|
    requires Indices(group, |ops|)
    decreases |group|
  {
    if group == [] then Decision(memory, marks, Continue)
    else
      var i, rest := group[0], group[1..];
      var key, content := ops[i].id, Fingerprint(ops[i]);
      if key in memory then
        match memory[key]
        case Committed(existing) =>
          if existing != content then Decision(memory, marks, Contradicted)
          else Decide(memory, seen, ops, rest, token, marks)
        case Pending(existing, holder) =>
          if existing != content then Decision(memory, marks, Contradicted)
          else Decision(memory, marks, MustWait(holder))
      else if key in seen then
        if seen[key] != content then Decision(memory, marks, Contradicted)
        else Decide(memory, seen, ops, rest, token, marks)
      else
        Decide(memory[key := Pending(content, token)], seen, ops, rest, token, marks[i := true])
  }

  ghost predicate Fresh(ops: seq<Operation>, group: seq<nat>, marks: seq<bool>) {
    && |marks| == |ops| && Indices(group, |ops|)
    && (forall a :: 0 <= a < |group| ==> !marks[group[a]])
    && (forall a, b :: 0 <= a < b < |group| ==> ops[group[a]].id != ops[group[b]].id)
  }

  lemma FreshStep(ops: seq<Operation>, group: seq<nat>, marks: seq<bool>)
    requires Fresh(ops, group, marks) && group != []
    ensures group[0] !in group[1..]
    ensures Fresh(ops, group[1..], marks) && Fresh(ops, group[1..], marks[group[0] := true])
    ensures forall a :: 0 <= a < |group[1..]| ==> ops[group[1..][a]].id != ops[group[0]].id
    ensures forall j :: j in group <==> j == group[0] || j in group[1..]
  {
    var rest := group[1..];
    assert forall b :: 0 <= b < |rest| ==> rest[b] == group[b + 1];
  }

  /** Entries already in memory and marks outside the group are not touched. */
  lemma {:induction false} DecideFrame(memory: Memory, seen: map<Key, Content>, ops: seq<Operation>, group: seq<nat>,
                                       token: Token, marks: seq<bool>)
    requires Fresh(ops, group, marks)
    ensures var d := Decide(memory, seen, ops, group, token, marks);
            && |d.marks| == |ops|
            && (forall i: nat :: i < |ops| && i !in group ==> d.marks[i] == marks[i])
            && (forall k :: k in memory ==> k in d.memory && d.memory[k] == memory[k])
    decreases |group|
  {
    if group != [] {
      var i, rest := group[0], group[1..];
      FreshStep(ops, group, marks);
      DecideFrame(memory, seen, ops, rest, token, marks);
      DecideFrame(memory[ops[i].id := Pending(Fingerprint(ops[i]), token)], seen, ops, rest, token, marks[i := true]);
    }
  }

  /** The marked indices are exactly the new entries: absent before, pending under this
      token after. */
  lemma {:induction false} DecideReserves(memory: Memory, seen: map<Key, Content>, ops: seq<Operation>, group: seq<nat>,
                                          token: Token, marks: seq<bool>)
    requires Fresh(ops, group, marks)
    ensures var d := Decide(memory, seen, ops, group, token, marks);
            && |d.marks| == |ops|
            && (forall i: nat :: i in group && i < |ops| && d.marks[i] ==>
                  && ops[i].id !in memory && ops[i].id !in seen
                  && ops[i].id in d.memory && d.memory[ops[i].id] == Pending(Fingerprint(ops[i]), token))
            && (forall k :: k in d.memory && k !in memory ==>
                  exists i: nat :: i in group && i < |ops| && d.marks[i] && ops[i].id == k)
    decreases |group|
  {
    if group != [] {
      var i, rest := group[0], group[1..];
      var key, content := ops[i].id, Fingerprint(ops[i]);
      FreshStep(ops, group, marks);
      if key in memory || key in seen {
        DecideReserves(memory, seen, ops, rest, token, marks);
        DecideFrame(memory, seen, ops, rest, token, marks);
      } else {
        var memory', marks' := memory[key := Pending(content, token)], marks[i := true];
        DecideReserves(memory', seen, ops, rest, token, marks');
        DecideFrame(memory', seen, ops, rest, token, marks');
        var d := Decide(memory', seen, ops, rest, token, marks');
        assert d.marks[i] && d.memory[key] == Pending(content, token);
      }
    }
  }

  /** Without a conflict or a wait every unmarked index agrees with what is committed;
      a wait is for a reservation of the same content. */
  lemma {:induction false} DecideVerdict(memory: Memory, seen: map<Key, Content>, ops: seq<Operation>, group: seq<nat>,
                                         token: Token, marks: seq<bool>)
    requires Fresh(ops, group, marks)
    ensures var d := Decide(memory, seen, ops, group, token, marks);
            && |d.marks| == |ops|
            && (d.verdict == Continue ==> forall i: nat :: i in group && i < |ops| && !d.marks[i] ==>
                  || (ops[i].id in memory && memory[ops[i].id] == Committed(Fingerprint(ops[i])))
                  || (ops[i].id !in memory && ops[i].id in seen && seen[ops[i].id] == Fingerprint(ops[i])))
            && (d.verdict.MustWait? ==>
                  exists i: nat :: && i in group && i < |ops| && ops[i].id in memory
                                   && memory[ops[i].id] == Pending(Fingerprint(ops[i]), d.verdict.token))
    decreases |group|
  {
    if group != [] {
      var i, rest := group[0], group[1..];
      var key, content := ops[i].id, Fingerprint(ops[i]);
      FreshStep(ops, group, marks);
      if key in memory || key in seen {
        DecideVerdict(memory, seen, ops, rest, token, marks);
      } else {
        var memory', marks' := memory[key := Pending(content, token)], marks[i := true];
        DecideVerdict(memory', seen, ops, rest, token, marks');
        DecideFrame(memory', seen, ops, rest, token, marks');
        assert forall j: nat :: j in rest && j < |ops| ==> ops[j].id != key;
        assert Decide(memory', seen, ops, rest, token, marks').marks[i];
      }
    }
  }

  /** A conflict is reported only over an id that is known with another content. */
  lemma {:induction false} DecideConflicts(memory: Memory, seen: map<Key, Content>, ops: seq<Operation>, group: seq<nat>,
                                           token: Token, marks: seq<bool>)
    requires Fresh(ops, group, marks)
    ensures Decide(memory, seen, ops, group, token, marks).verdict == Contradicted ==>
              exists i: nat :: && i in group && i < |ops|
                               && (if ops[i].id in memory then memory[ops[i].id].content != Fingerprint(ops[i])
                                   else ops[i].id in seen && seen[ops[i].id] != Fingerprint(ops[i]))
    decreases |group|
  {
    if group != [] {
      var i, rest := group[0], group[1..];
      var key, content := ops[i].id, Fingerprint(ops[i]);
      FreshStep(ops, group, marks);
      if key in memory || key in seen {
        DecideConflicts(memory, seen, ops, rest, token, marks);
      } else {
        var memory', marks' := memory[key := Pending(content, token)], marks[i := true];
        DecideConflicts(memory', seen, ops, rest, token, marks');
        assert forall j: nat :: j in rest && j < |ops| ==> ops[j].id != key;
      }
    }
  }

  // ----- Steps -----

  datatype Step =
    | Begin(req: nat, ops: seq<Operation>)
    | Probe(req: nat)
    | Reserve(req: nat, seen: map<Key, Content>)
    | Unreserve(req: nat)
    | Wake(req: nat)
    | Abort(req: nat)
    | Commit(req: nat)
    | ApplyOne(req: nat, index: nat)
    | Finish(req: nat)
    | FinishShard(req: nat)
    | Published(req: nat)
    | Enqueue(req: nat)
    | Notify(req: nat)
    | Take(count: nat)
    | StoreBatch
    | AddBits
    | Forget
    | PersistFailed
    | Visit(keys: set<Key>)
    | Merge
    | Restart(found: map<Key, Content>)

  function Heard(notified: map<Token, nat>, t: Token): nat {
    if t in notified then notified[t] else 0
  }

  function TokenOf(s: State, r: nat): Token
    requires r in s.reqs
  {
    Token(r, s.reqs[r].attempt)
  }

  function GroupOf(s: State, r: nat, shard: nat): seq<nat>
    requires r in s.reqs
  {
    Group(s.place.shard, s.reqs[r].ops, shard, |s.reqs[r].ops|)
  }

  /** No request is inside its critical section on this dedup shard. */
  ghost predicate Unlocked(s: State, shard: nat) {
    forall r :: r in s.reqs && s.reqs[r].phase.Probed? ==> s.reqs[r].phase.shard != shard
  }

  predicate MayContain(place: Placement, index: Index, k: Key) {
    index.ready ==> place.bits(k) <= index.bloom
  }

  /** `get_many` at one instant. */
  predicate DiskSees(place: Placement, index: Index, k: Key) {
    MayContain(place, index, k) && k in index.stored
  }

  predicate Marked(q: Request, i: nat) {
    i < |q.ops| && i < |q.marks| && q.marks[i]
  }

  predicate MarkedKey(q: Request, k: Key) {
    exists i: nat :: i < |q.ops| && Marked(q, i) && q.ops[i].id == k
  }

  predicate MarkedIn(place: Placement, q: Request, shard: nat, k: Key) {
    place.shard(k) == shard && MarkedKey(q, k)
  }

  /** A shard without marked keys is passed over without taking its lock. */
  ghost predicate Touches(place: Placement, q: Request, shard: nat) {
    shard < DEDUP_SHARDS && exists k :: MarkedIn(place, q, shard, k)
  }

  predicate AnyMark(q: Request) { exists i: nat :: i < |q.ops| && Marked(q, i) }

  function Unmarked(n: nat): seq<bool> { seq(n, _ => false) }

  function SetReq(s: State, r: nat, q: Request): State { s.(reqs := s.reqs[r := q]) }

  function SetPhase(s: State, r: nat, phase: Phase): State
    requires r in s.reqs
  {
    SetReq(s, r, s.reqs[r].(phase := phase))
  }

  /** rollback_reservation under one shard lock: only entries holding this token go. */
  function Released(place: Placement, memory: Memory, q: Request, token: Token, shard: nat): Memory {
    map k | k in memory && !(MarkedIn(place, q, shard, k) && memory[k].Pending? && memory[k].token == token) :: memory[k]
  }

  /** finish_batch under one shard lock. */
  function Finished(place: Placement, memory: Memory, q: Request, shard: nat, committed: bool): Memory {
    if committed then
      map k | k in memory ::
        if MarkedIn(place, q, shard, k) && memory[k].Pending? then Committed(memory[k].content) else memory[k]
    else
      map k | k in memory && !MarkedIn(place, q, shard, k) :: memory[k]
  }

  function NewlyCommitted(place: Placement, memory: Memory, q: Request, shard: nat): map<Key, Content> {
    map k | k in memory && MarkedIn(place, q, shard, k) && memory[k].Pending? :: memory[k].content
  }

  function PairsOf(ops: seq<Operation>, marks: seq<bool>): Pairs
    requires |marks| == |ops|
  {
    if ops == [] then []
    else
      var m := |ops| - 1;
      PairsOf(ops[..m], marks[..m]) + if marks[m] then [(ops[m].id, Fingerprint(ops[m]))] else []
  }

  function StoredWith(stored: map<Key, Content>, batch: Pairs): map<Key, Content> {
    if batch == [] then stored
    else StoredWith(stored, batch[..|batch| - 1])[batch[|batch| - 1].0 := batch[|batch| - 1].1]
  }

  function BitsOf(place: Placement, keys: set<Key>): set<nat> {
    set k, b | k in keys && b in place.bits(k) :: b
  }

  function KeysOf(batch: Pairs): set<Key> { set i | 0 <= i < |batch| :: batch[i].0 }

  ghost predicate Enabled(s: State, step: Step) {
    match step
    case Begin(r, _) => r !in s.reqs
    case Probe(r) =>
      && r in s.reqs && s.reqs[r].phase.Preflight?
      && var sh := s.reqs[r].phase.shard;
         sh < DEDUP_SHARDS && GroupOf(s, r, sh) != [] ==> Unlocked(s, sh)
    case Reserve(r, seen) =>
      && r in s.reqs && s.reqs[r].phase.Probed? && |s.reqs[r].marks| == |s.reqs[r].ops|
      && s.reqs[r].phase.sure <= seen.Keys
      && (forall k :: k in seen ==> k in s.index.stored && seen[k] == s.index.stored[k])
    case Unreserve(r) =>
      && r in s.reqs && s.reqs[r].phase.RollingBack?
      && (Touches(s.place, s.reqs[r], s.reqs[r].phase.shard) ==> Unlocked(s, s.reqs[r].phase.shard))
    case Wake(r) => r in s.reqs && s.reqs[r].phase.Waiting? && Heard(s.notified, s.reqs[r].phase.token) > s.reqs[r].phase.heard
    case Abort(r) => r in s.reqs && s.reqs[r].phase.Reserved?
    case Commit(r) => r in s.reqs && s.reqs[r].phase.Reserved?
    case ApplyOne(r, i) => r in s.reqs && s.reqs[r].phase.Applying? && Marked(s.reqs[r], i) && i !in s.reqs[r].applied
    case Finish(r) =>
      && r in s.reqs && s.reqs[r].phase.Applying?
      && (forall i: nat :: i < |s.reqs[r].ops| && Marked(s.reqs[r], i) ==> i in s.reqs[r].applied)
    case FinishShard(r) =>
      && r in s.reqs && s.reqs[r].phase.Finishing?
      && (Touches(s.place, s.reqs[r], s.reqs[r].phase.shard) ==> Unlocked(s, s.reqs[r].phase.shard))
    case Published(r) => r in s.reqs && s.reqs[r].phase.Publishing?
    case Enqueue(r) => r in s.reqs && s.reqs[r].phase.Enqueuing? && |s.reqs[r].marks| == |s.reqs[r].ops|
    case Notify(r) => r in s.reqs && s.reqs[r].phase.Notifying?
    case Take(n) => s.worker.Idle? && 0 < n <= |s.queue|
    case StoreBatch => s.worker.Writing?
    case AddBits => s.worker.Adding?
    case Forget => s.worker.Removing? && (s.worker.batch != [] ==> Unlocked(s, s.place.shard(s.worker.batch[0].0)))
    case PersistFailed => s.worker.Writing?
    case Visit(keys) => !s.index.ready && keys <= s.index.stored.Keys
    case Merge => !s.index.ready && s.index.left == {}
    case Restart(_) => true
  }

  ghost function Apply(s: State, step: Step): State
    requires Enabled(s, step)
  {
    match step
    case Begin(r, ops) =>
      SetReq(s, r, Request(ops, 0, Unmarked(|ops|), if BatchAgrees(ops) then Preflight(0) else Rejected, {}))
    case Probe(r) => Probing(s, r)
    case Reserve(r, seen) => Reserving(s, r, seen)
    case Unreserve(r) => Unreserving(s, r)
    case Wake(r) =>
      SetReq(s, r, s.reqs[r].(attempt := s.reqs[r].attempt + 1, phase := Preflight(0)))
    case Abort(r) => SetPhase(s, r, Finishing(0, false))
    case Commit(r) => SetPhase(s, r, Applying)
    case ApplyOne(r, i) => SetReq(s, r, s.reqs[r].(applied := s.reqs[r].applied + {i}))
    case Finish(r) => SetPhase(s, r, Finishing(0, true))
    case FinishShard(r) => FinishingShard(s, r)
    case Published(r) => SetPhase(s, r, Enqueuing)
    case Enqueue(r) =>
      SetPhase(s, r, Notifying(true)).(queue := s.queue + PairsOf(s.reqs[r].ops, s.reqs[r].marks))
    case Notify(r) =>
      var t := TokenOf(s, r);
      var s1 := SetPhase(s, r, if s.reqs[r].phase.committed then Done else Aborted);
      if AnyMark(s.reqs[r]) then s1.(notified := s.notified[t := Heard(s.notified, t) + 1]) else s1
    case Take(n) => s.(worker := Writing(s.queue[..n]), queue := s.queue[n..])
    case StoreBatch =>
      s.(worker := Adding(s.worker.batch), index := s.index.(stored := StoredWith(s.index.stored, s.worker.batch)))
    case AddBits =>
      s.(worker := Removing(s.worker.batch),
         index := s.index.(bloom := s.index.bloom + BitsOf(s.place, KeysOf(s.worker.batch))))
    case Forget => Forgetting(s)
    case PersistFailed => s.(worker := Idle)
    case Visit(keys) =>
      s.(index := s.index.(image := s.index.image + BitsOf(s.place, keys), left := s.index.left - keys))
    case Merge => s.(index := s.index.(bloom := s.index.bloom + s.index.image, ready := true))
    case Restart(found) => Started(s.place, found)
  }

  /** A node that has just opened a disk index holding `found`. */
  function Started(place: Placement, found: map<Key, Content>): State {
    State(place, map[], Index(found, {}, false, {}, found.Keys), [], Idle, map[], map[], found)
  }

  ghost function Probing(s: State, r: nat): State
    requires Enabled(s, Probe(r))
  {
    var sh := s.reqs[r].phase.shard;
    if sh >= DEDUP_SHARDS then SetPhase(s, r, Reserved)
    else
      var group := GroupOf(s, r, sh);
      if group == [] then SetPhase(s, r, Preflight(sh + 1))
      else
        SetPhase(s, r, Probed(sh, set k | k in s.index.stored && DiskSees(s.place, s.index, k)))
  }

  ghost function Reserving(s: State, r: nat, seen: map<Key, Content>): State
    requires Enabled(s, Reserve(r, seen))
  {
    var q := s.reqs[r];
    var sh := q.phase.shard;
    var d := Decide(s.memory, seen, q.ops, GroupOf(s, r, sh), TokenOf(s, r), q.marks);
    var phase := match d.verdict {
      case Continue => Preflight(sh + 1)
      case Contradicted => RollingBack(0, Conflict)
      case MustWait(t) => RollingBack(0, WaitFor(t, Heard(s.notified, t)))
    };
    SetReq(s, r, q.(marks := d.marks, phase := phase)).(memory := d.memory)
  }

  ghost function Unreserving(s: State, r: nat): State
    requires Enabled(s, Unreserve(r))
  {
    var q := s.reqs[r];
    var sh, t := q.phase.shard, TokenOf(s, r);
    if sh < DEDUP_SHARDS then
      SetPhase(s, r, RollingBack(sh + 1, q.phase.why)).(memory := Released(s.place, s.memory, q, t, sh))
    else
      var phase := match q.phase.why { case Conflict => Rejected case WaitFor(w, heard) => Waiting(w, heard) };
      SetReq(s, r, q.(marks := Unmarked(|q.ops|), phase := phase)).(notified := s.notified[t := Heard(s.notified, t) + 1])
  }

  ghost function FinishingShard(s: State, r: nat): State
    requires Enabled(s, FinishShard(r))
  {
    var q := s.reqs[r];
    var sh, c := q.phase.shard, q.phase.committed;
    if sh < DEDUP_SHARDS then
      SetPhase(s, r, Finishing(sh + 1, c)).(
        memory := Finished(s.place, s.memory, q, sh, c),
        committed := if c then s.committed + NewlyCommitted(s.place, s.memory, q, sh) else s.committed)
    else SetPhase(s, r, if c then Publishing else Notifying(false))
  }

  ghost function Forgetting(s: State): State
    requires Enabled(s, Forget)
  {
    var batch := s.worker.batch;
    if batch == [] then s.(worker := Idle)
    else
      var (k, content) := batch[0];
      s.(worker := Removing(batch[1..]),
         memory := if k in s.memory && s.memory[k] == Committed(content) then s.memory - {k} else s.memory)
  }

  ghost predicate Next(s: State, step: Step, s': State) {
    Enabled(s, step) && s' == Apply(s, step)
  }

  // ----- The invariant -----

  /** Marked index `i` of the request still owns its memory entry. */
  predicate Holds(place: Placement, q: Request, i: nat) {
    && Marked(q, i)
    && match q.phase
       case Preflight(_) => true
       case Probed(_, _) => true
       case RollingBack(shard, _) => place.shard(q.ops[i].id) >= shard
       case Reserved => true
       case Applying => true
       case Finishing(shard, _) => place.shard(q.ops[i].id) >= shard
       case _ => false
  }

  predicate HoldsKey(place: Placement, q: Request, k: Key) {
    exists i: nat :: i < |q.ops| && Holds(place, q, i) && q.ops[i].id == k
  }

  /** Preflight has looked at first occurrence `i` and found no objection. */
  predicate Examined(place: Placement, q: Request, i: nat) {
    && i < |q.ops| && IsFirst(q.ops, i)
    && match q.phase
       case Preflight(shard) => place.shard(q.ops[i].id) < shard
       case Probed(shard, _) => place.shard(q.ops[i].id) < shard
       case Reserved => true
       case Applying => true
       case Finishing(_, committed) => committed
       case Publishing => true
       case Enqueuing => true
       case Notifying(committed) => committed
       case Done => true
       case _ => false
  }

  /** The commit loop has passed index `i`. */
  predicate Passed(place: Placement, q: Request, i: nat) {
    && i < |q.ops|
    && match q.phase
       case Finishing(shard, committed) => committed && place.shard(q.ops[i].id) < shard
       case Publishing => true
       case Enqueuing => true
       case Notifying(committed) => committed
       case Done => true
       case _ => false
  }

  predicate Settled(committed: map<Key, Content>, op: Operation) {
    op.id in committed && committed[op.id] == Fingerprint(op)
  }

  predicate BeyondReservation(phase: Phase) {
    || phase.Applying? || (phase.Finishing? && phase.committed) || phase.Publishing? || phase.Enqueuing?
    || (phase.Notifying? && phase.committed) || phase.Done?
  }

  predicate AllApplied(q: Request) {
    forall i: nat :: i < |q.ops| && Marked(q, i) ==> i in q.applied
  }

  predicate MarksBelow(place: Placement, q: Request, shard: nat) {
    forall i: nat :: i < |q.ops| && Marked(q, i) ==> place.shard(q.ops[i].id) < shard
  }

  predicate RequestOk(place: Placement, q: Request) {
    && |q.marks| == |q.ops|
    && (q.phase.Rejected? || BatchAgrees(q.ops))
    && (forall i: nat :: i < |q.ops| && Marked(q, i) ==> IsFirst(q.ops, i))
    && (forall i: nat :: i in q.applied ==> Marked(q, i))
    && (q.applied != {} ==> BeyondReservation(q.phase))
    && (BeyondReservation(q.phase) && !q.phase.Applying? ==> AllApplied(q))
    && (q.phase.Preflight? ==> q.phase.shard <= DEDUP_SHARDS && MarksBelow(place, q, q.phase.shard))
    && (q.phase.Probed? ==> q.phase.shard < DEDUP_SHARDS && MarksBelow(place, q, q.phase.shard))
    && (q.phase.RollingBack? ==> q.phase.shard <= DEDUP_SHARDS)
    && (q.phase.Finishing? ==> q.phase.shard <= DEDUP_SHARDS)
  }

  type Requests = map<nat, Request>

  ghost predicate RequestsOk(place: Placement, reqs: Requests) {
    forall r :: r in reqs ==> RequestOk(place, reqs[r])
  }

  ghost predicate HoldsEntry(memory: Memory, op: Operation, token: Token) {
    op.id in memory && memory[op.id] == Pending(Fingerprint(op), token)
  }

  ghost predicate EntryHeld(place: Placement, reqs: Requests, k: Key, token: Token) {
    token.req in reqs && reqs[token.req].attempt == token.attempt && HoldsKey(place, reqs[token.req], k)
  }

  /** Reservations and pending entries are the same thing. */
  ghost predicate Ownership(place: Placement, memory: Memory, reqs: Requests) {
    && (forall r, i: nat :: r in reqs && i < |reqs[r].ops| && Holds(place, reqs[r], i) ==>
          HoldsEntry(memory, reqs[r].ops[i], Token(r, reqs[r].attempt)))
    && (forall k :: k in memory && memory[k].Pending? ==> EntryHeld(place, reqs, k, memory[k].token))
  }

  /** Bloom filter plus rebuild will not hide a key that memory no longer shows. */
  predicate BloomSafe(place: Placement, index: Index, k: Key) {
    || place.bits(k) <= index.bloom
    || (!index.ready && (k in index.left || place.bits(k) <= index.bloom + index.image))
  }

  predicate InMemory(memory: Memory, k: Key) {
    k in memory && memory[k].Committed?
  }

  ghost predicate Visibility(place: Placement, memory: Memory, index: Index, committed: map<Key, Content>) {
    && (forall k :: k in memory ==> (k in committed <==> memory[k].Committed?))
    && (forall k :: k in memory && k in committed ==> memory[k].content == committed[k])
    && (forall k :: k in index.stored ==> k in committed && committed[k] == index.stored[k])
    && (forall k :: k in committed ==> InMemory(memory, k) || (k in index.stored && BloomSafe(place, index, k)))
  }

  ghost predicate PairsCommitted(committed: map<Key, Content>, pairs: Pairs) {
    forall j :: 0 <= j < |pairs| ==> pairs[j].0 in committed && committed[pairs[j].0] == pairs[j].1
  }

  ghost predicate Pipeline(place: Placement, index: Index, queue: Pairs, worker: Worker, committed: map<Key, Content>) {
    && PairsCommitted(committed, queue)
    && match worker
       case Idle => true
       case Writing(batch) => PairsCommitted(committed, batch)
       case Adding(batch) => forall j :: 0 <= j < |batch| ==> batch[j].0 in index.stored
       case Removing(batch) =>
         forall j :: 0 <= j < |batch| ==> batch[j].0 in index.stored && place.bits(batch[j].0) <= index.bloom
  }

  /** Request `q` holds the lock of the shard of `k`. */
  predicate Locks(place: Placement, q: Request, k: Key) {
    q.phase.Probed? && place.shard(k) == q.phase.shard
  }

  /** While a shard lock is held, a committed key of that shard that the holder is not
      sure to get from disk is in memory; and locks exclude each other. */
  ghost predicate Probes(place: Placement, memory: Memory, reqs: Requests, committed: map<Key, Content>) {
    && (forall r, k :: r in reqs && Locks(place, reqs[r], k) && k in committed ==>
          k in reqs[r].phase.sure || InMemory(memory, k))
    && (forall r1, r2 :: r1 in reqs && r2 in reqs && r1 != r2 && reqs[r1].phase.Probed? && reqs[r2].phase.Probed? ==>
          reqs[r1].phase.shard != reqs[r2].phase.shard)
  }

  ghost predicate Decisions(place: Placement, reqs: Requests, committed: map<Key, Content>) {
    forall r :: r in reqs ==> DecidedWell(place, reqs[r], committed)
  }

  ghost predicate DecidedWell(place: Placement, q: Request, committed: map<Key, Content>) {
    && (forall i: nat :: Examined(place, q, i) ==> Marked(q, i) || Settled(committed, q.ops[i]))
    && (forall i: nat :: Passed(place, q, i) && Marked(q, i) ==> Settled(committed, q.ops[i]))
  }

  /** The request's current attempt has still to call `notify_waiters`. */
  predicate WillNotify(q: Request) {
    AnyMark(q) && !q.phase.Waiting? && !q.phase.Rejected? && !q.phase.Done? && !q.phase.Aborted?
  }

  ghost predicate Answered(reqs: Requests, notified: map<Token, nat>, t: Token, heard: nat) {
    || heard < Heard(notified, t)
    || (heard == Heard(notified, t) && t.req in reqs && reqs[t.req].attempt == t.attempt && WillNotify(reqs[t.req]))
  }

  ghost predicate WaitsWell(reqs: Requests, notified: map<Token, nat>, r: nat)
    requires r in reqs
  {
    && (reqs[r].phase.Waiting? ==>
          Answered(reqs, notified, reqs[r].phase.token, reqs[r].phase.heard) && !AnyMark(reqs[r]))
    && (reqs[r].phase.RollingBack? && reqs[r].phase.why.WaitFor? ==>
          && reqs[r].phase.why.token.req != r
          && Answered(reqs, notified, reqs[r].phase.why.token, reqs[r].phase.why.heard))
  }

  ghost predicate WakeUps(reqs: Requests, notified: map<Token, nat>) {
    forall r :: r in reqs ==> WaitsWell(reqs, notified, r)
  }

  ghost predicate ShardsBounded(place: Placement) {
    forall k :: place.shard(k) < DEDUP_SHARDS
  }

  /** Promised answers stay available: the disk index never loses a key. */
  ghost predicate SureIsStored(reqs: Requests, stored: map<Key, Content>) {
    forall r :: r in reqs && reqs[r].phase.Probed? ==> reqs[r].phase.sure <= stored.Keys
  }

  ghost predicate Inv(s: State) {
    && ShardsBounded(s.place)
    && SureIsStored(s.reqs, s.index.stored)
    && RequestsOk(s.place, s.reqs)
    && Ownership(s.place, s.memory, s.reqs)
    && Visibility(s.place, s.memory, s.index, s.committed)
    && Pipeline(s.place, s.index, s.queue, s.worker, s.committed)
    && Probes(s.place, s.memory, s.reqs, s.committed)
    && Decisions(s.place, s.reqs, s.committed)
    && WakeUps(s.reqs, s.notified)
  }

  predicate Ended(phase: Phase) {
    phase.Rejected? || phase.Done? || phase.Aborted?
  }
}
