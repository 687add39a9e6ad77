/** Requests that name the ids of one dedup shard in different orders can make each other
    start over for ever (src/state.rs:178-258). */
module Livelock {
  import opened Model
  import opened Protocol
  import Q = ProtocolProof
  import R = Retries
  import C = CompactionRuns

  // ----- Walks in which only given requests begin -----

  type Cast = map<nat, seq<Operation>>

  predicate Plays(cast: Cast, step: Step) {
    !step.Restart? && (step.Begin? ==> step.req in cast && cast[step.req] == step.ops)
  }

  /** A run of the requests in `cast`. */
  ghost predicate CastRun(cast: Cast, place: Placement, steps: seq<Step>, states: seq<State>) {
    Q.IsRun(place, steps, states) && forall i :: 0 <= i < |steps| ==> Plays(cast, steps[i])
  }

  ghost predicate Reached(cast: Cast, place: Placement, end: State) {
    exists steps, states :: CastRun(cast, place, steps, states) && states[|steps|] == end
  }

  lemma StartIsReached(cast: Cast, place: Placement)
    requires ShardsBounded(place)
    ensures Reached(cast, place, Q.FirstStart(place))
  {
    assert CastRun(cast, place, [], [Q.FirstStart(place)]);
  }

  lemma Extends(cast: Cast, place: Placement, s: State, step: Step)
    requires Reached(cast, place, s) && Enabled(s, step) && Plays(cast, step)
    ensures Reached(cast, place, Apply(s, step))
  {
    hide Enabled, Apply, Q.FirstStart;
    var steps, states :| CastRun(cast, place, steps, states) && states[|steps|] == s;
    var steps', states' := steps + [step], states + [Apply(s, step)];
    assert CastRun(cast, place, steps', states');
    assert states'[|steps'|] == Apply(s, step);
  }

  // ----- One request whose ids all fall in one shard -----

  ghost predicate InShard(place: Placement, ops: seq<Operation>, shard: nat) {
    forall i :: 0 <= i < |ops| ==> place.shard(ops[i].id) == shard
  }

  lemma {:induction false} NoGroup(place: Placement, ops: seq<Operation>, home: nat, shard: nat, n: nat)
    requires InShard(place, ops, home) && shard != home && n <= |ops|
    ensures Group(place.shard, ops, shard, n) == []
  {
    if n > 0 { NoGroup(place, ops, home, shard, n - 1); }
  }

  lemma SetPhaseTwice(s: State, r: nat, a: Phase, b: Phase)
    requires r in s.reqs
    ensures SetPhase(SetPhase(s, r, a), r, b) == SetPhase(s, r, b)
    ensures s.reqs[r].phase == a ==> SetPhase(s, r, a) == s
  {
    var q := s.reqs[r];
    assert s.reqs[r := q.(phase := a)][r := q.(phase := b)] == s.reqs[r := q.(phase := b)];
    assert s.reqs[r := q] == s.reqs;
  }

  lemma PassesShard(s: State, r: nat, home: nat)
    requires r in s.reqs && InShard(s.place, s.reqs[r].ops, home)
    requires s.reqs[r].phase.Preflight? && s.reqs[r].phase.shard < DEDUP_SHARDS && s.reqs[r].phase.shard != home
    ensures Enabled(s, Probe(r)) && Apply(s, Probe(r)) == SetPhase(s, r, Preflight(s.reqs[r].phase.shard + 1))
  {
    hide Group, Unlocked, DiskSees;
    NoGroup(s.place, s.reqs[r].ops, home, s.reqs[r].phase.shard, |s.reqs[r].ops|);
  }

  lemma {:induction false} PassesShards(cast: Cast, place: Placement, s: State, r: nat, home: nat, from: nat, to: nat)
    requires Reached(cast, place, s) && r in s.reqs && InShard(s.place, s.reqs[r].ops, home)
    requires s.reqs[r].phase == Preflight(from) && from <= to <= DEDUP_SHARDS
    requires !(from <= home < to)
    ensures Reached(cast, place, SetPhase(s, r, Preflight(to)))
    decreases DEDUP_SHARDS - from
  {
    hide Reached, Enabled, Apply, InShard;
    var next := Preflight(from + 1);
    if from == to {
      SetPhaseTwice(s, r, Preflight(to), Preflight(to));
    } else {
      PassesShard(s, r, home);
      Extends(cast, place, s, Probe(r));
      PassesShards(cast, place, SetPhase(s, r, next), r, home, from + 1, to);
      SetPhaseTwice(s, r, next, Preflight(to));
    }
  }

  lemma NoMarkElsewhere(place: Placement, q: Request, home: nat, shard: nat)
    requires InShard(place, q.ops, home) && shard != home
    ensures forall k :: !MarkedIn(place, q, shard, k)
  {
  }

  function At(phase: Phase, shard: nat): Phase {
    match phase
    case RollingBack(_, why) => RollingBack(shard, why)
    case Finishing(_, committed) => Finishing(shard, committed)
    case _ => phase
  }

  /** A shard without the request's ids is left alone on the way out. */
  lemma LeavesShard(s: State, r: nat, home: nat)
    requires r in s.reqs && InShard(s.place, s.reqs[r].ops, home)
    requires s.reqs[r].phase.RollingBack? || (s.reqs[r].phase.Finishing? && !s.reqs[r].phase.committed)
    requires s.reqs[r].phase.shard < DEDUP_SHARDS && s.reqs[r].phase.shard != home
    ensures var q := s.reqs[r];
            var step := if q.phase.RollingBack? then Unreserve(r) else FinishShard(r);
            Enabled(s, step) && Apply(s, step) == SetPhase(s, r, At(q.phase, q.phase.shard + 1))
  {
    hide MarkedIn;
    var q := s.reqs[r];
    NoMarkElsewhere(s.place, q, home, q.phase.shard);
    assert Released(s.place, s.memory, q, TokenOf(s, r), q.phase.shard) == s.memory;
    assert Finished(s.place, s.memory, q, q.phase.shard, false) == s.memory;
  }

  lemma {:induction false} LeavesShards(cast: Cast, place: Placement, s: State, r: nat, home: nat, from: nat, to: nat)
    requires Reached(cast, place, s) && r in s.reqs && InShard(s.place, s.reqs[r].ops, home)
    requires s.reqs[r].phase.RollingBack? || (s.reqs[r].phase.Finishing? && !s.reqs[r].phase.committed)
    requires s.reqs[r].phase.shard == from && from <= to <= DEDUP_SHARDS && !(from <= home < to)
    ensures Reached(cast, place, SetPhase(s, r, At(s.reqs[r].phase, to)))
    decreases DEDUP_SHARDS - from
  {
    hide Reached, Enabled, Apply, InShard;
    var phase := s.reqs[r].phase;
    var next := At(phase, from + 1);
    if from == to {
      SetPhaseTwice(s, r, phase, phase);
    } else {
      LeavesShard(s, r, home);
      Extends(cast, place, s, if phase.RollingBack? then Unreserve(r) else FinishShard(r));
      LeavesShards(cast, place, SetPhase(s, r, next), r, home, from + 1, to);
      SetPhaseTwice(s, r, next, At(phase, to));
    }
  }

  // ----- A request [x, y] that meets a reservation of y -----

  function Pair(x: Operation, y: Operation, attempt: nat, first: bool, phase: Phase): Request {
    Request([x, y], attempt, [first, false], phase, {})
  }

  lemma BothAreFirst(x: Operation, y: Operation)
    requires x.id != y.id
    ensures IsFirst([x, y], 0) && IsFirst([x, y], 1)
  {
  }

  lemma GroupGrows(shardOf: Key -> nat, ops: seq<Operation>, shard: nat, n: nat)
    requires n < |ops| && IsFirst(ops, n) && shardOf(ops[n].id) == shard
    ensures Group(shardOf, ops, shard, n + 1) == Group(shardOf, ops, shard, n) + [n]
  {
  }

  lemma GroupOfTwo(shardOf: Key -> nat, x: Operation, y: Operation)
    requires x.id != y.id && shardOf(x.id) == shardOf(y.id)
    ensures Group(shardOf, [x, y], shardOf(x.id), 2) == [0, 1]
  {
    var shard := shardOf(x.id);
    assert Group(shardOf, [x, y], shard, 0) == [];
    hide Group, IsFirst;
    BothAreFirst(x, y);
    GroupGrows(shardOf, [x, y], shard, 0);
    GroupGrows(shardOf, [x, y], shard, 1);
  }

  lemma TakesFirst(memory: Memory, x: Operation, y: Operation, token: Token, holder: Token)
    requires x.id !in memory && y.id in memory && memory[y.id] == Pending(Fingerprint(y), holder)
    ensures Decide(memory, map[], [x, y], [0, 1], token, [false, false])
            == Decision(memory[x.id := Pending(Fingerprint(x), token)], [true, false], MustWait(holder))
  {
    var memory' := memory[x.id := Pending(Fingerprint(x), token)];
    assert [0, 1][1..] == [1] && [false, false][0 := true] == [true, false];
    assert Decide(memory', map[], [x, y], [1], token, [true, false]) == Decision(memory', [true, false], MustWait(holder));
  }

  ghost predicate NobodyLocks(s: State) { forall r :: r in s.reqs ==> !s.reqs[r].phase.Probed? }

  lemma LooksAt(s: State, r: nat, x: Operation, y: Operation)
    requires r in s.reqs && s.reqs[r] == Pair(x, y, s.reqs[r].attempt, false, Preflight(s.place.shard(x.id)))
    requires x.id != y.id && s.place.shard(x.id) == s.place.shard(y.id) < DEDUP_SHARDS
    requires s.index.stored == map[] && NobodyLocks(s)
    ensures Enabled(s, Probe(r)) && Apply(s, Probe(r)) == SetPhase(s, r, Probed(s.place.shard(x.id), {}))
  {
    hide Group, DiskSees;
    GroupOfTwo(s.place.shard, x, y);
    assert (set k | k in s.index.stored && DiskSees(s.place, s.index, k)) == {};
  }

  lemma MeetsIt(s: State, r: nat, x: Operation, y: Operation)
    requires r in s.reqs && s.reqs[r] == Pair(x, y, s.reqs[r].attempt, false, Probed(s.place.shard(x.id), {}))
    requires x.id != y.id && s.place.shard(x.id) == s.place.shard(y.id)
    requires x.id !in s.memory && y.id in s.memory && s.memory[y.id].Pending? && s.memory[y.id].content == Fingerprint(y)
    ensures Enabled(s, Reserve(r, map[]))
    ensures var t := s.memory[y.id].token;
            Apply(s, Reserve(r, map[]))
            == SetReq(s, r, Pair(x, y, s.reqs[r].attempt, true, RollingBack(0, WaitFor(t, Heard(s.notified, t)))))
               .(memory := s.memory[x.id := Pending(Fingerprint(x), TokenOf(s, r))])
  {
    hide Group, Decide;
    GroupOfTwo(s.place.shard, x, y);
    TakesFirst(s.memory, x, y, TokenOf(s, r), s.memory[y.id].token);
  }

  /** From the start of an attempt to its rollback, in one go. */
  lemma Meets(cast: Cast, place: Placement, s: State, r: nat, x: Operation, y: Operation)
    requires Reached(cast, place, s) && ShardsBounded(s.place)
    requires r in s.reqs && s.reqs[r] == Pair(x, y, s.reqs[r].attempt, false, Preflight(0))
    requires x.id != y.id && s.place.shard(x.id) == s.place.shard(y.id)
    requires s.index.stored == map[] && NobodyLocks(s)
    requires x.id !in s.memory && y.id in s.memory && s.memory[y.id].Pending? && s.memory[y.id].content == Fingerprint(y)
    ensures var t := s.memory[y.id].token;
            Reached(cast, place, SetReq(s, r, Pair(x, y, s.reqs[r].attempt, true, RollingBack(0, WaitFor(t, Heard(s.notified, t)))))
                                 .(memory := s.memory[x.id := Pending(Fingerprint(x), TokenOf(s, r))]))
  {
    hide Reached, Enabled, Apply;
    var home := s.place.shard(x.id);
    PassesShards(cast, place, s, r, home, 0, home);
    var s1 := SetPhase(s, r, Preflight(home));
    LooksAt(s1, r, x, y);
    Extends(cast, place, s1, Probe(r));
    SetPhaseTwice(s, r, Preflight(home), Probed(home, {}));
    var s2 := SetPhase(s, r, Probed(home, {}));
    MeetsIt(s2, r, x, y);
    Extends(cast, place, s2, Reserve(r, map[]));
    var why := WaitFor(s.memory[y.id].token, Heard(s.notified, s.memory[y.id].token));
    SetReqTwice(s, r, s2.reqs[r], Pair(x, y, s.reqs[r].attempt, true, RollingBack(0, why)));
  }

  lemma SetReqTwice(s: State, r: nat, a: Request, b: Request)
    ensures SetReq(SetReq(s, r, a), r, b) == SetReq(s, r, b)
  {
    assert s.reqs[r := a][r := b] == s.reqs[r := b];
  }

  // ----- The first request backs out -----

  /** What remains after the 64 shards: the phase, and no entry for x. */
  function GaveUp(s: State, r: nat, x: Operation): State
    requires r in s.reqs
  {
    SetPhase(s, r, At(s.reqs[r].phase, DEDUP_SHARDS)).(memory := s.memory - {x.id})
  }

  lemma GivesUp(cast: Cast, place: Placement, s: State, r: nat, x: Operation, y: Operation)
    requires Reached(cast, place, s) && ShardsBounded(s.place) && NobodyLocks(s)
    requires r in s.reqs && s.reqs[r].phase.RollingBack?
    requires s.reqs[r] == Pair(x, y, s.reqs[r].attempt, true, RollingBack(0, s.reqs[r].phase.why))
    requires s.place.shard(x.id) == s.place.shard(y.id) && x.id != y.id
    requires x.id in s.memory && s.memory[x.id] == Pending(Fingerprint(x), TokenOf(s, r))
    ensures Reached(cast, place, GaveUp(s, r, x))
  {
    hide Reached, Enabled, Apply;
    var home := s.place.shard(x.id);
    var phase := s.reqs[r].phase;
    LeavesShards(cast, place, s, r, home, 0, home);
    var s1 := SetPhase(s, r, At(phase, home));
    LetsGo(s1, r, x, y);
    Extends(cast, place, s1, Unreserve(r));
    FreedTwice(s, r, x, At(phase, home), At(phase, home + 1));
    var s2 := SetPhase(s, r, At(phase, home + 1)).(memory := s.memory - {x.id});
    LeavesShards(cast, place, s2, r, home, home + 1, DEDUP_SHARDS);
    FreedTwice(s, r, x, At(phase, home + 1), At(phase, DEDUP_SHARDS));
  }

  lemma FreedTwice(s: State, r: nat, x: Operation, a: Phase, b: Phase)
    requires r in s.reqs
    ensures SetPhase(SetPhase(s, r, a), r, b).(memory := s.memory - {x.id}) == SetPhase(s, r, b).(memory := s.memory - {x.id})
    ensures SetPhase(SetPhase(s, r, a).(memory := s.memory - {x.id}), r, b) == SetPhase(s, r, b).(memory := s.memory - {x.id})
  {
    SetPhaseTwice(s, r, a, b);
  }

  /** A request that has rolled back its shard notifies, waits, and is woken at once if the
      attempt it waits for is over. */
  lemma BacksOut(cast: Cast, place: Placement, s: State, r: nat, x: Operation, y: Operation)
    requires Reached(cast, place, s) && ShardsBounded(s.place) && NobodyLocks(s)
    requires r in s.reqs && s.reqs[r].phase.RollingBack? && s.reqs[r].phase.why.WaitFor?
    requires s.reqs[r] == Pair(x, y, s.reqs[r].attempt, true, RollingBack(0, s.reqs[r].phase.why))
    requires s.place.shard(x.id) == s.place.shard(y.id) && x.id != y.id
    requires Heard(s.notified, s.reqs[r].phase.why.token) > s.reqs[r].phase.why.heard
    requires x.id in s.memory && s.memory[x.id] == Pending(Fingerprint(x), TokenOf(s, r))
    ensures Reached(cast, place, Retrying(s, r, x, y))
  {
    hide Reached, Enabled, Apply;
    GivesUp(cast, place, s, r, x, y);
    var s3 := GaveUp(s, r, x);
    Waits(s3, r, x, y);
    Extends(cast, place, s3, Unreserve(r));
    Extends(cast, place, Apply(s3, Unreserve(r)), Wake(r));
    SetReqTwice(s, r, s3.reqs[r], Pair(x, y, s.reqs[r].attempt + 1, false, Preflight(0)));
  }

  ghost function Retrying(s: State, r: nat, x: Operation, y: Operation): State
    requires r in s.reqs
  {
    SetReq(s, r, Pair(x, y, s.reqs[r].attempt + 1, false, Preflight(0))).(
      memory := s.memory - {x.id},
      notified := s.notified[TokenOf(s, r) := Heard(s.notified, TokenOf(s, r)) + 1])
  }

  lemma LetsGo(s: State, r: nat, x: Operation, y: Operation)
    requires NobodyLocks(s) && r in s.reqs && s.reqs[r].phase.RollingBack?
    requires s.reqs[r] == Pair(x, y, s.reqs[r].attempt, true, RollingBack(s.place.shard(x.id), s.reqs[r].phase.why))
    requires s.place.shard(x.id) < DEDUP_SHARDS && x.id != y.id
    requires x.id in s.memory && s.memory[x.id] == Pending(Fingerprint(x), TokenOf(s, r))
    ensures Enabled(s, Unreserve(r))
    ensures Apply(s, Unreserve(r)) == SetPhase(s, r, At(s.reqs[r].phase, s.place.shard(x.id) + 1)).(memory := s.memory - {x.id})
  {
    var q, home := s.reqs[r], s.place.shard(x.id);
    assert Marked(q, 0) && !Marked(q, 1);
    assert forall k :: MarkedIn(s.place, q, home, k) <==> k == x.id;
    assert Released(s.place, s.memory, q, TokenOf(s, r), home) == s.memory - {x.id};
  }

  lemma Waits(s: State, r: nat, x: Operation, y: Operation)
    requires r in s.reqs && s.reqs[r].phase.RollingBack? && s.reqs[r].phase.why.WaitFor?
    requires s.reqs[r] == Pair(x, y, s.reqs[r].attempt, true, RollingBack(DEDUP_SHARDS, s.reqs[r].phase.why))
    requires Heard(s.notified, s.reqs[r].phase.why.token) > s.reqs[r].phase.why.heard
    ensures Enabled(s, Unreserve(r)) && Enabled(Apply(s, Unreserve(r)), Wake(r))
    ensures Apply(Apply(s, Unreserve(r)), Wake(r))
            == SetReq(s, r, Pair(x, y, s.reqs[r].attempt + 1, false, Preflight(0)))
               .(notified := s.notified[TokenOf(s, r) := Heard(s.notified, TokenOf(s, r)) + 1])
  {
    hide Unlocked;
    var s' := Apply(s, Unreserve(r));
    assert Unmarked(2) == [false, false];
    SetReqTwice(s, r, s'.reqs[r], Pair(x, y, s.reqs[r].attempt + 1, false, Preflight(0)));
  }

  // ----- Two requests at cross purposes -----

  /** Request `p` starts over to reserve [x, y] while `o`, which asked for [y, x], still
      backs out and holds y; whatever `o` waits for is over. */
  ghost predicate Crossed(s: State, p: nat, o: nat, x: Operation, y: Operation) {
    && ShardsBounded(s.place) && s.place.shard(x.id) == s.place.shard(y.id) && x.id != y.id
    && p != o && p in s.reqs && o in s.reqs && NobodyLocks(s) && s.index.stored == map[]
    && s.reqs[p] == Pair(x, y, s.reqs[p].attempt, false, Preflight(0))
    && s.reqs[o].phase.RollingBack? && s.reqs[o].phase.why.WaitFor?
    && s.reqs[o] == Pair(y, x, s.reqs[o].attempt, true, RollingBack(0, s.reqs[o].phase.why))
    && Heard(s.notified, s.reqs[o].phase.why.token) > s.reqs[o].phase.why.heard
    && s.memory == map[y.id := Pending(Fingerprint(y), TokenOf(s, o))]
  }

  /** Both do what they can: `p` reserves x, meets y and backs out, `o` gives up y and
      starts over. They have changed places. */
  lemma ChangePlaces(cast: Cast, place: Placement, s: State, p: nat, o: nat, x: Operation, y: Operation) returns (s': State)
    requires Reached(cast, place, s) && Crossed(s, p, o, x, y)
    ensures Reached(cast, place, s') && Crossed(s', o, p, y, x)
    ensures s'.reqs[p].attempt == s.reqs[p].attempt && s'.reqs[o].attempt == s.reqs[o].attempt + 1
  {
    hide Reached;
    Meets(cast, place, s, p, x, y);
    var t := s.memory[y.id].token;
    var s1 := SetReq(s, p, Pair(x, y, s.reqs[p].attempt, true, RollingBack(0, WaitFor(t, Heard(s.notified, t)))))
              .(memory := s.memory[x.id := Pending(Fingerprint(x), TokenOf(s, p))]);
    BacksOut(cast, place, s1, o, y, x);
    s' := Retrying(s1, o, y, x);
    assert s'.memory == map[x.id := Pending(Fingerprint(x), TokenOf(s', p))];
  }

  lemma {:induction false} Rounds(cast: Cast, place: Placement, s: State, p: nat, o: nat, x: Operation, y: Operation, n: nat)
    returns (s': State)
    requires Reached(cast, place, s) && Crossed(s, p, o, x, y)
    ensures Reached(cast, place, s') && Crossed(s', p, o, x, y)
    ensures s'.reqs[p].attempt == s.reqs[p].attempt + n && s'.reqs[o].attempt == s.reqs[o].attempt + n
    decreases n
  {
    hide Reached, Crossed;
    s' := s;
    if n > 0 {
      var s1 := ChangePlaces(cast, place, s, p, o, x, y);
      var s2 := ChangePlaces(cast, place, s1, o, p, y, x);
      assert p in s2.reqs && o in s2.reqs by { CrossedBoth(s2, p, o, x, y); }
      s' := Rounds(cast, place, s2, p, o, x, y, n - 1);
    }
  }

  lemma CrossedBoth(s: State, p: nat, o: nat, x: Operation, y: Operation)
    requires Crossed(s, p, o, x, y)
    ensures p in s.reqs && o in s.reqs
  {
  }

  // ----- How they get there -----

  /** The requests [u, v] and [v, u], and a third one for u alone. */
  function CrossCast(u: Operation, v: Operation): Cast { map[1 := [u, v], 2 := [v, u], 3 := [u]] }

  /** The third request has reserved u. */
  lemma FirstReserves(cast: Cast, place: Placement, u: Operation)
    requires ShardsBounded(place) && 3 in cast && cast[3] == [u]
    ensures Reached(cast, place, C.Reserved(Q.FirstStart(place), 3, u))
  {
    hide Reached, Enabled, Apply;
    var s, home := Q.FirstStart(place), place.shard(u.id);
    StartIsReached(cast, place);
    C.BeginAlone(s, 3, u);
    Extends(cast, place, s, Begin(3, [u]));
    var q0, q1, q2 := C.Alone(u, false, Preflight(0), {}), C.Alone(u, false, Preflight(home), {}), C.Alone(u, false, Probed(home, {}), {});
    var q3, q4 := C.Alone(u, true, Preflight(home + 1), {}), C.Alone(u, true, Preflight(DEDUP_SHARDS), {});
    var q5 := C.Alone(u, true, Reserved, {});
    PassesShards(cast, place, C.With(s, 3, q0), 3, home, 0, home);
    C.WithTwice(s, 3, q0, q1);
    assert SetPhase(C.With(s, 3, q0), 3, Preflight(home)) == C.With(s, 3, q1);
    C.ProbeHere(C.With(s, 3, q1), 3, u, home);
    assert C.Sure(C.With(s, 3, q1)) == {};
    Extends(cast, place, C.With(s, 3, q1), Probe(3));
    C.WithTwice(s, 3, q1, q2);
    C.ReserveHere(C.With(s, 3, q2), 3, u, home, {}, map[]);
    Extends(cast, place, C.With(s, 3, q2), Reserve(3, map[]));
    C.PendedWith(s, 3, u, q2, q3);
    var p := C.Pended(s, 3, u);
    PassesShards(cast, place, C.With(p, 3, q3), 3, home, home + 1, DEDUP_SHARDS);
    C.WithTwice(p, 3, q3, q4);
    C.ProbeLast(C.With(p, 3, q4), 3, u);
    Extends(cast, place, C.With(p, 3, q4), Probe(3));
    C.WithTwice(p, 3, q4, q5);
  }

  /** A reserved request whose replication fails gives its id back. */
  lemma FirstFails(cast: Cast, place: Placement, s: State, u: Operation)
    requires Reached(cast, place, s) && NobodyLocks(s) && ShardsBounded(s.place)
    requires 3 in s.reqs && s.reqs[3] == C.Alone(u, true, Phase.Reserved, {})
    ensures Reached(cast, place, SetPhase(s, 3, Finishing(s.place.shard(u.id) + 1, false)).(memory := s.memory - {u.id}))
  {
    hide Reached, Enabled, Apply;
    var home := s.place.shard(u.id);
    Fails(s, u);
    Extends(cast, place, s, Abort(3));
    LeavesShards(cast, place, SetPhase(s, 3, Finishing(0, false)), 3, home, 0, home);
    SetPhaseTwice(s, 3, Finishing(0, false), Finishing(home, false));
    var s1 := SetPhase(s, 3, Finishing(home, false));
    GivesBack(s1, u);
    Extends(cast, place, s1, FinishShard(3));
    FreedTwice(s, 3, u, Finishing(home, false), Finishing(home + 1, false));
  }

  function Failed(s: State, u: Operation): State
    requires 3 in s.reqs
  {
    SetPhase(s, 3, Aborted).(memory := s.memory - {u.id}, notified := s.notified[Token(3, 0) := Heard(s.notified, Token(3, 0)) + 1])
  }

  /** Then it notifies. */
  lemma FirstEnds(cast: Cast, place: Placement, s: State, u: Operation)
    requires Reached(cast, place, s) && NobodyLocks(s) && ShardsBounded(s.place)
    requires 3 in s.reqs && s.reqs[3] == C.Alone(u, true, Phase.Reserved, {})
    ensures Reached(cast, place, Failed(s, u))
  {
    hide Reached, Enabled, Apply;
    var home := s.place.shard(u.id);
    FirstFails(cast, place, s, u);
    var s2 := SetPhase(s, 3, Finishing(home + 1, false)).(memory := s.memory - {u.id});
    LeavesShards(cast, place, s2, 3, home, home + 1, DEDUP_SHARDS);
    FreedTwice(s, 3, u, Finishing(home + 1, false), Finishing(DEDUP_SHARDS, false));
    var s3 := SetPhase(s, 3, Finishing(DEDUP_SHARDS, false)).(memory := s.memory - {u.id});
    Notifies(s3, u);
    Extends(cast, place, s3, FinishShard(3));
    Extends(cast, place, Apply(s3, FinishShard(3)), Notify(3));
    FreedTwice(s, 3, u, Finishing(DEDUP_SHARDS, false), Aborted);
  }

  lemma Fails(s: State, u: Operation)
    requires 3 in s.reqs && s.reqs[3] == C.Alone(u, true, Phase.Reserved, {})
    ensures Enabled(s, Abort(3)) && Apply(s, Abort(3)) == SetPhase(s, 3, Finishing(0, false))
  {
  }

  lemma GivesBack(s: State, u: Operation)
    requires NobodyLocks(s) && 3 in s.reqs && s.place.shard(u.id) < DEDUP_SHARDS
    requires s.reqs[3] == C.Alone(u, true, Finishing(s.place.shard(u.id), false), {})
    ensures Enabled(s, FinishShard(3))
    ensures Apply(s, FinishShard(3)) == SetPhase(s, 3, Finishing(s.place.shard(u.id) + 1, false)).(memory := s.memory - {u.id})
  {
    var q, home := s.reqs[3], s.place.shard(u.id);
    assert Marked(q, 0);
    assert forall k :: MarkedIn(s.place, q, home, k) <==> k == u.id;
    assert Finished(s.place, s.memory, q, home, false) == s.memory - {u.id};
  }

  lemma Notifies(s: State, u: Operation)
    requires 3 in s.reqs && s.reqs[3] == C.Alone(u, true, Finishing(DEDUP_SHARDS, false), {})
    ensures Enabled(s, FinishShard(3)) && Enabled(Apply(s, FinishShard(3)), Notify(3))
    ensures Apply(Apply(s, FinishShard(3)), Notify(3))
            == SetPhase(s, 3, Aborted).(notified := s.notified[Token(3, 0) := Heard(s.notified, Token(3, 0)) + 1])
  {
    hide Unlocked;
    var s' := Apply(s, FinishShard(3));
    assert Marked(s'.reqs[3], 0);
    SetPhaseTwice(s, 3, Notifying(false), Aborted);
  }

  lemma Comes(s: State, r: nat, x: Operation, y: Operation)
    requires r !in s.reqs && x.id != y.id
    ensures Enabled(s, Begin(r, [x, y])) && Apply(s, Begin(r, [x, y])) == SetReq(s, r, Pair(x, y, 0, false, Preflight(0)))
  {
    assert BatchAgrees([x, y]);
    assert Unmarked(2) == [false, false];
  }

  /** While u is reserved by a request that is about to fail, [v, u] reserves v and meets
      u; then [u, v] arrives. */
  lemma GetsCrossed(place: Placement, u: Operation, v: Operation) returns (s: State)
    requires ShardsBounded(place) && place.shard(u.id) == place.shard(v.id) && u.id != v.id
    ensures Reached(CrossCast(u, v), place, s) && Crossed(s, 1, 2, u, v)
  {
    hide Reached, Enabled, Apply;
    var cast := CrossCast(u, v);
    FirstReserves(cast, place, u);
    var s1 := C.Reserved(Q.FirstStart(place), 3, u);
    Comes(s1, 2, v, u);
    Extends(cast, place, s1, Begin(2, [v, u]));
    var s2 := SetReq(s1, 2, Pair(v, u, 0, false, Preflight(0)));
    Meets(cast, place, s2, 2, v, u);
    var s3 := SetReq(s2, 2, Pair(v, u, 0, true, RollingBack(0, WaitFor(Token(3, 0), 0))))
              .(memory := s2.memory[v.id := Pending(Fingerprint(v), Token(2, 0))]);
    FirstEnds(cast, place, s3, u);
    var s4 := Failed(s3, u);
    Comes(s4, 1, u, v);
    Extends(cast, place, s4, Begin(1, [u, v]));
    s := SetReq(s4, 1, Pair(u, v, 0, false, Preflight(0)));
    assert s.memory == map[v.id := Pending(Fingerprint(v), Token(2, 0))];
  }

  // ----- When they get out of it -----

  /** Both requests have started over `n` times and more, and neither has an answer. */
  ghost predicate StillTrying(s: State, n: nat) {
    && 1 in s.reqs && 2 in s.reqs && s.reqs[1].attempt >= n && s.reqs[2].attempt >= n
    && !Ended(s.reqs[1].phase) && !Ended(s.reqs[2].phase)
  }

  ghost predicate CanRetry(place: Placement, u: Operation, v: Operation, n: nat) {
    exists s :: Reached(CrossCast(u, v), place, s) && StillTrying(s, n)
  }

  ghost predicate CanRetryForEver(place: Placement, u: Operation, v: Operation) {
    forall n: nat :: CanRetry(place, u, v, n)
  }

  lemma SameShardRetriesForEver(place: Placement, u: Operation, v: Operation, n: nat)
    requires ShardsBounded(place) && place.shard(u.id) == place.shard(v.id) && u.id != v.id
    ensures CanRetry(place, u, v, n)
  {
    hide Reached;
    var s0 := GetsCrossed(place, u, v);
    var s := Rounds(CrossCast(u, v), place, s0, 1, 2, u, v, n);
    assert StillTrying(s, n);
  }

  function ByShard(place: Placement, u: Operation, v: Operation): R.Rank {
    k => if (k == u.id) == (place.shard(u.id) < place.shard(v.id)) then 0 else 1
  }

  lemma PairIsOrdered(place: Placement, u: Operation, v: Operation)
    requires place.shard(u.id) != place.shard(v.id)
    ensures R.Ordered(place, ByShard(place, u, v), 2, [u, v]) && R.Ordered(place, ByShard(place, u, v), 2, [v, u])
    ensures R.Ordered(place, ByShard(place, u, v), 2, [u])
  {
  }

  lemma CastIsOrdered(place: Placement, u: Operation, v: Operation, steps: seq<Step>)
    requires place.shard(u.id) != place.shard(v.id)
    requires forall i :: 0 <= i < |steps| ==> Plays(CrossCast(u, v), steps[i])
    ensures R.InOrder(place, ByShard(place, u, v), 2, steps)
  {
    hide R.Ordered;
    PairIsOrdered(place, u, v);
  }

  lemma {:induction false} CastOnly(cast: Cast, place: Placement, steps: seq<Step>, states: seq<State>, n: nat)
    requires CastRun(cast, place, steps, states) && n < |states|
    ensures states[n].reqs.Keys <= cast.Keys
  {
    hide Inv, Enabled, Apply;
    if n > 0 {
      CastOnly(cast, place, steps, states, n - 1);
      Q.RunsAreGood(place, steps, states, n - 1);
      assert Next(states[n - 1], steps[n - 1], states[n]) && Plays(cast, steps[n - 1]);
      StepAddsOnly(states[n - 1], steps[n - 1]);
    }
  }

  lemma StepAddsOnly(s: State, step: Step)
    requires Inv(s) && Enabled(s, step) && !step.Restart?
    ensures Apply(s, step).reqs.Keys <= s.reqs.Keys + if step.Begin? then {step.req} else {}
  {
    hide Inv, Enabled, Apply;
    if step.Begin? {
      BeginAdds(s, step.req, step.ops);
    } else if R.WorkerStep(step) {
      R.WorkerLeavesRequests(s, step);
    } else {
      R.MoveKeepsRequests(s, step, step.req);
    }
  }

  lemma BeginAdds(s: State, r: nat, ops: seq<Operation>)
    requires Enabled(s, Begin(r, ops))
    ensures Apply(s, Begin(r, ops)).reqs.Keys == s.reqs.Keys + {r}
  {
    hide BatchAgrees;
  }

  /** With the ids in different shards, 45 retries are the most all three can make. */
  lemma OtherShardsEnd(place: Placement, u: Operation, v: Operation, s: State)
    requires place.shard(u.id) != place.shard(v.id) && Reached(CrossCast(u, v), place, s)
    ensures !StillTrying(s, 46)
  {
    hide Inv, R.Retried, R.InOrder;
    var cast := CrossCast(u, v);
    var steps, states :| CastRun(cast, place, steps, states) && states[|steps|] == s;
    CastIsOrdered(place, u, v, steps);
    R.RetriesAreBounded(place, ByShard(place, u, v), 2, steps, states, |steps|);
    CastOnly(cast, place, steps, states, |steps|);
    R.SubsetCount(s.reqs.Keys, cast.Keys);
    assert |s.reqs| == |s.reqs.Keys| && cast.Keys == {1, 2, 3};
    SmallBounds(|s.reqs|);
    if 1 in s.reqs { R.RetriedCount(s.reqs, 1); }
  }

  lemma SmallBounds(n: nat)
    requires n <= 3
    ensures R.MostRetries(n, 2) <= 45
  {
    assert R.Power(n + 1, 2) == (n + 1) * R.Power(n + 1, 1) && R.Power(n + 1, 1) == (n + 1) * R.Power(n + 1, 0);
  }

  /** Two requests for the same two ids in opposite orders can keep each other retrying
      without end exactly if the ids share a dedup shard. */
  lemma CrossedRequestsRetryForEverIff(place: Placement, u: Operation, v: Operation)
    requires ShardsBounded(place) && u.id != v.id
    ensures CanRetryForEver(place, u, v) <==> place.shard(u.id) == place.shard(v.id)
  {
    hide Reached, StillTrying;
    if place.shard(u.id) == place.shard(v.id) {
      forall n: nat ensures CanRetry(place, u, v, n) {
        SameShardRetriesForEver(place, u, v, n);
      }
    } else {
      forall s | Reached(CrossCast(u, v), place, s) ensures !StillTrying(s, 46) {
        OtherShardsEnd(place, u, v, s);
      }
      assert !CanRetry(place, u, v, 46);
    }
  }
}
