/** How often preflights can make each other start over (src/state.rs:178-258). Requests
    whose ids follow one common order retry a bounded number of times, whatever the
    schedule, and so every one of them comes to its end. */
module Retries {
  import opened Model
  import opened Protocol
  import Q = ProtocolProof

  // ----- A common order -----

  /** Preflight comes to index `i` before it comes to index `j`: shards ascend, and within a
      shard the request's own order counts. */
  predicate Before(place: Placement, ops: seq<Operation>, i: nat, j: nat)
    requires i < |ops| && j < |ops|
  {
    var a, b := place.shard(ops[i].id), place.shard(ops[j].id);
    a < b || (a == b && i < j)
  }

  type Rank = Key -> nat

  /** The request comes to its ids in the order of their ranks, which are below `levels`. */
  ghost predicate Ordered(place: Placement, rank: Rank, levels: nat, ops: seq<Operation>) {
    && (forall i: nat, j: nat :: i < |ops| && j < |ops| && IsFirst(ops, i) && IsFirst(ops, j) && Before(place, ops, i, j) ==>
          rank(ops[i].id) < rank(ops[j].id))
    && (forall i: nat :: i < |ops| ==> rank(ops[i].id) < levels)
  }

  /** Requests whose first occurrences ascend in one order of the ids need no more. */
  lemma AscendingRequestsAreOrdered(place: Placement, order: Rank, ids: nat, ops: seq<Operation>)
    requires ShardsBounded(place)
    requires forall i: nat :: i < |ops| ==> order(ops[i].id) < ids
    requires forall i: nat, j: nat :: i < j < |ops| && IsFirst(ops, i) && IsFirst(ops, j) ==> order(ops[i].id) < order(ops[j].id)
    ensures Ordered(place, k => place.shard(k) * ids + order(k), DEDUP_SHARDS * ids, ops)
  {
    var rank: Rank := k => place.shard(k) * ids + order(k);
    forall i: nat, j: nat | i < |ops| && j < |ops| && IsFirst(ops, i) && IsFirst(ops, j) && Before(place, ops, i, j)
      ensures rank(ops[i].id) < rank(ops[j].id)
    {
      Lexicographic(place.shard(ops[i].id), order(ops[i].id), place.shard(ops[j].id), order(ops[j].id), ids);
    }
    forall i: nat | i < |ops| ensures rank(ops[i].id) < DEDUP_SHARDS * ids {
      Lexicographic(place.shard(ops[i].id), order(ops[i].id), DEDUP_SHARDS, 0, ids);
    }
  }

  lemma Lexicographic(a: nat, x: nat, b: nat, y: nat, width: nat)
    requires x < width && (a < b || (a == b && x < y))
    ensures a * width + x < b * width + y
  {
    if a < b {
      var more := b - a - 1;
      assert b * width == a * width + width + more * width;
    }
  }

  // ----- Waits -----

  /** Attempt `attempt` of `req` met the reservation `token` under `key`. */
  datatype Wait = Wait(req: nat, attempt: nat, token: Token, key: Key)

  predicate Stuck(q: Request) { q.phase.Waiting? || (q.phase.RollingBack? && q.phase.why.WaitFor?) }

  function Awaited(q: Request): Token
    requires Stuck(q)
  {
    if q.phase.Waiting? then q.phase.token else q.phase.why.token
  }

  predicate Searching(q: Request) { q.phase.Preflight? || q.phase.Probed? }

  /** The attempt behind the token holds nothing any more. */
  predicate Over(reqs: Requests, t: Token) {
    && t.req in reqs
    && (t.attempt < reqs[t.req].attempt || (t.attempt == reqs[t.req].attempt && Q.HasNothing(reqs[t.req].phase)))
  }

  predicate HasWait(waits: set<Wait>, r: nat, attempt: nat) {
    exists w :: w in waits && w.req == r && w.attempt == attempt
  }

  /** Every attempt but the last has waited, and each wait is known by its attempt. */
  ghost predicate Latest(reqs: Requests, waits: set<Wait>) {
    && (forall w :: w in waits ==>
          && w.req in reqs && w.attempt <= reqs[w.req].attempt
          && (w.attempt == reqs[w.req].attempt ==> Stuck(reqs[w.req]) && Awaited(reqs[w.req]) == w.token))
    && (forall r, a: nat :: r in reqs && (a < reqs[r].attempt || (a == reqs[r].attempt && Stuck(reqs[r]))) ==> HasWait(waits, r, a))
  }

  /** A request waits once in an attempt, and once for a reservation. */
  ghost predicate Unique(waits: set<Wait>) {
    forall v, w :: v in waits && w in waits && v.req == w.req && (v.attempt == w.attempt || v.token == w.token) ==> v == w
  }

  /** Who has woken up has seen the awaited attempt come to its end. */
  ghost predicate Woken(reqs: Requests, notified: map<Token, nat>, waits: set<Wait>) {
    && (forall w :: w in waits && w.req in reqs && w.attempt < reqs[w.req].attempt ==> Over(reqs, w.token))
    && (forall t :: Heard(notified, t) > 0 ==> Over(reqs, t))
  }

  /** The awaited attempt went on to wait itself, under a key of higher rank. */
  ghost predicate WaitedHigher(rank: Rank, waits: set<Wait>, w: Wait) {
    exists v :: v in waits && v.req == w.token.req && v.attempt == w.token.attempt && rank(w.key) < rank(v.key)
  }

  /** The awaited attempt is the request's last so far, and has not waited. */
  predicate Undecided(reqs: Requests, w: Wait)
    requires w.token.req in reqs
  {
    var q := reqs[w.token.req];
    w.token.attempt == q.attempt && !Stuck(q) && (Searching(q) ==> MarkedKey(q, w.key))
  }

  ghost predicate Chained(reqs: Requests, rank: Rank, waits: set<Wait>) {
    forall w :: w in waits ==> w.token.req in reqs && (WaitedHigher(rank, waits, w) || Undecided(reqs, w))
  }

  /** A waiting request has marks only below the key it waits at. */
  ghost predicate MarksLower(reqs: Requests, rank: Rank, waits: set<Wait>) {
    forall w, k :: w in waits && w.req in reqs && w.attempt == reqs[w.req].attempt && MarkedKey(reqs[w.req], k) ==>
      rank(k) < rank(w.key)
  }

  ghost predicate Explained(reqs: Requests, notified: map<Token, nat>, rank: Rank, levels: nat, waits: set<Wait>) {
    && Latest(reqs, waits) && Unique(waits) && Woken(reqs, notified, waits) && Chained(reqs, rank, waits)
    && MarksLower(reqs, rank, waits) && (forall w :: w in waits ==> rank(w.key) < levels)
  }

  ghost predicate AllOrdered(place: Placement, rank: Rank, levels: nat, reqs: Requests) {
    forall r :: r in reqs ==> Ordered(place, rank, levels, reqs[r].ops)
  }

  // ----- Steps that wait for nobody new -----

  ghost predicate Tame(q: Request, q': Request) {
    && q'.ops == q.ops && q'.attempt == q.attempt
    && (Stuck(q') <==> Stuck(q)) && (Stuck(q) ==> Awaited(q') == Awaited(q))
    && (Q.HasNothing(q.phase) ==> Q.HasNothing(q'.phase))
    && (Searching(q') ==> Searching(q) && forall k :: MarkedKey(q, k) ==> MarkedKey(q', k))
    && (Stuck(q') ==> forall k :: MarkedKey(q', k) ==> MarkedKey(q, k))
  }

  /** One request moves; it notifies only when it holds nothing any more. */
  ghost predicate TameMove(s: State, s': State, r: nat) {
    && Q.LocalShape(s, s', r)
    && Tame(s.reqs[r], s'.reqs[r])
    && (forall t :: Heard(s'.notified, t) > 0 ==> Heard(s.notified, t) > 0 || (t == TokenOf(s, r) && Q.HasNothing(s'.reqs[r].phase)))
  }

  lemma TameMoveKeeps(s: State, s': State, r: nat, rank: Rank, levels: nat, waits: set<Wait>)
    requires Explained(s.reqs, s.notified, rank, levels, waits) && TameMove(s, s', r)
    ensures Explained(s'.reqs, s'.notified, rank, levels, waits)
  {
    hide MarkedKey, Stuck, Searching, Q.HasNothing;
    var reqs, reqs' := s.reqs, s'.reqs;
    forall t | Over(reqs, t) ensures Over(reqs', t) { }
    forall t | Heard(s'.notified, t) > 0 ensures Over(reqs', t) { }
    forall w | w in waits ensures w.token.req in reqs' && (WaitedHigher(rank, waits, w) || Undecided(reqs', w)) {
      if !WaitedHigher(rank, waits, w) { assert Undecided(reqs, w); }
    }
  }

  predicate OfRequest(step: Step, r: nat) {
    match step
    case Probe(p) => p == r
    case Reserve(p, _) => p == r
    case Unreserve(p) => p == r
    case Abort(p) => p == r
    case Commit(p) => p == r
    case ApplyOne(p, _) => p == r
    case Finish(p) => p == r
    case FinishShard(p) => p == r
    case Published(p) => p == r
    case Enqueue(p) => p == r
    case Notify(p) => p == r
    case _ => false
  }

  ghost predicate MeetsReservation(s: State, step: Step)
    requires Enabled(s, step)
  {
    step.Reserve? && Stuck(Apply(s, step).reqs[step.req])
  }

  lemma SameMarks(q: Request, q': Request)
    requires q'.ops == q.ops && q'.marks == q.marks
    ensures forall k :: MarkedKey(q', k) <==> MarkedKey(q, k)
  {
    forall k | MarkedKey(q, k) ensures MarkedKey(q', k) {
      var i: nat :| i < |q.ops| && Marked(q, i) && q.ops[i].id == k;
      assert Marked(q', i);
    }
    forall k | MarkedKey(q', k) ensures MarkedKey(q, k) {
      var i: nat :| i < |q'.ops| && Marked(q', i) && q'.ops[i].id == k;
      assert Marked(q, i);
    }
  }

  lemma ProbeIsTame(s: State, r: nat)
    requires Enabled(s, Probe(r))
    ensures TameMove(s, Apply(s, Probe(r)), r)
  {
    hide Group, Unlocked, DiskSees, MarkedKey;
    SameMarks(s.reqs[r], Apply(s, Probe(r)).reqs[r]);
  }

  lemma UnreserveIsTame(s: State, r: nat)
    requires Enabled(s, Unreserve(r))
    ensures TameMove(s, Apply(s, Unreserve(r)), r)
  {
    hide Released, Unlocked, Touches, MarkedKey;
    var q' := Apply(s, Unreserve(r)).reqs[r];
    if q'.phase.RollingBack? { SameMarks(s.reqs[r], q'); } else { NoMarks(q'); }
  }

  lemma NoMarks(q: Request)
    requires q.marks == Unmarked(|q.ops|)
    ensures forall k :: !MarkedKey(q, k)
  {
  }

  lemma FinishShardIsTame(s: State, r: nat)
    requires Enabled(s, FinishShard(r))
    ensures TameMove(s, Apply(s, FinishShard(r)), r)
  {
    hide Finished, NewlyCommitted, Unlocked, Touches, MarkedKey;
  }

  lemma PhaseMoveIsTame(s: State, step: Step, r: nat)
    requires Enabled(s, step) && OfRequest(step, r)
    requires step.Abort? || step.Commit? || step.ApplyOne? || step.Finish? || step.Published? || step.Enqueue? || step.Notify?
    ensures TameMove(s, Apply(s, step), r)
  {
    hide Apply, Enabled, TameMove;
    if step.Enqueue? || step.Notify? { HandOverIsTame(s, step, r); } else { DecisionIsTame(s, step, r); }
  }

  lemma HandOverIsTame(s: State, step: Step, r: nat)
    requires Enabled(s, step) && OfRequest(step, r) && (step.Enqueue? || step.Notify?)
    ensures TameMove(s, Apply(s, step), r)
  {
    hide PairsOf, AnyMark, MarkedKey;
  }

  lemma DecisionIsTame(s: State, step: Step, r: nat)
    requires Enabled(s, step) && OfRequest(step, r)
    requires step.Abort? || step.Commit? || step.ApplyOne? || step.Finish? || step.Published?
    ensures TameMove(s, Apply(s, step), r)
  {
    hide MarkedKey, Marked;
  }

  lemma ReserveIsTame(s: State, r: nat, seen: map<Key, Content>)
    requires Inv(s) && Enabled(s, Reserve(r, seen)) && !MeetsReservation(s, Reserve(r, seen))
    ensures TameMove(s, Apply(s, Reserve(r, seen)), r)
  {
    hide Inv, Decide, Group, MarkedKey;
    MarksGrow(s, r, seen);
  }

  lemma MarksGrow(s: State, r: nat, seen: map<Key, Content>)
    requires Inv(s) && Enabled(s, Reserve(r, seen))
    ensures forall k :: MarkedKey(s.reqs[r], k) ==> MarkedKey(Apply(s, Reserve(r, seen)).reqs[r], k)
  {
    hide Inv, Decide, Group, RequestOk, DecidedWell, WaitsWell;
    var q, q' := s.reqs[r], Apply(s, Reserve(r, seen)).reqs[r];
    Q.RequestFacts(s, r);
    Q.DecisionIsOk(s.place, q, s.memory, seen, TokenOf(s, r),
                   Decide(s.memory, seen, q.ops, GroupOf(s, r, q.phase.shard), TokenOf(s, r), q.marks));
    forall k | MarkedKey(q, k) ensures MarkedKey(q', k) {
      var i: nat :| i < |q.ops| && Marked(q, i) && q.ops[i].id == k;
      assert Marked(q', i);
    }
  }

  lemma OtherMovesAreTame(s: State, step: Step, r: nat)
    requires Inv(s) && Enabled(s, step) && OfRequest(step, r) && !MeetsReservation(s, step)
    ensures TameMove(s, Apply(s, step), r)
  {
    hide Inv, Enabled, Apply, TameMove;
    if step.Probe? {
      ProbeIsTame(s, r);
    } else if step.Reserve? {
      ReserveIsTame(s, r, step.seen);
    } else if step.Unreserve? {
      UnreserveIsTame(s, r);
    } else if step.FinishShard? {
      FinishShardIsTame(s, r);
    } else {
      PhaseMoveIsTame(s, step, r);
    }
  }

  // ----- A request comes, wakes up, meets a reservation -----

  lemma ArrivalKeeps(s: State, r: nat, q: Request, rank: Rank, levels: nat, waits: set<Wait>)
    requires Explained(s.reqs, s.notified, rank, levels, waits) && r !in s.reqs && q.attempt == 0 && !Stuck(q)
    ensures Explained(s.reqs[r := q], s.notified, rank, levels, waits)
  {
    hide MarkedKey;
    var reqs' := s.reqs[r := q];
    forall t | Over(s.reqs, t) ensures Over(reqs', t) { }
    forall w | w in waits ensures w.token.req in reqs' && (WaitedHigher(rank, waits, w) || Undecided(reqs', w)) {
      if !WaitedHigher(rank, waits, w) { assert Undecided(s.reqs, w); }
    }
  }

  lemma WakingKeeps(s: State, r: nat, rank: Rank, levels: nat, waits: set<Wait>)
    requires Explained(s.reqs, s.notified, rank, levels, waits) && Enabled(s, Wake(r))
    ensures var s' := Apply(s, Wake(r)); Explained(s'.reqs, s'.notified, rank, levels, waits)
  {
    hide MarkedKey;
    var reqs, reqs' := s.reqs, Apply(s, Wake(r)).reqs;
    forall t | Over(reqs, t) ensures Over(reqs', t) { }
    forall w | w in waits && w.attempt < reqs'[w.req].attempt ensures Over(reqs', w.token) {
      if w.req == r && w.attempt == reqs[r].attempt { assert Heard(s.notified, w.token) > 0; }
    }
    forall w | w in waits ensures w.token.req in reqs' && (WaitedHigher(rank, waits, w) || Undecided(reqs', w)) {
      if !WaitedHigher(rank, waits, w) { assert Undecided(reqs, w); }
    }
  }

  /** The new wait explains the older waits for this attempt, and is explained by the
      attempt it waits for. */
  lemma MeetingKeeps(reqs: Requests, notified: map<Token, nat>, rank: Rank, levels: nat, waits: set<Wait>,
                     r: nat, q': Request, t: Token, k: Key)
    requires Explained(reqs, notified, rank, levels, waits) && r in reqs && Searching(reqs[r])
    requires q'.attempt == reqs[r].attempt && Stuck(q') && Awaited(q') == t && !Q.HasNothing(q'.phase)
    requires t.req in reqs && t.req != r && t.attempt == reqs[t.req].attempt && !Q.HasNothing(reqs[t.req].phase)
    requires MarkedKey(reqs[t.req], k) && rank(k) < levels
    requires forall x :: MarkedKey(q', x) ==> rank(x) < rank(k)
    requires forall x :: MarkedKey(reqs[r], x) ==> MarkedKey(q', x)
    ensures Explained(reqs[r := q'], notified, rank, levels, waits + {Wait(r, q'.attempt, t, k)})
  {
    hide MarkedKey;
    var w0, reqs' := Wait(r, q'.attempt, t, k), reqs[r := q'];
    var waits' := waits + {w0};
    forall x | Over(reqs, x) ensures Over(reqs', x) { }
    assert !Over(reqs, t);
    assert Unique(waits');
    forall p, a: nat | p in reqs' && (a < reqs'[p].attempt || (a == reqs'[p].attempt && Stuck(reqs'[p]))) ensures HasWait(waits', p, a) {
      if p == r && a == q'.attempt { assert w0 in waits'; } else { assert HasWait(waits, p, a); }
    }
    MeetingIsChained(reqs, notified, rank, levels, waits, r, q', t, k);
  }

  lemma MeetingIsChained(reqs: Requests, notified: map<Token, nat>, rank: Rank, levels: nat, waits: set<Wait>,
                         r: nat, q': Request, t: Token, k: Key)
    requires Explained(reqs, notified, rank, levels, waits) && r in reqs && Searching(reqs[r])
    requires q'.attempt == reqs[r].attempt
    requires t.req in reqs && t.req != r && t.attempt == reqs[t.req].attempt
    requires MarkedKey(reqs[t.req], k)
    requires forall x :: MarkedKey(reqs[r], x) ==> rank(x) < rank(k)
    ensures Chained(reqs[r := q'], rank, waits + {Wait(r, q'.attempt, t, k)})
  {
    hide MarkedKey, Woken, Unique;
    var w0, reqs' := Wait(r, q'.attempt, t, k), reqs[r := q'];
    var waits' := waits + {w0};
    forall w | w in waits' ensures w.token.req in reqs' && (WaitedHigher(rank, waits', w) || Undecided(reqs', w)) {
      if w == w0 {
        if Stuck(reqs[t.req]) {
          assert HasWait(waits, t.req, t.attempt);
          var v :| v in waits && v.req == t.req && v.attempt == t.attempt;
          assert v in waits';
        }
      } else if WaitedHigher(rank, waits, w) {
        var v :| v in waits && v.req == w.token.req && v.attempt == w.token.attempt && rank(w.key) < rank(v.key);
        assert v in waits';
      } else {
        assert Undecided(reqs, w);
        assert w0 in waits';
      }
    }
  }

  // ----- What the decision loop had marked when it met a reservation -----

  /** The loop stops at the reservation it meets, and marks nothing from there on. */
  lemma {:induction false} DecideStopsAt(memory: Memory, seen: map<Key, Content>, ops: seq<Operation>, group: seq<nat>,
                                         token: Token, marks: seq<bool>) returns (a: nat)
    requires Fresh(ops, group, marks) && Decide(memory, seen, ops, group, token, marks).verdict.MustWait?
    ensures var d := Decide(memory, seen, ops, group, token, marks);
            && a < |group| && |d.marks| == |ops|
            && ops[group[a]].id in memory && memory[ops[group[a]].id] == Pending(Fingerprint(ops[group[a]]), d.verdict.token)
            && (forall b :: a <= b < |group| ==> d.marks[group[b]] == marks[group[b]])
    decreases |group|
  {
    var i, rest := group[0], group[1..];
    var key, content := ops[i].id, Fingerprint(ops[i]);
    FreshStep(ops, group, marks);
    if key in memory && memory[key].Pending? {
      a := 0;
    } else if key in memory || key in seen {
      var a' := DecideStopsAt(memory, seen, ops, rest, token, marks);
      a := a' + 1;
      assert forall b :: a <= b < |group| ==> group[b] == rest[b - 1];
    } else {
      var a' := DecideStopsAt(memory[key := Pending(content, token)], seen, ops, rest, token, marks[i := true]);
      a := a' + 1;
      assert ops[rest[a']].id != key;
      assert forall b :: a <= b < |group| ==> group[b] == rest[b - 1] && group[b] != i;
    }
  }

  /** A request that meets a reservation has marked only keys of lower rank. */
  lemma MeetsAbove(s: State, r: nat, seen: map<Key, Content>, rank: Rank, levels: nat) returns (k: Key)
    requires Inv(s) && Enabled(s, Reserve(r, seen)) && MeetsReservation(s, Reserve(r, seen))
    requires Ordered(s.place, rank, levels, s.reqs[r].ops)
    ensures var q' := Apply(s, Reserve(r, seen)).reqs[r];
            && k in s.memory && s.memory[k].Pending? && s.memory[k].token == Awaited(q') && rank(k) < levels
            && forall x :: MarkedKey(q', x) ==> rank(x) < rank(k)
  {
    hide Inv, Decide, Ordered, RequestOk, DecidedWell, WaitsWell, Group, MarkedKey, Fresh;
    var q := s.reqs[r];
    var group := GroupOf(s, r, q.phase.shard);
    Q.RequestFacts(s, r);
    Q.GroupMembers(s.place, q);
    var a := DecideStopsAt(s.memory, seen, q.ops, group, TokenOf(s, r), q.marks);
    DecideFrame(s.memory, seen, q.ops, group, TokenOf(s, r), q.marks);
    var d := Decide(s.memory, seen, q.ops, group, TokenOf(s, r), q.marks);
    var q' := Apply(s, Reserve(r, seen)).reqs[r];
    k := q.ops[group[a]].id;
    GroupAscends(s, r);
    assert group[a] in group;
    RankBelow(s.place, rank, levels, q.ops, group[a]);
    forall x | MarkedKey(q', x) ensures rank(x) < rank(k) {
      var i := MarkOf(q', x);
      MarkedEarlier(s.place, q, group, a, d.marks, i);
      RankAscends(s.place, rank, levels, q.ops, i, group[a]);
    }
  }

  lemma MarkOf(q: Request, k: Key) returns (i: nat)
    requires MarkedKey(q, k)
    ensures i < |q.ops| && Marked(q, i) && q.ops[i].id == k
  {
    i :| i < |q.ops| && Marked(q, i) && q.ops[i].id == k;
  }

  lemma GroupAscends(s: State, r: nat)
    requires r in s.reqs && s.reqs[r].phase.Probed?
    ensures var group := GroupOf(s, r, s.reqs[r].phase.shard);
            Indices(group, |s.reqs[r].ops|) && forall a, b :: 0 <= a < b < |group| ==> group[a] < group[b]
  {
  }

  lemma RankBelow(place: Placement, rank: Rank, levels: nat, ops: seq<Operation>, i: nat)
    requires Ordered(place, rank, levels, ops) && i < |ops|
    ensures rank(ops[i].id) < levels
  {
  }

  lemma RankAscends(place: Placement, rank: Rank, levels: nat, ops: seq<Operation>, i: nat, j: nat)
    requires Ordered(place, rank, levels, ops) && i < |ops| && j < |ops|
    requires IsFirst(ops, i) && IsFirst(ops, j) && Before(place, ops, i, j)
    ensures rank(ops[i].id) < rank(ops[j].id)
  {
  }

  lemma MarkedEarlier(place: Placement, q: Request, group: seq<nat>, a: nat, marks: seq<bool>, i: nat)
    requires RequestOk(place, q) && q.phase.Probed? && |marks| == |q.ops| && i < |q.ops| && marks[i]
    requires Indices(group, |q.ops|) && a < |group|
    requires forall j: nat :: j in group <==> Q.InGroup(place, q, j)
    requires forall b, c :: 0 <= b < c < |group| ==> group[b] < group[c]
    requires forall j: nat :: j in group ==> !Marked(q, j)
    requires forall b :: a <= b < |group| ==> marks[group[b]] == q.marks[group[b]]
    requires forall j: nat :: j < |q.ops| && j !in group ==> marks[j] == q.marks[j]
    ensures IsFirst(q.ops, i) && IsFirst(q.ops, group[a]) && Before(place, q.ops, i, group[a])
  {
    hide IsFirst, BatchAgrees;
    assert group[a] in group && Q.InGroup(place, q, group[a]);
    if i in group {
      var b :| 0 <= b < |group| && group[b] == i;
      assert Q.InGroup(place, q, i) && !Marked(q, i);
    } else {
      assert Marked(q, i);
    }
  }

  /** The reservation met belongs to another request's running attempt. */
  lemma HolderIsRunning(s: State, r: nat, seen: map<Key, Content>, k: Key)
    requires Inv(s) && Enabled(s, Reserve(r, seen)) && MeetsReservation(s, Reserve(r, seen))
    requires k in s.memory && s.memory[k].Pending? && s.memory[k].token == Awaited(Apply(s, Reserve(r, seen)).reqs[r])
    ensures var t := s.memory[k].token;
            && t.req in s.reqs && t.req != r && t.attempt == s.reqs[t.req].attempt
            && !Q.HasNothing(s.reqs[t.req].phase) && MarkedKey(s.reqs[t.req], k)
  {
    hide RequestsOk, Visibility, Pipeline, Probes, Decisions, WakeUps, Apply, Enabled;
    ReserveRolls(s, r, seen);
    Q.StepKeepsInv(s, Reserve(r, seen));
    NotItself(Apply(s, Reserve(r, seen)), r);
    assert EntryHeld(s.place, s.reqs, k, s.memory[k].token);
    var holder := s.reqs[s.memory[k].token.req];
    var i: nat :| i < |holder.ops| && Holds(s.place, holder, i) && holder.ops[i].id == k;
  }

  lemma ReserveRolls(s: State, r: nat, seen: map<Key, Content>)
    requires Enabled(s, Reserve(r, seen)) && MeetsReservation(s, Reserve(r, seen))
    ensures var s' := Apply(s, Reserve(r, seen));
            && r in s'.reqs && s'.reqs == s.reqs[r := s'.reqs[r]] && s'.notified == s.notified
            && s'.reqs[r].ops == s.reqs[r].ops && s'.reqs[r].attempt == s.reqs[r].attempt
            && s'.reqs[r].phase.RollingBack? && s'.reqs[r].phase.why.WaitFor?
  {
    hide Decide, Group;
  }

  lemma NotItself(s: State, r: nat)
    requires Inv(s) && r in s.reqs && s.reqs[r].phase.RollingBack? && s.reqs[r].phase.why.WaitFor?
    ensures s.reqs[r].phase.why.token.req != r
  {
    hide Answered, RequestsOk, Ownership, Visibility, Pipeline, Probes, Decisions;
    assert WaitsWell(s.reqs, s.notified, r);
  }

  lemma MeetingStepKeeps(s: State, r: nat, seen: map<Key, Content>, rank: Rank, levels: nat, waits: set<Wait>)
    returns (waits': set<Wait>)
    requires Inv(s) && Enabled(s, Reserve(r, seen)) && MeetsReservation(s, Reserve(r, seen))
    requires Ordered(s.place, rank, levels, s.reqs[r].ops) && Explained(s.reqs, s.notified, rank, levels, waits)
    ensures var s' := Apply(s, Reserve(r, seen)); Explained(s'.reqs, s'.notified, rank, levels, waits')
  {
    hide Inv, Apply, Ordered, Explained, MarkedKey, Over;
    var k := MeetsAbove(s, r, seen, rank, levels);
    HolderIsRunning(s, r, seen, k);
    ReserveRolls(s, r, seen);
    MarksGrow(s, r, seen);
    var q' := Apply(s, Reserve(r, seen)).reqs[r];
    MeetingKeeps(s.reqs, s.notified, rank, levels, waits, r, q', Awaited(q'), k);
    waits' := waits + {Wait(r, q'.attempt, Awaited(q'), k)};
  }

  // ----- Every run explains its retries -----

  predicate WorkerStep(step: Step) {
    step.Take? || step.StoreBatch? || step.AddBits? || step.Forget? || step.PersistFailed? || step.Visit? || step.Merge?
  }

  lemma WorkerLeavesRequests(s: State, step: Step)
    requires Enabled(s, step) && WorkerStep(step)
    ensures Apply(s, step).reqs == s.reqs && Apply(s, step).notified == s.notified
  {
    hide StoredWith, BitsOf, KeysOf, Unlocked;
  }

  lemma RequestStepExplains(s: State, step: Step, r: nat, rank: Rank, levels: nat, waits: set<Wait>)
    returns (waits': set<Wait>)
    requires Inv(s) && Enabled(s, step) && OfRequest(step, r) && r in s.reqs
    requires Explained(s.reqs, s.notified, rank, levels, waits) && AllOrdered(s.place, rank, levels, s.reqs)
    ensures var s' := Apply(s, step); Explained(s'.reqs, s'.notified, rank, levels, waits') && AllOrdered(s.place, rank, levels, s'.reqs)
  {
    hide Inv, Apply, Enabled, Ordered, Explained;
    if MeetsReservation(s, step) {
      waits' := MeetingStepKeeps(s, r, step.seen, rank, levels, waits);
      ReserveRolls(s, r, step.seen);
    } else {
      waits' := waits;
      OtherMovesAreTame(s, step, r);
      TameMoveKeeps(s, Apply(s, step), r, rank, levels, waits);
    }
  }

  lemma RequestExists(s: State, step: Step, r: nat)
    requires Enabled(s, step) && OfRequest(step, r)
    ensures r in s.reqs
  {
  }

  lemma WokenShape(s: State, r: nat)
    requires Enabled(s, Wake(r))
    ensures r in s.reqs && Apply(s, Wake(r)).reqs == s.reqs[r := Apply(s, Wake(r)).reqs[r]]
    ensures Apply(s, Wake(r)).reqs[r].ops == s.reqs[r].ops
  {
  }

  lemma StepExplains(s: State, step: Step, rank: Rank, levels: nat, waits: set<Wait>) returns (waits': set<Wait>)
    requires Inv(s) && Enabled(s, step) && (step.Begin? ==> Ordered(s.place, rank, levels, step.ops))
    requires Explained(s.reqs, s.notified, rank, levels, waits) && AllOrdered(s.place, rank, levels, s.reqs)
    ensures var s' := Apply(s, step); Explained(s'.reqs, s'.notified, rank, levels, waits') && AllOrdered(s.place, rank, levels, s'.reqs)
  {
    hide Inv, Apply, Enabled, Ordered, Explained;
    waits' := waits;
    if step.Begin? {
      ArrivalExplains(s, step.req, step.ops, rank, levels, waits);
    } else if step.Wake? {
      WakingKeeps(s, step.req, rank, levels, waits);
      WokenShape(s, step.req);
    } else if step.Restart? {
      waits' := {};
      RestartExplains(s, step.found, rank, levels);
    } else if WorkerStep(step) {
      WorkerLeavesRequests(s, step);
    } else {
      RequestExists(s, step, step.req);
      waits' := RequestStepExplains(s, step, step.req, rank, levels, waits);
    }
  }

  lemma ArrivalExplains(s: State, r: nat, ops: seq<Operation>, rank: Rank, levels: nat, waits: set<Wait>)
    requires Enabled(s, Begin(r, ops)) && Ordered(s.place, rank, levels, ops)
    requires Explained(s.reqs, s.notified, rank, levels, waits) && AllOrdered(s.place, rank, levels, s.reqs)
    ensures var s' := Apply(s, Begin(r, ops));
            Explained(s'.reqs, s'.notified, rank, levels, waits) && AllOrdered(s.place, rank, levels, s'.reqs)
  {
    hide BatchAgrees, Ordered, Explained;
    ArrivalKeeps(s, r, Apply(s, Begin(r, ops)).reqs[r], rank, levels, waits);
  }

  lemma RestartExplains(s: State, found: map<Key, Content>, rank: Rank, levels: nat)
    requires Enabled(s, Restart(found))
    ensures var s' := Apply(s, Restart(found));
            Explained(s'.reqs, s'.notified, rank, levels, {}) && AllOrdered(s.place, rank, levels, s'.reqs)
  {
  }

  ghost predicate InOrder(place: Placement, rank: Rank, levels: nat, steps: seq<Step>) {
    forall i :: 0 <= i < |steps| && steps[i].Begin? ==> Ordered(place, rank, levels, steps[i].ops)
  }

  lemma {:induction false} RunsExplain(place: Placement, rank: Rank, levels: nat, steps: seq<Step>, states: seq<State>, n: nat)
    returns (waits: set<Wait>)
    requires Q.IsRun(place, steps, states) && InOrder(place, rank, levels, steps) && n < |states|
    ensures Explained(states[n].reqs, states[n].notified, rank, levels, waits)
    ensures AllOrdered(place, rank, levels, states[n].reqs)
  {
    hide Inv, Apply, Enabled, Ordered, Explained;
    if n == 0 {
      waits := {};
      NothingToExplain(place, rank, levels);
    } else {
      var before := RunsExplain(place, rank, levels, steps, states, n - 1);
      Q.RunsAreGood(place, steps, states, n - 1);
      Q.PlaceStays(place, steps, states, n - 1);
      assert Next(states[n - 1], steps[n - 1], states[n]);
      waits := StepExplains(states[n - 1], steps[n - 1], rank, levels, before);
    }
  }

  lemma NothingToExplain(place: Placement, rank: Rank, levels: nat)
    ensures Explained(Q.FirstStart(place).reqs, Q.FirstStart(place).notified, rank, levels, {})
    ensures AllOrdered(place, rank, levels, Q.FirstStart(place).reqs)
  {
  }

  // ----- Counting -----

  lemma {:induction false} Injection<A, B>(from: set<A>, to: set<B>, f: A -> B)
    requires forall a :: a in from ==> f(a) in to
    requires forall a, b :: a in from && b in from && f(a) == f(b) ==> a == b
    ensures |from| <= |to|
  {
    if from != {} {
      var a :| a in from;
      Injection(from - {a}, to - {f(a)}, f);
    }
  }

  function Pairings<A(!new), B(!new)>(left: set<A>, right: set<B>): set<(A, B)> {
    set a, b | a in left && b in right :: (a, b)
  }

  lemma {:induction false} PairingsCount<A(!new), B(!new)>(left: set<A>, right: set<B>)
    ensures |Pairings(left, right)| == |left| * |right|
  {
    if left == {} {
      assert Pairings(left, right) == {};
    } else {
      var a :| a in left;
      var row := set b | b in right :: (a, b);
      PairingsCount(left - {a}, right);
      assert Pairings(left, right) == Pairings(left - {a}, right) + row;
      RowCount(a, right);
    }
  }

  lemma {:induction false} RowCount<A(!new), B(!new)>(a: A, right: set<B>)
    ensures |set b | b in right :: (a, b)| == |right|
  {
    if right != {} {
      var b :| b in right;
      RowCount(a, right - {b});
      assert (set c | c in right :: (a, c)) == (set c | c in right - {b} :: (a, c)) + {(a, b)};
    }
  }

  function Power(base: nat, n: nat): (r: nat)
    ensures base > 0 ==> r > 0
  {
    if n == 0 then 1 else base * Power(base, n - 1)
  }

  /** How often `requests` requests can meet reservations under keys of `levels` ranks. */
  function MostRetries(requests: nat, levels: nat): int { requests * (Power(requests + 1, levels) - 1) }

  function AtOrAbove(rank: Rank, waits: set<Wait>, level: nat): set<Wait> { set w | w in waits && rank(w.key) >= level }

  function TokensOf(waits: set<Wait>): set<Token> { set w | w in waits :: Token(w.req, w.attempt) }

  /** At most one wait per pair of requests is for an attempt that has not waited. */
  lemma UndecidedCount(reqs: Requests, waits: set<Wait>, some: set<Wait>)
    requires Latest(reqs, waits) && Unique(waits) && some <= waits
    requires forall w :: w in some ==> w.token.req in reqs && Undecided(reqs, w)
    ensures |some| <= |reqs| * |reqs|
  {
    hide MarkedKey, Stuck, Searching;
    Injection(some, Pairings(reqs.Keys, reqs.Keys), (w: Wait) => (w.req, w.token.req));
    PairingsCount(reqs.Keys, reqs.Keys);
    assert |reqs.Keys| == |reqs|;
  }

  /** The others are for attempts that waited at a higher rank. */
  lemma WaitedHigherCount(reqs: Requests, rank: Rank, waits: set<Wait>, some: set<Wait>, level: nat)
    requires Latest(reqs, waits) && Unique(waits) && some <= waits
    requires forall w :: w in some ==> rank(w.key) == level && WaitedHigher(rank, waits, w)
    ensures |some| <= |reqs| * |AtOrAbove(rank, waits, level + 1)|
  {
    hide Stuck;
    var above := AtOrAbove(rank, waits, level + 1);
    forall w | w in some ensures w.token in TokensOf(above) {
      var v :| v in waits && v.req == w.token.req && v.attempt == w.token.attempt && rank(w.key) < rank(v.key);
      assert v in above;
    }
    Injection(some, Pairings(reqs.Keys, TokensOf(above)), (w: Wait) => (w.req, w.token));
    PairingsCount(reqs.Keys, TokensOf(above));
    TokensCount(above);
    assert |reqs.Keys| == |reqs|;
    Grows(|reqs|, |TokensOf(above)|, |above|);
  }

  lemma Grows(a: nat, x: nat, y: nat)
    requires x <= y
    ensures a * x <= a * y
  {
  }

  lemma {:induction false} TokensCount(waits: set<Wait>)
    ensures |TokensOf(waits)| <= |waits|
  {
    if waits != {} {
      var w :| w in waits;
      TokensCount(waits - {w});
      assert TokensOf(waits) == TokensOf(waits - {w}) + {Token(w.req, w.attempt)};
    }
  }

  lemma LevelCount(reqs: Requests, rank: Rank, waits: set<Wait>, level: nat)
    requires Latest(reqs, waits) && Unique(waits) && Chained(reqs, rank, waits)
    ensures |AtOrAbove(rank, waits, level)| <= |reqs| * |reqs| + (|reqs| + 1) * |AtOrAbove(rank, waits, level + 1)|
  {
    hide Latest, Unique, Undecided, WaitedHigher, AtOrAbove;
    var above := AtOrAbove(rank, waits, level + 1);
    var closed := set w | w in waits && rank(w.key) == level && WaitedHigher(rank, waits, w);
    var open := set w | w in waits && rank(w.key) == level && !WaitedHigher(rank, waits, w);
    UndecidedCount(reqs, waits, open);
    WaitedHigherCount(reqs, rank, waits, closed, level);
    LevelParts(rank, waits, level, above, closed, open);
    OneLess(|reqs| + 1, |above|);
  }

  lemma LevelParts(rank: Rank, waits: set<Wait>, level: nat, above: set<Wait>, closed: set<Wait>, open: set<Wait>)
    requires above == AtOrAbove(rank, waits, level + 1)
    requires forall w :: w in waits && rank(w.key) == level ==> w in closed || w in open
    ensures |AtOrAbove(rank, waits, level)| <= |above| + |closed| + |open|
  {
    SubsetCount(AtOrAbove(rank, waits, level), above + closed + open);
  }

  lemma {:induction false} WaitsAreFew(reqs: Requests, rank: Rank, waits: set<Wait>, levels: nat, level: nat)
    requires Latest(reqs, waits) && Unique(waits) && Chained(reqs, rank, waits) && level <= levels
    requires forall w :: w in waits ==> rank(w.key) < levels
    ensures |AtOrAbove(rank, waits, level)| <= MostRetries(|reqs|, levels - level)
    decreases levels - level
  {
    hide Latest, Unique, Chained;
    if level == levels {
      assert AtOrAbove(rank, waits, level) == {};
    } else {
      WaitsAreFew(reqs, rank, waits, levels, level + 1);
      LevelCount(reqs, rank, waits, level);
      OneMoreLevel(|reqs|, levels - level - 1, |AtOrAbove(rank, waits, level + 1)|);
    }
  }

  lemma OneMoreLevel(n: nat, levels: nat, above: nat)
    requires above <= MostRetries(n, levels)
    ensures n * n + (n + 1) * above <= MostRetries(n, levels + 1)
  {
    var p := Power(n + 1, levels);
    assert (n + 1) * above <= (n + 1) * (n * (p - 1)) by { Grows(n + 1, above, n * (p - 1)); }
    assert Power(n + 1, levels + 1) == (n + 1) * p;
    assert n * n + (n + 1) * (n * (p - 1)) == n * ((n + 1) * p - 1);
  }

  /** The attempts that were started over. */
  function Retried(reqs: Requests): set<Token> {
    set r, a | r in reqs && 0 <= a < reqs[r].attempt :: Token(r, a)
  }

  /** All requests since the last start together retry at most `MostRetries` times, in any
      schedule, if each comes to its ids in a common order. */
  lemma RetriesAreBounded(place: Placement, rank: Rank, levels: nat, steps: seq<Step>, states: seq<State>, n: nat)
    requires Q.IsRun(place, steps, states) && InOrder(place, rank, levels, steps) && n < |states|
    ensures |Retried(states[n].reqs)| <= MostRetries(|states[n].reqs|, levels)
  {
    hide Inv, Q.IsRun, InOrder, Chained, Woken, MarksLower, Unique;
    var reqs := states[n].reqs;
    var waits := RunsExplain(place, rank, levels, steps, states, n);
    assert Explained(reqs, states[n].notified, rank, levels, waits);
    WaitsAreFew(reqs, rank, waits, levels, 0);
    assert AtOrAbove(rank, waits, 0) == waits;
    TokensCount(waits);
    forall t | t in Retried(reqs) ensures t in TokensOf(waits) {
      assert HasWait(waits, t.req, t.attempt);
    }
    SubsetCount(Retried(reqs), TokensOf(waits));
  }

  function Attempts(r: nat, n: nat): set<Token> { set a | 0 <= a < n :: Token(r, a) }

  lemma {:induction false} AttemptsCount(r: nat, n: nat)
    ensures |Attempts(r, n)| == n
  {
    if n == 0 {
      assert Attempts(r, n) == {};
    } else {
      AttemptsCount(r, n - 1);
      assert Attempts(r, n) == Attempts(r, n - 1) + {Token(r, n - 1)};
    }
  }

  lemma RetriedCount(reqs: Requests, r: nat)
    requires r in reqs
    ensures reqs[r].attempt <= |Retried(reqs)|
  {
    AttemptsCount(r, reqs[r].attempt);
    SubsetCount(Attempts(r, reqs[r].attempt), Retried(reqs));
  }

  // ----- Every schedule comes to an end -----

  /** How far an attempt has come. */
  function Position(q: Request): nat {
    match q.phase
    case Preflight(shard) => 2 * shard
    case Probed(shard, _) => 2 * shard + 1
    case RollingBack(shard, _) => 130 + shard
    case Waiting(_, _) => 195
    case Rejected => 195
    case Reserved => 129
    case Applying => 130 + |q.applied|
    case Finishing(shard, _) => 131 + |q.ops| + shard
    case Publishing => 196 + |q.ops|
    case Enqueuing => 197 + |q.ops|
    case Notifying(_) => 198 + |q.ops|
    case Done => 199 + |q.ops|
    case Aborted => 199 + |q.ops|
  }

  function Progress(q: Request): nat { 196 * q.attempt + Position(q) }

  lemma AppliedIsSmall(place: Placement, q: Request)
    requires RequestOk(place, q)
    ensures |q.applied| <= |q.ops|
  {
    IndexCount(q.applied, |q.ops|);
  }

  lemma {:induction false} IndexCount(some: set<nat>, n: nat)
    requires forall i :: i in some ==> i < n
    ensures |some| <= n
  {
    if n == 0 {
      assert some == {};
    } else {
      IndexCount(some - {n - 1}, n - 1);
    }
  }

  lemma ProgressBound(place: Placement, q: Request)
    requires RequestOk(place, q)
    ensures Progress(q) <= 196 * q.attempt + 199 + |q.ops|
  {
    AppliedIsSmall(place, q);
  }

  predicate Moves(step: Step, r: nat) { OfRequest(step, r) || step == Wake(r) }

  ghost predicate Further(s: State, s': State, r: nat) {
    r in s.reqs && r in s'.reqs && Progress(s.reqs[r]) < Progress(s'.reqs[r])
  }

  /** Each step of a request takes it further. */
  lemma StepsProgress(s: State, step: Step, r: nat)
    requires Inv(s) && Enabled(s, step) && Moves(step, r)
    ensures Further(s, Apply(s, step), r)
  {
    hide Inv, Enabled, Apply, RequestOk, DecidedWell, WaitsWell, Further;
    RequestMoves(s, step, r);
    Q.RequestFacts(s, r);
    match step
    case Probe(_) => ProbeProgress(s, r);
    case Reserve(_, seen) => ReserveProgress(s, r, seen);
    case Unreserve(_) => UnreserveProgress(s, r);
    case Wake(_) => WakeProgress(s, r);
    case FinishShard(_) => FinishShardProgress(s, r);
    case _ => PhaseProgress(s, step, r);
  }

  lemma RequestMoves(s: State, step: Step, r: nat)
    requires Enabled(s, step) && Moves(step, r)
    ensures r in s.reqs
  {
  }

  lemma PhaseBounds(place: Placement, q: Request)
    requires RequestOk(place, q)
    ensures q.phase.Preflight? || q.phase.RollingBack? || q.phase.Finishing? ==> q.phase.shard <= DEDUP_SHARDS
    ensures q.phase.Probed? ==> q.phase.shard < DEDUP_SHARDS
    ensures |q.applied| <= |q.ops|
  {
    AppliedIsSmall(place, q);
  }

  lemma ProbeProgress(s: State, r: nat)
    requires Enabled(s, Probe(r)) && RequestOk(s.place, s.reqs[r])
    ensures Further(s, Apply(s, Probe(r)), r)
  {
    hide Group, Unlocked, DiskSees, RequestOk;
    PhaseBounds(s.place, s.reqs[r]);
  }

  lemma ReserveProgress(s: State, r: nat, seen: map<Key, Content>)
    requires Enabled(s, Reserve(r, seen)) && RequestOk(s.place, s.reqs[r])
    ensures Further(s, Apply(s, Reserve(r, seen)), r)
  {
    hide Group, Decide, RequestOk;
    PhaseBounds(s.place, s.reqs[r]);
  }

  lemma UnreserveProgress(s: State, r: nat)
    requires Enabled(s, Unreserve(r)) && RequestOk(s.place, s.reqs[r])
    ensures Further(s, Apply(s, Unreserve(r)), r)
  {
    hide Released, Unlocked, Touches, RequestOk;
    PhaseBounds(s.place, s.reqs[r]);
  }

  lemma WakeProgress(s: State, r: nat)
    requires Enabled(s, Wake(r))
    ensures Further(s, Apply(s, Wake(r)), r)
  {
  }

  lemma FinishShardProgress(s: State, r: nat)
    requires Enabled(s, FinishShard(r)) && RequestOk(s.place, s.reqs[r])
    ensures Further(s, Apply(s, FinishShard(r)), r)
  {
    hide Finished, NewlyCommitted, Unlocked, Touches, RequestOk;
    PhaseBounds(s.place, s.reqs[r]);
  }

  lemma PhaseProgress(s: State, step: Step, r: nat)
    requires Enabled(s, step) && OfRequest(step, r) && RequestOk(s.place, s.reqs[r])
    requires step.Abort? || step.Commit? || step.ApplyOne? || step.Finish? || step.Published? || step.Enqueue? || step.Notify?
    ensures Further(s, Apply(s, step), r)
  {
    hide RequestOk, Apply, Enabled, Further;
    if step.ApplyOne? {
      ApplyProgress(s, r, step.index);
    } else if step.Published? || step.Enqueue? || step.Notify? {
      HandOverProgress(s, step, r);
    } else {
      DecisionProgress(s, step, r);
    }
  }

  lemma ApplyProgress(s: State, r: nat, i: nat)
    requires Enabled(s, ApplyOne(r, i))
    ensures Further(s, Apply(s, ApplyOne(r, i)), r)
  {
    hide Marked;
  }

  lemma HandOverProgress(s: State, step: Step, r: nat)
    requires Enabled(s, step) && OfRequest(step, r) && (step.Published? || step.Enqueue? || step.Notify?)
    ensures Further(s, Apply(s, step), r)
  {
    hide PairsOf, AnyMark;
  }

  lemma DecisionProgress(s: State, step: Step, r: nat)
    requires Enabled(s, step) && OfRequest(step, r) && RequestOk(s.place, s.reqs[r])
    requires step.Abort? || step.Commit? || step.Finish?
    ensures Further(s, Apply(s, step), r)
  {
    hide RequestOk, Marked;
    PhaseBounds(s.place, s.reqs[r]);
  }

  lemma StepLeaves(s: State, step: Step, r: nat)
    requires Inv(s) && Enabled(s, step) && !Moves(step, r) && !step.Restart? && r in s.reqs
    ensures var s' := Apply(s, step); r in s'.reqs && s'.reqs[r] == s.reqs[r]
  {
    hide Inv, Enabled, Apply, Tame;
    if step.Begin? {
      BeginLeaves(s, step.req, step.ops, r);
    } else if step.Wake? {
      WokenShape(s, step.req);
    } else if WorkerStep(step) {
      WorkerLeavesRequests(s, step);
    } else if MeetsReservation(s, step) {
      ReserveRolls(s, step.req, step.seen);
    } else {
      OtherMovesAreTame(s, step, step.req);
    }
  }

  lemma BeginLeaves(s: State, p: nat, ops: seq<Operation>, r: nat)
    requires Enabled(s, Begin(p, ops)) && r in s.reqs
    ensures var s' := Apply(s, Begin(p, ops)); r in s'.reqs && s'.reqs[r] == s.reqs[r]
  {
    hide BatchAgrees;
  }

  /** The first step after the last start. */
  function Since(steps: seq<Step>, n: nat): (m: nat)
    requires n <= |steps|
    ensures m <= n
  {
    if n == 0 then 0 else if steps[n - 1].Restart? then n else Since(steps, n - 1)
  }

  function MovesOf(steps: seq<Step>, n: nat, r: nat): set<nat>
    requires n <= |steps|
  {
    set i: nat | Since(steps, n) <= i < n && Moves(steps[i], r)
  }

  lemma {:induction false} MovesAreProgress(place: Placement, steps: seq<Step>, states: seq<State>, n: nat, r: nat)
    requires Q.IsRun(place, steps, states) && n < |states|
    ensures if r in states[n].reqs then |MovesOf(steps, n, r)| <= Progress(states[n].reqs[r]) else MovesOf(steps, n, r) == {}
  {
    hide Inv, Enabled, Apply, Moves, Progress;
    if n == 0 {
      assert MovesOf(steps, n, r) == {};
    } else {
      var s, step := states[n - 1], steps[n - 1];
      assert Next(s, step, states[n]);
      Q.RunsAreGood(place, steps, states, n - 1);
      MovesAreProgress(place, steps, states, n - 1, r);
      if step.Restart? {
        assert MovesOf(steps, n, r) == {};
      } else if Moves(step, r) {
        StepsProgress(s, step, r);
        assert MovesOf(steps, n, r) == MovesOf(steps, n - 1, r) + {n - 1};
      } else {
        assert MovesOf(steps, n, r) == MovesOf(steps, n - 1, r);
        if r in s.reqs { StepLeaves(s, step, r); }
      }
    }
  }

  /** All steps that requests have taken since the last start. */
  ghost function AllMoves(steps: seq<Step>, n: nat): set<nat>
    requires n <= |steps|
  {
    set i: nat | Since(steps, n) <= i < n && exists r :: Moves(steps[i], r)
  }

  ghost function MovesOfSome(steps: seq<Step>, n: nat, some: set<nat>): set<nat>
    requires n <= |steps|
  {
    set i: nat | Since(steps, n) <= i < n && exists r :: r in some && Moves(steps[i], r)
  }

  lemma {:induction false} SomeMoves(steps: seq<Step>, n: nat, some: set<nat>, most: nat)
    requires n <= |steps| && forall r :: r in some ==> |MovesOf(steps, n, r)| <= most
    ensures |MovesOfSome(steps, n, some)| <= |some| * most
  {
    hide Moves, Since;
    if some == {} {
      assert MovesOfSome(steps, n, some) == {};
    } else {
      var r :| r in some;
      SomeMoves(steps, n, some - {r}, most);
      OneMoreMover(steps, n, some, r);
      OneLess(|some|, most);
    }
  }

  lemma OneLess(count: nat, most: nat)
    requires count > 0
    ensures (count - 1) * most + most == count * most
  {
  }

  lemma OneMoreMover(steps: seq<Step>, n: nat, some: set<nat>, r: nat)
    requires n <= |steps| && r in some
    ensures |MovesOfSome(steps, n, some)| <= |MovesOfSome(steps, n, some - {r})| + |MovesOf(steps, n, r)|
  {
    hide Moves, Since;
    var rest, own := MovesOfSome(steps, n, some - {r}), MovesOf(steps, n, r);
    forall i | i in MovesOfSome(steps, n, some) ensures i in rest || i in own {
      var p :| p in some && Moves(steps[i], p);
      if p != r { assert p in some - {r}; }
    }
    SubsetCount(MovesOfSome(steps, n, some), rest + own);
  }

  lemma SubsetCount<A>(few: set<A>, many: set<A>)
    requires few <= many
    ensures |few| <= |many|
  {
    assert many == few + (many - few);
  }

  /** What `requests` requests of at most `longest` operations each can do in all. */
  function Budget(requests: nat, levels: nat, longest: nat): int {
    requests * (196 * MostRetries(requests, levels) + 199 + longest)
  }

  ghost predicate NoLonger(reqs: Requests, longest: nat) {
    forall r :: r in reqs ==> |reqs[r].ops| <= longest
  }

  lemma MovesAreBounded(place: Placement, rank: Rank, levels: nat, longest: nat, steps: seq<Step>, states: seq<State>, n: nat)
    requires Q.IsRun(place, steps, states) && InOrder(place, rank, levels, steps) && n < |states|
    requires NoLonger(states[n].reqs, longest)
    ensures |AllMoves(steps, n)| <= Budget(|states[n].reqs|, levels, longest)
  {
    hide Inv, Moves, Progress, InOrder, MostRetries, Next;
    var reqs := states[n].reqs;
    var most := 196 * |Retried(reqs)| + 199 + longest;
    RetriesAreBounded(place, rank, levels, steps, states, n);
    forall r ensures if r in reqs then |MovesOf(steps, n, r)| <= most else MovesOf(steps, n, r) == {} {
      MovesAreProgress(place, steps, states, n, r);
      if r in reqs { RequestProgress(place, steps, states, n, r); }
    }
    SomeMoves(steps, n, reqs.Keys, most);
    forall i | i in AllMoves(steps, n) ensures i in MovesOfSome(steps, n, reqs.Keys) {
      var r :| Moves(steps[i], r);
      assert i in MovesOf(steps, n, r);
    }
    assert AllMoves(steps, n) == MovesOfSome(steps, n, reqs.Keys);
    assert |reqs.Keys| == |reqs|;
    Grows(|reqs|, most, 196 * MostRetries(|reqs|, levels) + 199 + longest);
  }

  lemma RequestProgress(place: Placement, steps: seq<Step>, states: seq<State>, n: nat, r: nat)
    requires Q.IsRun(place, steps, states) && n < |states| && r in states[n].reqs
    ensures Progress(states[n].reqs[r]) <= 196 * |Retried(states[n].reqs)| + 199 + |states[n].reqs[r].ops|
  {
    hide Inv, Progress, Q.IsRun, RequestOk, DecidedWell, WaitsWell;
    Q.RunsAreGood(place, steps, states, n);
    Q.RequestFacts(states[n], r);
    ProgressBound(states[n].place, states[n].reqs[r]);
    RetriedCount(states[n].reqs, r);
  }

  /** No schedule goes on for ever: as long as a request is unfinished some request can
      move, and after at most `Budget` moves all of them have ended. */
  lemma EveryRequestEnds(place: Placement, rank: Rank, levels: nat, longest: nat, steps: seq<Step>, states: seq<State>)
    requires Q.IsRun(place, steps, states) && InOrder(place, rank, levels, steps)
    requires NoLonger(states[|steps|].reqs, longest)
    ensures var s := states[|steps|];
            && |AllMoves(steps, |steps|)| <= Budget(|s.reqs|, levels, longest)
            && ((exists r :: r in s.reqs && !Ended(s.reqs[r].phase)) ==>
                  && (exists step, r :: Moves(step, r) && Enabled(s, step))
                  && |AllMoves(steps, |steps|)| < Budget(|s.reqs|, levels, longest))
  {
    hide Inv, Moves, Enabled, Budget, InOrder, Q.CanMove, Q.OwnStep, Apply;
    var n := |steps|;
    var s := states[n];
    MovesAreBounded(place, rank, levels, longest, steps, states, n);
    if r :| r in s.reqs && !Ended(s.reqs[r].phase) {
      Q.RunsAreGood(place, steps, states, n);
      Q.SomebodyMoves(s, r);
      var p :| p in s.reqs && Q.CanMove(s, p);
      var step := OneMove(s, p);
      MoveIsCounted(place, rank, levels, longest, steps, states, step, p);
    }
  }

  lemma OneMove(s: State, p: nat) returns (step: Step)
    requires Q.CanMove(s, p)
    ensures Moves(step, p) && Enabled(s, step) && !step.Begin? && !step.Restart?
  {
    hide Enabled;
    step :| Q.OwnStep(step, p) && Enabled(s, step);
  }

  /** The run with one more move still keeps to the budget. */
  lemma MoveIsCounted(place: Placement, rank: Rank, levels: nat, longest: nat, steps: seq<Step>, states: seq<State>,
                      step: Step, p: nat)
    requires Q.IsRun(place, steps, states) && InOrder(place, rank, levels, steps)
    requires NoLonger(states[|steps|].reqs, longest)
    requires Moves(step, p) && Enabled(states[|steps|], step) && !step.Begin? && !step.Restart?
    ensures |AllMoves(steps, |steps|)| < Budget(|states[|steps|].reqs|, levels, longest)
  {
    hide Inv, Moves, Enabled, Budget, Apply, InOrder, Since, AllMoves, Q.IsRun;
    RunExtends(place, steps, states, step);
    var n := |steps|;
    var s := states[n];
    var steps', states' := steps + [step], states + [Apply(s, step)];
    assert states'[n + 1] == Apply(s, step);
    Q.RunsAreGood(place, steps, states, n);
    MoveKeepsRequests(s, step, p);
    OneMoreMove(place, rank, levels, steps, step, p);
    MovesAreBounded(place, rank, levels, longest, steps', states', n + 1);
  }

  lemma RunExtends(place: Placement, steps: seq<Step>, states: seq<State>, step: Step)
    requires Q.IsRun(place, steps, states) && Enabled(states[|steps|], step)
    ensures Q.IsRun(place, steps + [step], states + [Apply(states[|steps|], step)]) && |states| == |steps| + 1
  {
    hide Enabled, Apply;
  }

  lemma OneMoreMove(place: Placement, rank: Rank, levels: nat, steps: seq<Step>, step: Step, p: nat)
    requires InOrder(place, rank, levels, steps) && Moves(step, p) && !step.Begin? && !step.Restart?
    ensures InOrder(place, rank, levels, steps + [step])
    ensures |AllMoves(steps + [step], |steps| + 1)| == |AllMoves(steps, |steps|)| + 1
  {
    hide Moves, Ordered;
    var n, steps' := |steps|, steps + [step];
    SinceExtends(steps, step, n);
    assert steps'[n] == step && forall i :: 0 <= i < n ==> steps'[i] == steps[i];
    assert AllMoves(steps', n + 1) == AllMoves(steps, n) + {n};
  }

  lemma MoveKeepsRequests(s: State, step: Step, p: nat)
    requires Inv(s) && Enabled(s, step) && Moves(step, p)
    ensures Apply(s, step).reqs.Keys == s.reqs.Keys && |Apply(s, step).reqs| == |s.reqs|
    ensures forall r :: r in s.reqs ==> Apply(s, step).reqs[r].ops == s.reqs[r].ops
  {
    hide Inv, Enabled, Apply, Stuck, Awaited, Searching, MarkedKey, Q.HasNothing;
    RequestMoves(s, step, p);
    assert |s.reqs| == |s.reqs.Keys| && |Apply(s, step).reqs| == |Apply(s, step).reqs.Keys|;
    if step.Wake? {
      WokenShape(s, p);
    } else if MeetsReservation(s, step) {
      ReserveRolls(s, p, step.seen);
    } else {
      OtherMovesAreTame(s, step, p);
    }
  }

  lemma {:induction false} SinceExtends(steps: seq<Step>, step: Step, n: nat)
    requires n <= |steps|
    ensures Since(steps + [step], n) == Since(steps, n)
  {
    if n > 0 { SinceExtends(steps, step, n - 1); }
  }
}
